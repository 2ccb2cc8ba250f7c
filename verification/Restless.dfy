/** Why the guard, and wishes free of timestamps, are both needed: agents that lack either never rest. */
module Restless {
  import opened Wrappers
  import opened Status
  import opened Watch
  import Convergence

  /** The patch that the i-th reconcile of a run sends for its snapshot, if any. */
  type Sends = (nat, Node) -> Option<map<string, string>>

  /** The reconciles counted so far, after one more action. */
  function Count(i: nat, a: Action): nat {
    if Reconciles(a) then i + 1 else i
  }

  /** The watch driven by an agent with any rule for sending patches. */
  function Next(sends: Sends, i: nat, w: WatchState, a: Action): WatchState
    requires CanStep(w, a)
  {
    var w' := Step(w, a, map[]);
    if Reconciles(a) then w'.(pending := sends(i, Snapshot(w, a))) else w'
  }

  predicate Possible(sends: Sends, i: nat, w: WatchState, run: seq<Action>)
    decreases |run|
  {
    run == [] || (CanStep(w, run[0]) && Possible(sends, Count(i, run[0]), Next(sends, i, w, run[0]), run[1..]))
  }

  function Run(sends: Sends, i: nat, w: WatchState, run: seq<Action>): WatchState
    requires Possible(sends, i, w, run)
    decreases |run|
  {
    if run == [] then w else Run(sends, Count(i, run[0]), Next(sends, i, w, run[0]), run[1..])
  }

  /** The rule of the agent as it is: guarded, and calling for what the snapshot's labels call for. */
  function Guarded(calls: Calls): Sends {
    (i: nat, snapshot: Node) => PatchFor(snapshot, calls(snapshot))
  }

  /** With that rule the runs are those of the watch. */
  lemma {:induction false} GuardedIsWatch(calls: Calls, i: nat, w: WatchState, run: seq<Action>)
    ensures Possible(Guarded(calls), i, w, run) <==> Watch.Possible(calls, w, run)
    ensures Watch.Possible(calls, w, run) ==> Run(Guarded(calls), i, w, run) == Watch.Run(calls, w, run)
    decreases |run|
  {
    if run == [] {
    } else if CanStep(w, run[0]) {
      assert Next(Guarded(calls), i, w, run[0]) == Watch.Next(calls, w, run[0]);
      GuardedIsWatch(calls, Count(i, run[0]), Watch.Next(calls, w, run[0]), run[1..]);
    }
  }

  // ---------- what keeps an agent busy ----------

  /** Snapshots and patches in flight. */
  function Load(w: WatchState): nat {
    Convergence.Waiting(w) + Flight(w)
  }

  function Flight(w: WatchState): nat {
    if w.pending.Some? then 1 else 0
  }

  /** An agent step that turns a snapshot into a patch, or a patch into a snapshot. */
  ghost predicate KeepsBusy(w: WatchState, a: Action, w': WatchState) {
    Load(w') == Load(w) && Flight(w') + 2 * Convergence.Patches(a) == Flight(w) + 1
  }

  /** Only the agent acts, and no patch is lost. */
  predicate IsAgentRun(run: seq<Action>) {
    forall a :: a in run ==> Convergence.IsAgentStep(a) && (a.Finish? ==> a.reached)
  }

  /** After any number of steps there is as much to do as before, so the agent never rests;
      and every other step has been a patch. */
  ghost predicate NeverRests(w: WatchState, run: seq<Action>, w': WatchState) {
    && Load(w') == Load(w)
    && (Load(w) > 0 ==> !Quiescent(w') && exists a :: Convergence.IsAgentStep(a) && CanStep(w', a))
    && Flight(w') + 2 * Convergence.Tally(Convergence.Patches, run) == Flight(w) + |run|
  }

  lemma BusyIsStuckFree(w: WatchState)
    requires Load(w) > 0
    ensures !Quiescent(w) && exists a :: Convergence.IsAgentStep(a) && CanStep(w, a)
  {
    Convergence.StuckIsQuiescent(w);
  }

  // ---------- without the guard ----------

  /** Every reconcile sends its patch, whatever the snapshot shows. */
  function Unguarded(calls: Calls): Sends {
    (i: nat, snapshot: Node) => Some(calls(snapshot))
  }

  /** Without the guard, and where every patch bumps the Node's version and so produces an event,
      no run of the agent alone ever comes to rest. */
  lemma {:induction false} UnguardedNeverRests(calls: Calls, i: nat, w: WatchState, run: seq<Action>)
    requires Possible(Unguarded(calls), i, w, run)
    requires IsAgentRun(run) && forall a :: a in run && a.Finish? ==> a.echoed
    ensures NeverRests(w, run, Run(Unguarded(calls), i, w, run))
    decreases |run|
  {
    if run == [] {
      if Load(w) > 0 { BusyIsStuckFree(w); }
    } else {
      assert run[0] in run;
      var w1 := Next(Unguarded(calls), i, w, run[0]);
      assert KeepsBusy(w, run[0], w1);
      UnguardedNeverRests(calls, Count(i, run[0]), w1, run[1..]);
    }
  }

  // ---------- with a timestamp ----------

  /** What the i-th reconcile wants for its snapshot. */
  type Wishes = (nat, Node) -> map<string, string>

  /** Every wish carries the i-th stamp, and no two stamps are equal. */
  ghost predicate Stamped(wishes: Wishes, key: string, stamps: nat -> string) {
    && (forall i: nat, n: Node :: key in wishes(i, n) && wishes(i, n)[key] == stamps(i))
    && (forall i: nat, j: nat :: i != j ==> stamps(i) != stamps(j))
  }

  /** The guard is in place: a patch is sent only where the snapshot does not show the wish. */
  function GuardedWishes(wishes: Wishes): Sends {
    (i: nat, snapshot: Node) => PatchFor(snapshot, wishes(i, snapshot))
  }

  ghost predicate ShowsNone(n: Node, key: string, stamps: nat -> string, from: nat) {
    forall j: nat :: j >= from ==> LabelAt(n.annotations, key) != Some(stamps(j))
  }

  /** No snapshot shows a stamp still to come, nor does the Node show the one on its way. */
  ghost predicate Unstamped(w: WatchState, key: string, stamps: nat -> string, i: nat) {
    && ShowsNone(w.node, key, stamps, i)
    && (forall n :: n in w.queue ==> ShowsNone(n, key, stamps, i))
    && (w.fetched.Some? ==> ShowsNone(w.fetched.value, key, stamps, i))
    && (w.pending.Some? ==> key in w.pending.value && LabelAt(w.node.annotations, key) != Some(w.pending.value[key])
                            && forall j: nat :: j >= i ==> w.pending.value[key] != stamps(j))
  }

  lemma StampedStep(wishes: Wishes, key: string, stamps: nat -> string, i: nat, w: WatchState, a: Action)
    requires Stamped(wishes, key, stamps) && Unstamped(w, key, stamps, i)
    requires CanStep(w, a) && Convergence.IsAgentStep(a) && (a.Finish? ==> a.reached)
    ensures var w' := Next(GuardedWishes(wishes), i, w, a);
            Unstamped(w', key, stamps, Count(i, a)) && KeepsBusy(w, a, w') && (a.Finish? ==> w'.node != w.node)
  {
    var w' := Next(GuardedWishes(wishes), i, w, a);
    if a.Finish? {
      assert LabelAt(w'.node.annotations, key) == Some(w.pending.value[key]);
      assert w'.node != w.node;
      assert ShowsNone(w'.node, key, stamps, i);
    } else {
      var snapshot := Snapshot(w, a);
      var wish := wishes(i, snapshot);
      assert ShowsNone(snapshot, key, stamps, i);
      assert key in wish && wish[key] == stamps(i);
      assert w'.pending == Some(wish);
      forall n | ShowsNone(n, key, stamps, i) ensures ShowsNone(n, key, stamps, i + 1) {}
      assert forall n :: n in w'.queue ==> n in w.queue;
    }
  }

  /** Each patch of the run leaves the Node different from what it was. */
  ghost predicate EveryPatchCounts(sends: Sends, i: nat, w: WatchState, run: seq<Action>)
    requires Possible(sends, i, w, run)
    decreases |run|
  {
    run == [] ||
    (var w1 := Next(sends, i, w, run[0]);
     (run[0].Finish? ==> w1.node != w.node) && EveryPatchCounts(sends, Count(i, run[0]), w1, run[1..]))
  }

  /** The guard alone is not enough: if every reconcile wants a value never seen before, such as the time, each
      patch really changes the Node, and no run of the agent alone comes to rest, echoes or not. */
  lemma {:induction false} TimestampsNeverRest(
    wishes: Wishes, key: string, stamps: nat -> string, i: nat, w: WatchState, run: seq<Action>)
    requires Stamped(wishes, key, stamps) && Unstamped(w, key, stamps, i)
    requires Possible(GuardedWishes(wishes), i, w, run) && IsAgentRun(run)
    ensures NeverRests(w, run, Run(GuardedWishes(wishes), i, w, run))
    ensures EveryPatchCounts(GuardedWishes(wishes), i, w, run)
    decreases |run|
  {
    if run == [] {
      if Load(w) > 0 { BusyIsStuckFree(w); }
    } else {
      assert run[0] in run;
      StampedStep(wishes, key, stamps, i, w, run[0]);
      var w1 := Next(GuardedWishes(wishes), i, w, run[0]);
      TimestampsNeverRest(wishes, key, stamps, Count(i, run[0]), w1, run[1..]);
    }
  }
}
