/** The agent's own patches wake it up again; these lemmas bound how often, for any agent whose wishes
    depend on the labels alone. */
module Convergence {
  import opened Wrappers
  import opened Status
  import opened Watch

  // ---------- the measure ----------

  /** The patches a queued snapshot can still cause: two if it calls for something else than the Node does
      now, one if only its annotations are behind, none if it already shows what is wanted. */
  function Cost(calls: Calls, want: map<string, string>, snapshot: Node): (c: nat)
    ensures c <= 2
  {
    if calls(snapshot) != want then 2 else if NeedsPatch(snapshot.annotations, want) then 1 else 0
  }

  function QueueCost(calls: Calls, want: map<string, string>, queue: seq<Node>): (c: nat)
    ensures c <= 2 * |queue|
  {
    if queue == [] then 0 else Cost(calls, want, queue[0]) + QueueCost(calls, want, queue[1..])
  }

  function PendingCost(want: map<string, string>, pending: Option<map<string, string>>): nat {
    if pending.None? then 0 else if pending.value != want then 2 else 1
  }

  function FetchedCost(calls: Calls, want: map<string, string>, fetched: Option<Node>): (c: nat)
    ensures c <= 2
  {
    if fetched.None? then 0 else Cost(calls, want, fetched.value)
  }

  /** A bound on the patches still to be sent if nobody else edits the Node. */
  function PatchBound(calls: Calls, w: WatchState): nat {
    var want := calls(w.node);
    QueueCost(calls, want, w.queue) + FetchedCost(calls, want, w.fetched) + PendingCost(want, w.pending)
  }

  /** The snapshots, queued or fetched, that the agent has yet to reconcile. */
  function Waiting(w: WatchState): nat {
    |w.queue| + if w.fetched.Some? then 1 else 0
  }

  /** A bound on the agent's steps. */
  function Measure(calls: Calls, w: WatchState): (m: nat)
    ensures m <= 5 * Waiting(w) + 4
  {
    Waiting(w) + 2 * PatchBound(calls, w)
  }

  lemma {:induction false} QueueCostAppend(calls: Calls, want: map<string, string>, queue: seq<Node>, snapshot: Node)
    ensures QueueCost(calls, want, queue + [snapshot]) == QueueCost(calls, want, queue) + Cost(calls, want, snapshot)
  {
    if queue == [] {
      assert queue + [snapshot] == [snapshot];
    } else {
      assert (queue + [snapshot])[1..] == queue[1..] + [snapshot];
      QueueCostAppend(calls, want, queue[1..], snapshot);
    }
  }

  lemma {:induction false} QueueCostPrefix(calls: Calls, want: map<string, string>, queue: seq<Node>, kept: nat)
    requires kept <= |queue|
    ensures QueueCost(calls, want, queue[..kept]) <= QueueCost(calls, want, queue)
  {
    if kept == 0 {
    } else {
      assert queue[..kept][1..] == queue[1..][..kept - 1];
      QueueCostPrefix(calls, want, queue[1..], kept - 1);
    }
  }

  // ---------- one step ----------

  predicate IsAgentStep(a: Action) {
    a.Deliver? || a.Resync? || a.Finish?
  }

  function Steps(a: Action): nat { if IsAgentStep(a) then 1 else 0 }

  function Patches(a: Action): nat { if a.Finish? then 1 else 0 }

  /** How far each outside action can raise the bounds. */
  function StepAllowance(a: Action): nat {
    match a
    case Edit(_) => 3
    case Relist(_) => 3
    case Fetch => 3
    case _ => 0
  }

  function PatchAllowance(a: Action): nat {
    if a.Edit? || a.Relist? || a.Fetch? then 1 else 0
  }

  /** Outside edits may change anything but what the Node calls for. */
  ghost predicate KeepsWish(calls: Calls, want: map<string, string>, a: Action) {
    a.Edit? ==> calls(a.node) == want
  }

  /** A patch pays for the event it causes: the patched Node calls for the same and costs less than the patch did. */
  lemma PatchedCost(calls: Calls, node: Node, desired: map<string, string>)
    requires LabelDriven(calls)
    ensures var patched := node.(annotations := Merged(node.annotations, desired));
            && calls(patched) == calls(node)
            && Cost(calls, calls(node), patched) < PendingCost(calls(node), Some(desired))
  {
    PatchSettles(node.annotations, desired, desired);
    assert node.(annotations := Merged(node.annotations, desired)).labels == node.labels;
  }

  /** What one action may do to the bounds. */
  ghost predicate Accounted(calls: Calls, w: WatchState, a: Action, w': WatchState) {
    && calls(w'.node) == calls(w.node)
    && Steps(a) + Measure(calls, w') <= Measure(calls, w) + StepAllowance(a)
    && Patches(a) + PatchBound(calls, w') <= PatchBound(calls, w) + PatchAllowance(a)
  }

  lemma EditAccounting(calls: Calls, w: WatchState, node: Node)
    requires calls(node) == calls(w.node)
    ensures Accounted(calls, w, Edit(node), Next(calls, w, Edit(node)))
  {
    QueueCostAppend(calls, calls(node), w.queue, node);
  }

  lemma RelistAccounting(calls: Calls, w: WatchState, kept: nat)
    requires kept <= |w.queue|
    ensures Accounted(calls, w, Relist(kept), Next(calls, w, Relist(kept)))
  {
    QueueCostPrefix(calls, calls(w.node), w.queue, kept);
    QueueCostAppend(calls, calls(w.node), w.queue[..kept], w.node);
  }

  lemma FinishAccounting(calls: Calls, w: WatchState, a: Action)
    requires LabelDriven(calls) && a.Finish? && CanStep(w, a)
    ensures Accounted(calls, w, a, Next(calls, w, a))
  {
    if a.reached {
      PatchedCost(calls, w.node, w.pending.value);
      QueueCostAppend(calls, calls(w.node), w.queue, Next(calls, w, a).node);
    }
  }

  /** Every agent step lowers the measure, every patch lowers the bound on patches, and an outside action
      raises either by no more than its allowance. */
  lemma StepAccounting(calls: Calls, w: WatchState, a: Action)
    requires LabelDriven(calls) && CanStep(w, a) && KeepsWish(calls, calls(w.node), a)
    ensures Accounted(calls, w, a, Next(calls, w, a))
  {
    match a
    case Edit(node) => EditAccounting(calls, w, node);
    case Relist(kept) => RelistAccounting(calls, w, kept);
    case Finish(_, _) => FinishAccounting(calls, w, a);
    case _ =>
  }

  // ---------- whole runs ----------

  function Tally(f: Action -> nat, run: seq<Action>): nat {
    if run == [] then 0 else f(run[0]) + Tally(f, run[1..])
  }

  /** No hot loop. Over any run in which outside edits leave alone what the Node calls for, the agent's
      deliveries and patches are paid for by the measure at the start plus a constant for each outside
      edit, relist and resync tick; and likewise its patches, even if patches that change nothing are echoed. */
  lemma {:induction false} NoHotLoop(calls: Calls, w: WatchState, run: seq<Action>)
    requires LabelDriven(calls) && Possible(calls, w, run)
    requires forall a :: a in run ==> KeepsWish(calls, calls(w.node), a)
    ensures var w' := Run(calls, w, run);
            && calls(w'.node) == calls(w.node)
            && Tally(Steps, run) + Measure(calls, w') <= Measure(calls, w) + Tally(StepAllowance, run)
            && Tally(Patches, run) + PatchBound(calls, w') <= PatchBound(calls, w) + Tally(PatchAllowance, run)
    decreases |run|
  {
    if run == [] {
    } else {
      assert run[0] in run;
      StepAccounting(calls, w, run[0]);
      NoHotLoop(calls, Next(calls, w, run[0]), run[1..]);
    }
  }

  lemma {:induction false} AgentTally(run: seq<Action>)
    requires forall a :: a in run ==> IsAgentStep(a)
    ensures Tally(Steps, run) == |run|
    ensures Tally(StepAllowance, run) == 0 && Tally(PatchAllowance, run) == 0
  {
    if run == [] {
    } else {
      assert run[0] in run;
      AgentTally(run[1..]);
    }
  }

  /** The agent can always go on until nothing is queued or pending. */
  lemma StuckIsQuiescent(w: WatchState)
    ensures (forall a :: IsAgentStep(a) ==> !CanStep(w, a)) <==> Quiescent(w)
  {
    assert IsAgentStep(Deliver) && IsAgentStep(Resync) && IsAgentStep(Finish(true, true));
    assert Quiescent(w) || CanStep(w, Deliver) || CanStep(w, Resync) || CanStep(w, Finish(true, true));
  }

  /** Left to itself the agent stops within a bound fixed by the queue, and where it cannot go on it has
      converged: it has seen the server's Node last, and shows what that calls for unless a patch failed. */
  lemma AgentAloneConverges(calls: Calls, w: WatchState, run: seq<Action>)
    requires LabelDriven(calls) && Invariant(calls, w) && Possible(calls, w, run)
    requires forall a :: a in run ==> IsAgentStep(a)
    ensures |run| <= Measure(calls, w) <= 5 * Waiting(w) + 4
    ensures Tally(Patches, run) <= PatchBound(calls, w)
    ensures var w' := Run(calls, w, run);
            (forall a :: IsAgentStep(a) ==> !CanStep(w', a)) ==>
              && w'.seen == Some(w'.node) && calls(w'.node) == calls(w.node)
              && (!w'.lost ==> !NeedsPatch(w'.node.annotations, calls(w'.node)))
  {
    NoHotLoop(calls, w, run);
    AgentTally(run);
    RunKeepsInvariant(calls, w, run);
    StuckIsQuiescent(Run(calls, w, run));
  }

  lemma RunAfter(calls: Calls, w: WatchState, a: Action, rest: seq<Action>)
    requires CanStep(w, a) && Possible(calls, Next(calls, w, a), rest)
    ensures Possible(calls, w, [a] + rest) && Run(calls, w, [a] + rest) == Run(calls, Next(calls, w, a), rest)
  {
    assert ([a] + rest)[1..] == rest;
  }

  /** From every state there is a run of the agent alone, with every patch reaching the server, to rest. */
  lemma {:induction false} CanConverge(calls: Calls, w: WatchState) returns (run: seq<Action>)
    requires LabelDriven(calls) && Invariant(calls, w)
    ensures Possible(calls, w, run) && Quiescent(Run(calls, w, run))
    ensures forall a :: a in run ==> a == Deliver || a == Resync || a == Finish(true, false)
    ensures !w.lost || !Quiescent(w) ==> !Run(calls, w, run).lost
    decreases Measure(calls, w)
  {
    if Quiescent(w) {
      run := [];
    } else {
      var a := if w.pending.Some? then Finish(true, false) else if w.fetched.Some? then Resync else Deliver;
      StepAccounting(calls, w, a);
      StepKeepsInvariant(calls, w, a);
      if a.Finish? { FinishFeedsWatch(w, a, map[]); }
      var rest := CanConverge(calls, Next(calls, w, a));
      RunAfter(calls, w, a, rest);
      run := [a] + rest;
    }
  }

  // ---------- the steady state ----------

  predicate IsQuietAction(a: Action) {
    a.Fetch? || a.Resync? || a.Fault? || a.Drift?
  }

  /** Once converged, resyncs never touch the Node or wake the watch. */
  lemma {:induction false} SteadyStateIsSilent(calls: Calls, w: WatchState, run: seq<Action>)
    requires Invariant(calls, w) && w.queue == [] && w.pending.None? && !w.lost
    requires Possible(calls, w, run)
    requires forall a :: a in run ==> IsQuietAction(a)
    ensures var w' := Run(calls, w, run);
            w' == w.(fetched := w'.fetched)
    decreases |run|
  {
    if run == [] {
    } else {
      assert run[0] in run;
      StepKeepsInvariant(calls, w, run[0]);
      SteadyStateIsSilent(calls, Next(calls, w, run[0]), run[1..]);
    }
  }

  /** After a failed patch the next resync asks for it again, unless the Node shows it meanwhile. */
  lemma ResyncRetries(calls: Calls, w: WatchState)
    requires Invariant(calls, w) && Quiescent(w)
    ensures var w' := Next(calls, Next(calls, w, Fetch), Resync);
            && !w'.lost && w'.node == w.node
            && (NeedsPatch(w.node.annotations, calls(w.node)) <==> w'.pending == Some(calls(w.node)))
            && (Quiescent(w') <==> !NeedsPatch(w.node.annotations, calls(w.node)))
  {
  }
}
