/** The self-watching half of the agent: a Node, the snapshots of it that the watch has yet to deliver,
    and the patches that reconciles send back to it. What a snapshot calls for is left abstract. */
module Watch {
  import opened Wrappers
  import opened Sysfs
  import opened Status

  /** - `node` is the server's Node and `queue` the snapshots the watch has yet to deliver;
      - `fetched` is the copy that a resync has read and not reconciled yet;
      - `pending` is the patch a reconcile is waiting on;
      - `seen` is the snapshot reconciled last, and `lost` says whether its patch failed. */
  datatype WatchState = WatchState(
    node: Node,
    queue: seq<Node>,
    fetched: Option<Node>,
    pending: Option<map<string, string>>,
    seen: Option<Node>,
    lost: bool)

  datatype Action =
    | Edit(node: Node)                       // anyone but the agent changes the Node
    | Drift(files: Files)                    // anyone but the agent changes values in sysfs
    | Relist(kept: nat)                      // the watch restarts, after delivering `kept` more events
    | Fault                                  // a watch error, or a resync that finds no Node: only logged
    | Deliver                                // reconcile the next watched snapshot
    | Fetch                                  // a resync tick: the server answers with its Node
    | Resync                                 // reconcile the fetched copy, which others may have outdated meanwhile
    | Finish(reached: bool, echoed: bool)    // the patch reaches the server or fails; a no-op may still echo an event

  predicate Reconciles(a: Action) {
    a.Deliver? || a.Resync?
  }

  /** The agent does one thing at a time: it is free to take up a snapshot only when it awaits no answer. */
  predicate Idle(w: WatchState) {
    w.fetched.None? && w.pending.None?
  }

  predicate CanStep(w: WatchState, a: Action) {
    match a
    case Relist(kept) => kept <= |w.queue|
    case Deliver => Idle(w) && w.queue != []
    case Fetch => Idle(w)
    case Resync => w.fetched.Some? && w.pending.None?
    case Finish(_, _) => w.pending.Some?
    case _ => true
  }

  /** The snapshot that a step reconciles. */
  function Snapshot(w: WatchState, a: Action): Node
    requires Reconciles(a) && CanStep(w, a)
  {
    if a.Deliver? then w.queue[0] else w.fetched.value
  }

  /** The patch to send after reconciling a snapshot, if its annotations call for one. */
  function PatchFor(snapshot: Node, desired: map<string, string>): Option<map<string, string>> {
    if NeedsPatch(snapshot.annotations, desired) then Some(desired) else None
  }

  /** One step; `desired` is what the snapshot calls for, if the step reconciles one. */
  function Step(w: WatchState, a: Action, desired: map<string, string>): WatchState
    requires CanStep(w, a)
  {
    match a
    case Edit(node) => w.(node := node, queue := w.queue + [node])
    case Relist(kept) => w.(queue := w.queue[..kept] + [w.node])
    case Deliver =>
      w.(queue := w.queue[1..], pending := PatchFor(w.queue[0], desired), seen := Some(w.queue[0]), lost := false)
    case Fetch => w.(fetched := Some(w.node))
    case Resync =>
      w.(fetched := None, pending := PatchFor(w.fetched.value, desired), seen := w.fetched, lost := false)
    case Finish(reached, echoed) =>
      if !reached then w.(pending := None, lost := true)
      else
        var node := w.node.(annotations := Merged(w.node.annotations, w.pending.value));
        w.(node := node, pending := None,
           queue := if node != w.node || echoed then w.queue + [node] else w.queue)
    case _ => w
  }

  // ---------- agents whose wishes depend on the labels ----------

  /** What a Node calls for. */
  type Calls = Node -> map<string, string>

  ghost predicate LabelDriven(calls: Calls) {
    forall n: Node, m: Node :: n.labels == m.labels ==> calls(n) == calls(m)
  }

  function Next(calls: Calls, w: WatchState, a: Action): WatchState
    requires CanStep(w, a)
  {
    Step(w, a, if Reconciles(a) then calls(Snapshot(w, a)) else map[])
  }

  predicate Possible(calls: Calls, w: WatchState, run: seq<Action>)
    decreases |run|
  {
    run == [] || (CanStep(w, run[0]) && Possible(calls, Next(calls, w, run[0]), run[1..]))
  }

  function Run(calls: Calls, w: WatchState, run: seq<Action>): WatchState
    requires Possible(calls, w, run)
    decreases |run|
  {
    if run == [] then w else Run(calls, Next(calls, w, run[0]), run[1..])
  }

  predicate Quiescent(w: WatchState) {
    w.queue == [] && Idle(w)
  }

  /** The watch always ends at the server's Node, and once it is drained the last reconcile was of that Node
      and a fetched copy is still up to date. */
  ghost predicate WatchCurrent(w: WatchState) {
    if w.queue != [] then w.queue[|w.queue| - 1] == w.node
    else w.seen == Some(w.node) && (w.fetched.Some? ==> w.fetched.value == w.node)
  }

  ghost predicate Invariant(calls: Calls, w: WatchState) {
    && WatchCurrent(w)
    // a patch on its way is the one its snapshot calls for
    && (w.pending.Some? ==>
          && w.seen.Some? && w.pending.value == calls(w.seen.value)
          && NeedsPatch(w.seen.value.annotations, w.pending.value))
    // nothing left to do means nothing left to patch
    && (w.queue == [] && w.pending.None? && !w.lost ==> !NeedsPatch(w.node.annotations, calls(w.node)))
  }

  /** A patch that reaches the server leaves an event to deliver; only a failed one leaves the watch drained. */
  lemma FinishFeedsWatch(w: WatchState, a: Action, desired: map<string, string>)
    requires WatchCurrent(w) && a.Finish? && CanStep(w, a)
    requires w.seen.Some? && NeedsPatch(w.seen.value.annotations, w.pending.value)
    ensures var w' := Step(w, a, desired);
            WatchCurrent(w') && w'.pending.None? && (w'.queue == [] ==> w'.lost)
  {
    GuardIsExact(w.node.annotations, w.pending.value);
  }

  lemma StepKeepsInvariant(calls: Calls, w: WatchState, a: Action)
    requires Invariant(calls, w) && CanStep(w, a)
    ensures Invariant(calls, Next(calls, w, a))
  {
    if a.Finish? { FinishFeedsWatch(w, a, map[]); }
  }

  lemma {:induction false} RunKeepsInvariant(calls: Calls, w: WatchState, run: seq<Action>)
    requires Invariant(calls, w) && Possible(calls, w, run)
    ensures Invariant(calls, Run(calls, w, run))
    decreases |run|
  {
    if run == [] {
    } else {
      StepKeepsInvariant(calls, w, run[0]);
      RunKeepsInvariant(calls, Next(calls, w, run[0]), run[1..]);
    }
  }

  function LabelAt(labels: map<string, string>, key: string): (value: Option<string>)
    ensures value.Some? <==> key in labels
    ensures value.Some? ==> value.value == labels[key]
  {
    if key in labels then Some(labels[key]) else None
  }

  lemma StepKeepsForeignData(calls: Calls, w: WatchState, a: Action, managed: set<string>, key: string)
    requires Invariant(calls, w) && CanStep(w, a) && !a.Edit?
    requires (forall n: Node :: calls(n).Keys == managed) && key !in managed
    ensures var w' := Next(calls, w, a);
            && w'.node.labels == w.node.labels
            && LabelAt(w'.node.annotations, key) == LabelAt(w.node.annotations, key)
  {
    if a.Finish? { assert w.pending.value.Keys == managed; }
  }

  /** Without outside edits, no run changes the Node's labels or any annotation that is not managed. */
  lemma {:induction false} AgentKeepsForeignData(calls: Calls, w: WatchState, run: seq<Action>,
                                                 managed: set<string>, key: string)
    requires Invariant(calls, w) && Possible(calls, w, run)
    requires forall a :: a in run ==> !a.Edit?
    requires (forall n: Node :: calls(n).Keys == managed) && key !in managed
    ensures var w' := Run(calls, w, run);
            && w'.node.labels == w.node.labels
            && LabelAt(w'.node.annotations, key) == LabelAt(w.node.annotations, key)
    decreases |run|
  {
    if run == [] {
    } else {
      assert run[0] in run;
      StepKeepsForeignData(calls, w, run[0], managed, key);
      StepKeepsInvariant(calls, w, run[0]);
      AgentKeepsForeignData(calls, Next(calls, w, run[0]), run[1..], managed, key);
    }
  }
}
