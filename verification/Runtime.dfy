/** The agent as a running object, each of its steps proved to be a step of the protocol. */
module Runtime {
  import opened Wrappers
  import opened Sysfs
  import opened Backend
  import opened PowerBackends
  import opened Reconcile
  import opened Status
  import opened Watch
  import opened Protocol
  import Metrics

  // ---------- the API server's copy of the Node, and the watch on it ----------

  function EncodeNode(node: Node): Json {
    Object(map["metadata" := Object(map["labels" := Object(TextMembers(node.labels)),
                                        "annotations" := Object(TextMembers(node.annotations))])])
  }

  function Texts(j: Json): map<string, string> {
    if j.Object? then map k | k in j.members && j.members[k].Text? :: j.members[k].text else map[]
  }

  function Member(j: Json, key: string): Json {
    if j.Object? && key in j.members then j.members[key] else Null
  }

  function DecodeNode(doc: Json): Node {
    var metadata := Member(doc, "metadata");
    Node(Texts(Member(metadata, "labels")), Texts(Member(metadata, "annotations")))
  }

  lemma TextsInvertTextMembers(m: map<string, string>)
    ensures Texts(Object(TextMembers(m))) == m
  {
  }

  lemma EncodedNodeDecodes(doc: Json, node: Node)
    requires Encodes(doc, node)
    ensures DecodeNode(doc) == node
  {
    TextsInvertTextMembers(node.labels);
    TextsInvertTextMembers(node.annotations);
    assert Texts(Null) == map[];
  }

  lemma EncodeIsFaithful(node: Node)
    ensures Encodes(EncodeNode(node), node)
  {
    assert |"labels"| == 6 && |"annotations"| == 11;
  }

  /** The server applies the agent's document as an overlay of the annotations. */
  lemma ServerMerge(node: Node, desired: map<string, string>)
    ensures DecodeNode(MergePatch(EncodeNode(node), PatchDocument(desired)))
         == node.(annotations := Merged(node.annotations, desired))
  {
    EncodeIsFaithful(node);
    PatchTouchesOnlyAnnotations(EncodeNode(node), node, desired);
    EncodedNodeDecodes(MergePatch(EncodeNode(node), PatchDocument(desired)),
                       node.(annotations := Merged(node.annotations, desired)));
  }

  class Cluster {
    var node: Node
    var queue: seq<Node>

    constructor (node: Node)
      ensures this.node == node && queue == [node]
    {
      this.node, this.queue := node, [node];
    }

    method Edit(node: Node)
      modifies this
      ensures this.node == node && queue == old(queue) + [node]
    {
      this.node, queue := node, queue + [node];
    }

    method Relist(kept: nat)
      requires kept <= |queue|
      modifies this`queue
      ensures queue == old(queue)[..kept] + [node]
    {
      queue := queue[..kept] + [node];
    }

    method TakeEvent() returns (snapshot: Node)
      requires queue != []
      modifies this`queue
      ensures snapshot == old(queue)[0] && queue == old(queue)[1..]
    {
      snapshot, queue := queue[0], queue[1..];
    }

    /** A merge patch arriving at the server; `echoed` lets one that changes nothing still cause an event. */
    method Patch(patch: Json, echoed: bool)
      modifies this
      ensures node == DecodeNode(MergePatch(EncodeNode(old(node)), patch))
      ensures queue == if node != old(node) || echoed then old(queue) + [node] else old(queue)
    {
      var merged := DecodeNode(MergePatch(EncodeNode(node), patch));
      if merged != node || echoed {
        queue := queue + [merged];
      }
      node := merged;
    }
  }

  /** Sends the patch document for the desired annotations. */
  method SendPatch(cluster: Cluster, desired: map<string, string>, echoed: bool)
    modifies cluster
    ensures cluster.node == old(cluster.node).(annotations := Merged(old(cluster.node).annotations, desired))
    ensures cluster.queue == if cluster.node != old(cluster.node) || echoed then old(cluster.queue) + [cluster.node]
                             else old(cluster.queue)
  {
    var patch := BuildPatch(desired);
    ServerMerge(cluster.node, desired);
    cluster.Patch(patch, echoed);
  }

  // ---------- the agent ----------

  class Agent {
    const io: RootedSysfs
    const backend: PowerBackend
    const cluster: Cluster
    const metrics: Metrics.Metrics
    const profileKey: string
    const turboKey: string
    ghost const boostPresent: bool
    var lastReconcileUnix: int
    /** The Node that a resync has read and not reconciled yet. */
    var fetched: Option<Node>
    /** The annotations of a patch request that has not been answered yet. */
    var pending: Option<map<string, string>>
    ghost var seen: Option<Node>
    ghost var lost: bool
    ghost var drifted: bool
    ghost var reports: seq<Report>

    /** The production agent: sysfs rooted at `/`, a fresh set of metrics, the watch about to deliver the Node. */
    constructor (io: RootedSysfs, backend: PowerBackend, cluster: Cluster, profileKey: string, turboKey: string)
      requires io.root == [] && backend.WorksOn(io)
      ensures this.io == io && this.backend == backend && this.cluster == cluster && fresh(metrics)
      ensures this.profileKey == profileKey && this.turboKey == turboKey
      ensures boostPresent == BoostPresent(io.HostView(), io.View())
      ensures Valid() && fetched == None && pending == None && seen == None && !lost && !drifted && reports == []
    {
      var recorder := new Metrics.Metrics();
      this.io, this.backend, this.cluster, this.metrics := io, backend, cluster, recorder;
      this.profileKey, this.turboKey := profileKey, turboKey;
      this.boostPresent := BoostPresent(io.HostView(), io.View());
      lastReconcileUnix, fetched, pending := 0, None, None;
      seen, lost, drifted, reports := None, false, false, [];
    }

    ghost predicate Valid()
      reads this`reports, metrics
    {
      && io.root == [] && backend.WorksOn(io)
      && this !in backend.Own() && cluster !in backend.Own() && metrics !in backend.Own()
      && Metrics.Conserved(metrics.values, reports)
    }

    ghost function Cfg(): Config {
      Config(backend.Model(), io.HostView(), boostPresent, profileKey, turboKey)
    }

    ghost function Abs(): State
      reads this, cluster, io.disk
    {
      State(WatchState(cluster.node, cluster.queue, fetched, pending, seen, lost), io.View(), drifted)
    }

    method Record(report: Report, now: int)
      requires Metrics.Conserved(metrics.values, reports)
      modifies this`lastReconcileUnix, this`reports, metrics
      ensures Metrics.Conserved(metrics.values, reports)
      ensures reports == old(reports) + [report]
      ensures lastReconcileUnix == now == metrics.lastReconcileTimestamp
    {
      metrics.Observe(report, now);
      Metrics.ConservedStep(old(metrics.values), reports, report, metrics.values);
      reports := reports + [report];
      lastReconcileUnix := now;
    }

    /** Applies a snapshot's labels to the hardware and records the outcome. */
    method Drive(snapshot: Node, now: int) returns (report: Report)
      requires Valid()
      modifies io.disk, metrics, backend.Own(), this`lastReconcileUnix, this`reports
      ensures Valid()
      ensures var labels := Labels(LabelAt(snapshot.labels, profileKey), LabelAt(snapshot.labels, turboKey));
              && io.View() == FilesAfter(backend.Model(), io.HostView(), old(io.View()), labels)
              && report == CalledReport(backend.Model(), io.HostView(), old(io.View()), labels)
      ensures reports == old(reports) + [report]
      ensures lastReconcileUnix == now == metrics.lastReconcileTimestamp
    {
      var profileLabel := LabelAt(snapshot.labels, profileKey);
      var turboLabel := LabelAt(snapshot.labels, turboKey);
      report := ReconcileOnce(backend, io, profileLabel, turboLabel);
      Record(report, now);
    }

    /** Asks for a patch if the snapshot does not already show what the report calls for. */
    method Decide(snapshot: Node, report: Report)
      requires pending.None?
      modifies this`pending, this`seen, this`lost, this`drifted
      ensures pending == PatchFor(snapshot, DesiredAnnotations(report))
      ensures seen == Some(snapshot) && !lost && !drifted
    {
      var desired := DesiredAnnotations(report);
      if NeedsPatch(snapshot.annotations, desired) {
        pending := Some(desired);
      }
      seen, lost, drifted := Some(snapshot), false, false;
    }

    /** One reconcile up to its patch request: drive the hardware, record metrics, decide whether to patch. */
    method ReconcileNode(snapshot: Node, now: int)
      requires Valid() && pending.None?
      modifies this`lastReconcileUnix, this`pending, this`seen, this`lost, this`drifted, this`reports
      modifies io.disk, metrics, backend.Own()
      ensures Valid() && reports == old(reports) + [ReportNow(Cfg(), old(Abs()), snapshot)]
      ensures pending == PatchFor(snapshot, DesiredAnnotations(ReportNow(Cfg(), old(Abs()), snapshot)))
      ensures io.View() == FilesAfter(backend.Model(), io.HostView(), old(io.View()), LabelsOf(Cfg(), snapshot))
      ensures seen == Some(snapshot) && !lost && !drifted
      ensures lastReconcileUnix == now == metrics.lastReconcileTimestamp
    {
      var report := Drive(snapshot, now);
      Decide(snapshot, report);
    }

    /** The watch arm of the event loop: reconcile the next snapshot. */
    method TakeWatched(now: int)
      requires Valid() && Enabled(Abs(), Deliver)
      modifies this, cluster, io.disk, metrics, backend.Own()
      ensures Valid() && Abs() == Protocol.Next(Cfg(), old(Abs()), Deliver)
      ensures reports == old(reports) + ReportsAt(Cfg(), old(Abs()), Deliver)
    {
      var snapshot := cluster.TakeEvent();
      ReconcileNode(snapshot, now);
    }

    /** The timer arm, first half: the server answers the request for the Node. */
    method FetchNode()
      requires Valid() && Enabled(Abs(), Fetch)
      modifies this`fetched
      ensures Valid() && Abs() == Protocol.Next(Cfg(), old(Abs()), Fetch)
    {
      fetched := Some(cluster.node);
    }

    /** The timer arm, second half: reconcile what was read. */
    method TakeFetched(now: int)
      requires Valid() && Enabled(Abs(), Resync)
      modifies this, io.disk, metrics, backend.Own()
      ensures Valid() && Abs() == Protocol.Next(Cfg(), old(Abs()), Resync)
      ensures reports == old(reports) + ReportsAt(Cfg(), old(Abs()), Resync)
    {
      var snapshot := fetched.value;
      fetched := None;
      ReconcileNode(snapshot, now);
    }

    /** The answer to the patch request: the agent only logs a failure. */
    method FinishPatch(reached: bool, echoed: bool)
      requires Valid() && pending.Some?
      modifies this`pending, this`lost, cluster
      ensures Valid() && Abs() == Protocol.Next(Cfg(), old(Abs()), Finish(reached, echoed))
    {
      if reached {
        SendPatch(cluster, pending.value, echoed);
      } else {
        lost := true;
      }
      pending := None;
    }

    /** What others do to the Node, the watch and sysfs while the agent waits. */
    method Environment(a: Action)
      requires Valid() && Enabled(Abs(), a) && (a.Edit? || a.Drift? || a.Relist? || a.Fault?)
      modifies cluster, io.disk, this`drifted
      ensures Valid() && Abs() == Protocol.Next(Cfg(), old(Abs()), a)
    {
      match a
      case Edit(node) => cluster.Edit(node);
      case Drift(files) =>
        io.disk.files := files;
        drifted := true;
        WholeTreeUnderRoot(files);
      case Relist(kept) => cluster.Relist(kept);
      case Fault =>
    }

    /** One turn of the event loop. */
    method Turn(a: Action, now: int)
      requires Valid() && Enabled(Abs(), a)
      modifies this, cluster, io.disk, metrics, backend.Own()
      ensures Valid() && Abs() == Protocol.Next(Cfg(), old(Abs()), a)
      ensures reports == old(reports) + ReportsAt(Cfg(), old(Abs()), a)
    {
      match a
      case Deliver => TakeWatched(now);
      case Fetch => FetchNode();
      case Resync => TakeFetched(now);
      case Finish(reached, echoed) => FinishPatch(reached, echoed);
      case _ => Environment(a);
    }

    /** The event loop over any interleaving of watch events, resync ticks, patch answers and outside
        actions, until the watch stream ends. The whole run is a run of the protocol, so its invariant
        holds at the end, and the metrics account for every reconcile. */
    method Loop(schedule: seq<Action>, clock: nat -> int)
      requires Valid() && WellFormed(backend.Model()) && Protocol.Invariant(Cfg(), Abs())
      requires Protocol.Possible(Cfg(), Abs(), schedule)
      modifies this, cluster, io.disk, metrics, backend.Own()
      ensures Valid() && Abs() == Protocol.Run(Cfg(), old(Abs()), schedule)
      ensures Protocol.Invariant(Cfg(), Abs())
      ensures reports == old(reports) + ReportsOf(Cfg(), old(Abs()), schedule)
      ensures Metrics.Conserved(metrics.values, reports)
    {
      Protocol.RunKeepsInvariant(Cfg(), Abs(), schedule);
      for i := 0 to |schedule|
        invariant Valid()
        invariant Protocol.Possible(Cfg(), Abs(), schedule[i..])
        invariant Protocol.Run(Cfg(), Abs(), schedule[i..]) == Protocol.Run(Cfg(), old(Abs()), schedule)
        invariant reports + ReportsOf(Cfg(), Abs(), schedule[i..])
               == old(reports) + ReportsOf(Cfg(), old(Abs()), schedule)
      {
        ghost var s, before := Abs(), reports;
        Unroll(Cfg(), s, schedule, i);
        Turn(schedule[i], clock(i));
        Associative(before, ReportsAt(Cfg(), s, schedule[i]), ReportsOf(Cfg(), Abs(), schedule[i + 1..]));
      }
    }
  }

  lemma Associative<T>(a: seq<T>, b: seq<T>, c: seq<T>)
    ensures a + b + c == a + (b + c)
  {
  }

  lemma Unroll(cfg: Config, s: State, schedule: seq<Action>, i: nat)
    requires i < |schedule| && Protocol.Possible(cfg, s, schedule[i..])
    ensures Enabled(s, schedule[i])
    ensures var next := Protocol.Next(cfg, s, schedule[i]);
            && Protocol.Possible(cfg, next, schedule[i + 1..])
            && Protocol.Run(cfg, s, schedule[i..]) == Protocol.Run(cfg, next, schedule[i + 1..])
            && ReportsOf(cfg, s, schedule[i..])
                 == ReportsAt(cfg, s, schedule[i]) + ReportsOf(cfg, next, schedule[i + 1..])
  {
    assert schedule[i..][0] == schedule[i] && schedule[i..][1..] == schedule[i + 1..];
  }

  /** From an untouched host: detect the backend and start the agent in the protocol's initial state. */
  method Start(io: RootedSysfs, cluster: Cluster, profileKey: string, turboKey: string) returns (agent: Agent)
    requires io.root == [] && cluster.queue == [cluster.node]
    ensures fresh(agent) && agent.Valid() && agent.io == io && agent.cluster == cluster
    ensures agent.Abs() == Init(cluster.node, io.View())
    ensures Boots(agent.Cfg(), io.View())
    ensures WellFormed(agent.backend.Model()) && Protocol.Invariant(agent.Cfg(), agent.Abs())
  {
    var backend := DetectBackend(io);
    agent := new Agent(io, backend, cluster, profileKey, turboKey);
    BootInvariant(agent.Cfg(), cluster.node, io.View());
  }
}
