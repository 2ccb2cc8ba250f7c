/** The whole agent: the watch on its Node joined to the hardware it drives. */
module Protocol {
  import opened Wrappers
  import opened Sysfs
  import opened Backend
  import opened Hardware
  import opened Reconcile
  import opened Status
  import opened Reporting
  import opened Watch
  import Convergence

  /** What is fixed at start-up. */
  datatype Config = Config(backend: Backend, host: Host, boostPresent: bool, profileKey: string, turboKey: string)

  /** `drifted` says whether someone else wrote to sysfs since the last reconcile. */
  datatype State = State(watch: WatchState, files: Files, drifted: bool)

  function LabelsOf(cfg: Config, node: Node): Labels {
    Labels(LabelAt(node.labels, cfg.profileKey), LabelAt(node.labels, cfg.turboKey))
  }

  function Init(node: Node, files: Files): State {
    State(WatchState(node, [node], None, None, None, false), files, false)
  }

  /** Sysfs files change their values by themselves, but do not appear or vanish. */
  predicate Enabled(s: State, a: Action) {
    CanStep(s.watch, a) && (a.Drift? ==> a.files.Keys == s.files.Keys)
  }

  /** The report of a reconcile, made from what the backend's calls return on the files as they are. */
  function ReportNow(cfg: Config, s: State, snapshot: Node): Report {
    CalledReport(cfg.backend, cfg.host, s.files, LabelsOf(cfg, snapshot))
  }

  /** A reconcile drives the hardware, then asks for a patch if the snapshot does not show its report. */
  function Next(cfg: Config, s: State, a: Action): State
    requires Enabled(s, a)
  {
    if Reconciles(a) then
      var snapshot := Snapshot(s.watch, a);
      State(Step(s.watch, a, DesiredAnnotations(ReportNow(cfg, s, snapshot))),
            FilesAfter(cfg.backend, cfg.host, s.files, LabelsOf(cfg, snapshot)), false)
    else
      State(Step(s.watch, a, map[]), if a.Drift? then a.files else s.files, s.drifted || a.Drift?)
  }

  predicate Possible(cfg: Config, s: State, run: seq<Action>)
    decreases |run|
  {
    run == [] || (Enabled(s, run[0]) && Possible(cfg, Next(cfg, s, run[0]), run[1..]))
  }

  function Run(cfg: Config, s: State, run: seq<Action>): State
    requires Possible(cfg, s, run)
    decreases |run|
  {
    if run == [] then s else Run(cfg, Next(cfg, s, run[0]), run[1..])
  }

  /** The reports of a run, one for each reconcile. */
  function ReportsAt(cfg: Config, s: State, a: Action): seq<Report>
    requires Enabled(s, a)
  {
    if Reconciles(a) then [ReportNow(cfg, s, Snapshot(s.watch, a))] else []
  }

  function ReportsOf(cfg: Config, s: State, run: seq<Action>): seq<Report>
    requires Possible(cfg, s, run)
    decreases |run|
  {
    if run == [] then [] else ReportsAt(cfg, s, run[0]) + ReportsOf(cfg, Next(cfg, s, run[0]), run[1..])
  }

  // ---------- the hardware ----------

  /** The annotations that a Node's labels call for, in this environment. */
  function Desired(cfg: Config, node: Node): (d: map<string, string>)
    ensures d.Keys == MANAGED_KEYS
  {
    DesiredAnnotations(ReportOf(cfg.backend, cfg.host, cfg.boostPresent, LabelsOf(cfg, node)))
  }

  function CallsOf(cfg: Config): Calls {
    (node: Node) => Desired(cfg, node)
  }

  lemma DesiredIsLabelDriven(cfg: Config)
    ensures LabelDriven(CallsOf(cfg))
  {
    forall n: Node, m: Node | n.labels == m.labels ensures Desired(cfg, n) == Desired(cfg, m) {
      assert LabelsOf(cfg, n) == LabelsOf(cfg, m);
    }
  }

  /** Which turbo file is used never changes, and the hardware follows the snapshot reconciled last. */
  ghost predicate HardwareInvariant(cfg: Config, s: State) {
    && BoostPresent(cfg.host, s.files) == cfg.boostPresent
    && (s.watch.seen.Some? && !s.drifted ==>
          Reflects(cfg.backend, cfg.host, cfg.boostPresent, LabelsOf(cfg, s.watch.seen.value), s.files))
  }

  lemma StepKeepsHardware(cfg: Config, s: State, a: Action)
    requires WellFormed(cfg.backend) && HardwareInvariant(cfg, s) && Enabled(s, a)
    ensures HardwareInvariant(cfg, Next(cfg, s, a))
  {
    if Reconciles(a) {
      var labels := LabelsOf(cfg, Snapshot(s.watch, a));
      ReconcileFrame(cfg.backend, cfg.host, s.files, labels);
      ReconcileReflects(cfg.backend, cfg.host, s.files, labels);
    }
  }

  // ---------- the agent is label-driven ----------

  /** Whatever the files hold, the watch sees an agent whose wishes depend on the labels alone. */
  lemma StepRefinesWatch(cfg: Config, s: State, a: Action)
    requires HardwareInvariant(cfg, s) && Enabled(s, a)
    ensures Next(cfg, s, a).watch == Watch.Next(CallsOf(cfg), s.watch, a)
  {
    if Reconciles(a) {
      ReportIsDetermined(cfg.backend, cfg.host, s.files, LabelsOf(cfg, Snapshot(s.watch, a)));
    }
  }

  /** So every run of the agent, with drift and partial applies, is a run of the watch alone. */
  lemma {:induction false} RunRefinesWatch(cfg: Config, s: State, run: seq<Action>)
    requires WellFormed(cfg.backend) && HardwareInvariant(cfg, s) && Possible(cfg, s, run)
    ensures HardwareInvariant(cfg, Run(cfg, s, run))
    ensures Watch.Possible(CallsOf(cfg), s.watch, run)
    ensures Watch.Run(CallsOf(cfg), s.watch, run) == Run(cfg, s, run).watch
    decreases |run|
  {
    if run == [] {
    } else {
      StepRefinesWatch(cfg, s, run[0]);
      StepKeepsHardware(cfg, s, run[0]);
      RunRefinesWatch(cfg, Next(cfg, s, run[0]), run[1..]);
    }
  }

  ghost predicate Invariant(cfg: Config, s: State) {
    Watch.Invariant(CallsOf(cfg), s.watch) && HardwareInvariant(cfg, s)
  }

  lemma RunKeepsInvariant(cfg: Config, s: State, run: seq<Action>)
    requires WellFormed(cfg.backend) && Invariant(cfg, s) && Possible(cfg, s, run)
    ensures Invariant(cfg, Run(cfg, s, run))
  {
    RunRefinesWatch(cfg, s, run);
    Watch.RunKeepsInvariant(CallsOf(cfg), s.watch, run);
  }

  // ---------- from start-up to rest ----------

  /** Start-up: the backend is the one detected on these files. */
  ghost predicate Boots(cfg: Config, files: Files) {
    && Detects(cfg.host, files, cfg.backend)
    && cfg.boostPresent == BoostPresent(cfg.host, files)
  }

  lemma BootInvariant(cfg: Config, node: Node, files: Files)
    requires Boots(cfg, files)
    ensures WellFormed(cfg.backend) && Invariant(cfg, Init(node, files))
  {
    DetectionDetermined(cfg.host, files, cfg.backend, cfg.backend);
  }

  /** The states that the agent can get into on a host with these files. */
  ghost predicate Reachable(cfg: Config, s: State) {
    exists node, files, run :: IsRunTo(cfg, node, files, run, s)
  }

  ghost predicate IsRunTo(cfg: Config, node: Node, files: Files, run: seq<Action>, s: State) {
    Boots(cfg, files) && Possible(cfg, Init(node, files), run) && Run(cfg, Init(node, files), run) == s
  }

  lemma ReachableInvariant(cfg: Config, s: State)
    requires Reachable(cfg, s)
    ensures WellFormed(cfg.backend) && Invariant(cfg, s)
  {
    var node, files, run :| IsRunTo(cfg, node, files, run, s);
    BootInvariant(cfg, node, files);
    RunKeepsInvariant(cfg, Init(node, files), run);
  }

  /** No hot loop, for the real agent: in any run from a reachable state in which outside edits leave alone what
      the labels call for, deliveries and patches are bounded by the queue at the start and the outside actions. */
  lemma AgentHasNoHotLoop(cfg: Config, s: State, run: seq<Action>)
    requires Reachable(cfg, s) && Possible(cfg, s, run)
    requires forall a :: a in run ==> Convergence.KeepsWish(CallsOf(cfg), Desired(cfg, s.watch.node), a)
    ensures Convergence.Tally(Convergence.Steps, run)
         <= Convergence.Measure(CallsOf(cfg), s.watch) + Convergence.Tally(Convergence.StepAllowance, run)
    ensures Convergence.Tally(Convergence.Patches, run)
         <= Convergence.PatchBound(CallsOf(cfg), s.watch) + Convergence.Tally(Convergence.PatchAllowance, run)
  {
    ReachableInvariant(cfg, s);
    RunRefinesWatch(cfg, s, run);
    DesiredIsLabelDriven(cfg);
    Convergence.NoHotLoop(CallsOf(cfg), s.watch, run);
  }

  /** In any reachable state with nothing left to do, the agent's last reconcile was of exactly the server's
      Node; and unless the patch of that reconcile failed, the annotations say what its labels call for. */
  lemma QuiescentIsConverged(cfg: Config, s: State)
    requires Reachable(cfg, s) && Quiescent(s.watch)
    ensures s.watch.seen == Some(s.watch.node)
    ensures !s.watch.lost ==> forall key :: key in Desired(cfg, s.watch.node) ==>
              LabelAt(s.watch.node.annotations, key) == Some(Desired(cfg, s.watch.node)[key])
  {
    ReachableInvariant(cfg, s);
  }

  /** The hardware does what a Node's own labels ask for: every policy carries the labelled profile (default, if
      there is no valid one) up to the first policy that does not take it, and a labelled turbo setting that its
      switch accepts is in force. */
  ghost predicate Enforces(cfg: Config, node: Node, files: Files) {
    && InForce(cfg.backend, cfg.host, files, ProfileText(LabelAt(node.labels, cfg.profileKey)))
    && (LabelAt(node.labels, cfg.turboKey) == Some("enabled") ==> TurboInForce(cfg, true, files))
    && (LabelAt(node.labels, cfg.turboKey) == Some("disabled") ==> TurboInForce(cfg, false, files))
  }

  ghost predicate TurboInForce(cfg: Config, enabled: bool, files: Files) {
    cfg.backend.Epp? && CanSetTurbo(cfg.backend.vendor, cfg.host, cfg.boostPresent, enabled) ==>
      TurboState(cfg.backend, cfg.boostPresent, files) == Some(enabled)
  }

  lemma ReflectingEnforces(cfg: Config, node: Node, files: Files)
    requires Reflects(cfg.backend, cfg.host, cfg.boostPresent, LabelsOf(cfg, node), files)
    ensures Enforces(cfg, node, files)
  {
    var labels := LabelsOf(cfg, node);
    ProfileLabelParses(labels.profile);
    HeldIsInForce(cfg.backend, cfg.host, files, ParseProfileLabel(labels.profile).0);
    TurboOutcomeExactly(cfg.backend, cfg.host, cfg.boostPresent, true);
    TurboOutcomeExactly(cfg.backend, cfg.host, cfg.boostPresent, false);
    assert |"enabled"| == 7 && |"disabled"| == 8;
  }

  /** Both layers together: in any reachable state at rest, without drift since, the hardware enforces the
      server's own labels, whatever stale snapshots or partial applies came before. */
  lemma SteadyStateEndToEnd(cfg: Config, s: State)
    requires Reachable(cfg, s) && Quiescent(s.watch) && !s.drifted
    ensures Enforces(cfg, s.watch.node, s.files)
  {
    ReachableInvariant(cfg, s);
    QuiescentIsConverged(cfg, s);
    ReflectingEnforces(cfg, s.watch.node, s.files);
  }

  /** Drift is undone by the next resync, without waking the watch if the state had converged. */
  lemma ResyncUndoesDrift(cfg: Config, s: State)
    requires Reachable(cfg, s) && Quiescent(s.watch) && !s.watch.lost
    ensures Enabled(s, Fetch) && Enabled(Next(cfg, s, Fetch), Resync)
    ensures var s' := Next(cfg, Next(cfg, s, Fetch), Resync);
            s'.watch == s.watch && !s'.drifted && Enforces(cfg, s.watch.node, s'.files)
  {
    var fetched := Next(cfg, s, Fetch);
    ReachableInvariant(cfg, s);
    StepRefinesWatch(cfg, fetched, Resync);
    StepKeepsHardware(cfg, fetched, Resync);
    ReflectingEnforces(cfg, s.watch.node, Next(cfg, fetched, Resync).files);
  }

  /** The annotations that a Node's own labels call for. */
  ghost function Called(cfg: Config, node: Node): map<string, string> {
    var labels := Labels(LabelAt(node.labels, cfg.profileKey), LabelAt(node.labels, cfg.turboKey));
    map["cpu-power.io/applied-profile" := ProfileText(LabelAt(node.labels, cfg.profileKey)),
        "cpu-power.io/applied-turbo" := ShownTurboText(LabelAt(node.labels, cfg.turboKey)),
        "cpu-power.io/backend" := BackendText(cfg.backend),
        "cpu-power.io/status" := StatusText(cfg.backend, cfg.host, cfg.boostPresent, labels)]
  }

  ghost predicate Shows(annotations: map<string, string>, called: map<string, string>) {
    forall key :: key in called ==> key in annotations && annotations[key] == called[key]
  }

  lemma DesiredIsCalled(cfg: Config, node: Node)
    ensures Desired(cfg, node) == Called(cfg, node)
  {
    AnnotationTexts(cfg.backend, cfg.host, cfg.boostPresent, LabelsOf(cfg, node));
  }

  /** In any reachable state at rest, unless the last patch failed, the Node shows the four annotations that its
      own labels call for, text by text. */
  lemma AnnotationsAtRest(cfg: Config, s: State)
    requires Reachable(cfg, s) && Quiescent(s.watch) && !s.watch.lost
    ensures Shows(s.watch.node.annotations, Called(cfg, s.watch.node))
  {
    QuiescentIsConverged(cfg, s);
    DesiredIsCalled(cfg, s.watch.node);
  }

  /** The annotations tell the truth. In a reachable state at rest, with neither a failed patch nor drift since,
      a status of "ok" means both labels are valid and the hardware does what the annotations say: every policy
      carries the applied profile (on the governor fallback, the governor that is right for it there), and on a
      known vendor turbo is as shown. */
  lemma AnnotationsTellTheTruth(cfg: Config, s: State)
    requires Reachable(cfg, s) && Quiescent(s.watch) && !s.watch.lost && !s.drifted
    requires LabelAt(s.watch.node.annotations, "cpu-power.io/status") == Some("ok")
    ensures ProfileLabelValid(LabelAt(s.watch.node.labels, cfg.profileKey))
         && TurboLabelValid(LabelAt(s.watch.node.labels, cfg.turboKey))
    ensures !cfg.backend.Unsupported?
    ensures var profile := LabelAt(s.watch.node.annotations, "cpu-power.io/applied-profile");
            && profile.Some?
            && forall policy :: policy in Policies(cfg.backend) ==>
                 Carries(cfg.backend, s.files, policy, profile.value)
    ensures var turbo := LabelAt(s.watch.node.annotations, "cpu-power.io/applied-turbo");
            DrivesTurbo(cfg.backend) ==>
              && (turbo == Some("enabled") ==> TurboState(cfg.backend, cfg.boostPresent, s.files) == Some(true))
              && (turbo == Some("disabled") ==> TurboState(cfg.backend, cfg.boostPresent, s.files) == Some(false))
  {
    AnnotationsAtRest(cfg, s);
    SteadyStateEndToEnd(cfg, s);
    OkMeansDone(cfg, s.watch.node, s.watch.node.annotations, s.files);
  }

  /** Left alone in any reachable state, the agent takes at most five steps for each waiting snapshot and four
      more. Where it can go no further the labels call for what they did before, the annotations show it unless
      a patch failed, and the hardware enforces it unless it drifted since the last reconcile. */
  lemma AgentComesToRest(cfg: Config, s: State, run: seq<Action>)
    requires Reachable(cfg, s) && Possible(cfg, s, run)
    requires forall a :: a in run ==> Convergence.IsAgentStep(a)
    ensures |run| <= 5 * Convergence.Waiting(s.watch) + 4
    ensures var s' := Run(cfg, s, run);
            (forall a :: Convergence.IsAgentStep(a) ==> !CanStep(s'.watch, a)) ==>
              && Called(cfg, s'.watch.node) == Called(cfg, s.watch.node)
              && (!s'.watch.lost ==> Shows(s'.watch.node.annotations, Called(cfg, s.watch.node)))
              && (!s'.drifted ==> Enforces(cfg, s'.watch.node, s'.files))
  {
    var s' := Run(cfg, s, run);
    ReachableInvariant(cfg, s);
    RunKeepsInvariant(cfg, s, run);
    RunRefinesWatch(cfg, s, run);
    DesiredIsLabelDriven(cfg);
    Convergence.AgentAloneConverges(CallsOf(cfg), s.watch, run);
    DesiredIsCalled(cfg, s.watch.node);
    DesiredIsCalled(cfg, s'.watch.node);
    if s'.watch.seen == Some(s'.watch.node) && !s'.drifted {
      ReflectingEnforces(cfg, s'.watch.node, s'.files);
    }
  }

  /** Without outside edits, no run changes the Node's labels or any annotation but the four managed ones. */
  lemma AgentKeepsForeignData(cfg: Config, s: State, run: seq<Action>, key: string)
    requires Reachable(cfg, s) && Possible(cfg, s, run)
    requires forall a :: a in run ==> !a.Edit?
    requires key !in MANAGED_KEYS
    ensures var s' := Run(cfg, s, run);
            && s'.watch.node.labels == s.watch.node.labels
            && LabelAt(s'.watch.node.annotations, key) == LabelAt(s.watch.node.annotations, key)
  {
    ReachableInvariant(cfg, s);
    RunRefinesWatch(cfg, s, run);
    Watch.AgentKeepsForeignData(CallsOf(cfg), s.watch, run, MANAGED_KEYS, key);
  }

  lemma OkMeansDone(cfg: Config, node: Node, shown: map<string, string>, files: Files)
    requires Shows(shown, Called(cfg, node))
    requires LabelAt(shown, "cpu-power.io/status") == Some("ok")
    requires Enforces(cfg, node, files)
    ensures ProfileLabelValid(LabelAt(node.labels, cfg.profileKey))
         && TurboLabelValid(LabelAt(node.labels, cfg.turboKey)) && !cfg.backend.Unsupported?
    ensures var profile := LabelAt(shown, "cpu-power.io/applied-profile");
            && profile.Some?
            && forall policy :: policy in Policies(cfg.backend) ==> Carries(cfg.backend, files, policy, profile.value)
    ensures var turbo := LabelAt(shown, "cpu-power.io/applied-turbo");
            DrivesTurbo(cfg.backend) ==>
              && (turbo == Some("enabled") ==> TurboState(cfg.backend, cfg.boostPresent, files) == Some(true))
              && (turbo == Some("disabled") ==> TurboState(cfg.backend, cfg.boostPresent, files) == Some(false))
  {
    var called := Called(cfg, node);
    var b, profile := cfg.backend, ProfileText(LabelAt(node.labels, cfg.profileKey));
    assert |"cpu-power.io/applied-profile"| == 28 && |"cpu-power.io/applied-turbo"| == 26;
    assert |"cpu-power.io/backend"| == 20 && |"cpu-power.io/status"| == 19;
    assert "cpu-power.io/status" in called && "cpu-power.io/applied-profile" in called;
    assert "cpu-power.io/applied-turbo" in called;
    assert |"error"| == 5 && |"invalid_label"| == 13 && |"unsupported"| == 11 && |"ok"| == 2;
    assert |"enabled"| == 7 && |"disabled"| == 8 && |"unmanaged"| == 9;
    forall policy | policy in Policies(b) ensures Carries(b, files, policy, profile) {
      var i :| 0 <= i < |Policies(b)| && Policies(b)[i] == policy;
      assert TakenUpTo(b, cfg.host, profile, i);
    }
  }
}
