/** From label values to backend calls and a report. */
module Reconcile {
  import opened Wrappers
  import opened Profile
  import opened Sysfs
  import opened Errors
  import opened Backend
  import opened SmallHosts
  import opened PowerBackends

  /** The values of the two labels the agent looks at. */
  datatype Labels = Labels(profile: Option<string>, turbo: Option<string>)

  datatype Report = Report(
    profile: PowerProfile,
    profileInvalid: Option<string>,
    profileError: Option<PowerError>,
    turbo: Option<bool>,
    turboInvalid: Option<string>,
    turboError: Option<PowerError>,
    turboUnsupported: bool,
    kind: BackendKind)

  function ParseProfileLabel(raw: Option<string>): (PowerProfile, Option<string>) {
    match raw
    case None => (Default, None)
    case Some(s) =>
      match FromStr(s)
      case Success(p) => (p, None)
      case Failure(_) => (Default, Some(s))
  }

  function ParseTurboLabel(raw: Option<string>): (Option<bool>, Option<string>) {
    match raw
    case None => (None, None)
    case Some(s) =>
      if s == "enabled" then (Some(true), None)
      else if s == "disabled" then (Some(false), None)
      else (None, Some(s))
  }

  /** One coarse status: an apply error outranks an invalid label, which outranks "unsupported". */
  function ResultLabel(r: Report): string {
    if r.profileError.Some? || r.turboError.Some? then "error"
    else if r.profileInvalid.Some? || r.turboInvalid.Some? then "invalid_label"
    else if r.kind == UnsupportedKind then "unsupported"
    else "ok"
  }

  function ErrorOf(r: Outcome): Option<PowerError> {
    if r.Failure? then Some(r.error) else None
  }

  function TurboError(t: Outcome): Option<PowerError> {
    if t == Failure(TurboUnsupported) then None else ErrorOf(t)
  }

  /** Turbo is left alone unless a valid label asks for it. */
  function TurboTried(b: Backend, host: Host, files: Files, turbo: Option<bool>): (Files, Outcome) {
    if turbo.Some? then TurboSet(b, host, files, turbo.value) else (files, Success(()))
  }

  /** The files left by one reconcile: the profile is applied first, then turbo if its label is valid. */
  function FilesAfter(b: Backend, host: Host, files: Files, labels: Labels): Files {
    var applied := Applied(b, host, files, ParseProfileLabel(labels.profile).0).0;
    TurboTried(b, host, applied, ParseTurboLabel(labels.turbo).0).0
  }

  /** The report as the two backend calls produce it, on whatever files are there. */
  function CalledReport(b: Backend, host: Host, files: Files, labels: Labels): Report {
    var (profile, profileInvalid) := ParseProfileLabel(labels.profile);
    var (turbo, turboInvalid) := ParseTurboLabel(labels.turbo);
    var (applied, a) := Applied(b, host, files, profile);
    var t := TurboTried(b, host, applied, turbo).1;
    Report(profile, profileInvalid, ErrorOf(a), turbo, turboInvalid,
           TurboError(t), t == Failure(TurboUnsupported), b.Kind())
  }

  /** The turbo part of a reconcile; "not supported" is told apart from a real error. */
  method TryTurbo(backend: PowerBackend, io: RootedSysfs, turbo: Option<bool>)
      returns (error: Option<PowerError>, unsupported: bool)
    requires backend.WorksOn(io)
    modifies io.disk
    ensures var (files, t) := TurboTried(backend.Model(), io.HostView(), old(io.View()), turbo);
            io.View() == files && error == TurboError(t) && unsupported == (t == Failure(TurboUnsupported))
    ensures io.Outside() == old(io.Outside())
  {
    error, unsupported := None, false;
    if turbo.Some? {
      var r := backend.SetTurbo(turbo.value, io);
      if r.Failure? {
        if r.error == TurboUnsupported {
          unsupported := true;
        } else {
          error := Some(r.error);
        }
      }
    }
  }

  method ReconcileOnce(backend: PowerBackend, io: RootedSysfs, profileLabel: Option<string>, turboLabel: Option<string>)
      returns (report: Report)
    requires backend.WorksOn(io)
    modifies io.disk, backend.Own()
    ensures var labels := Labels(profileLabel, turboLabel);
            && io.View() == FilesAfter(backend.Model(), io.HostView(), old(io.View()), labels)
            && report == CalledReport(backend.Model(), io.HostView(), old(io.View()), labels)
    ensures io.Outside() == old(io.Outside())
  {
    var (profile, profileInvalid) := ParseProfileLabel(profileLabel);
    var (turbo, turboInvalid) := ParseTurboLabel(turboLabel);
    var applied := backend.Apply(profile, io);
    var turboError, turboUnsupported := TryTurbo(backend, io, turbo);
    report := Report(profile, profileInvalid, ErrorOf(applied), turbo, turboInvalid, turboError,
                     turboUnsupported, backend.Kind());
  }

  // ---------- one reconcile ----------

  /** The report as a function of the labels in a fixed environment, whatever the files hold. */
  function ReportOf(b: Backend, host: Host, boostPresent: bool, labels: Labels): Report {
    var (profile, profileInvalid) := ParseProfileLabel(labels.profile);
    var (turbo, turboInvalid) := ParseTurboLabel(labels.turbo);
    var t := if turbo.Some? then TurboOutcome(b, host, boostPresent, turbo.value) else Success(());
    Report(profile, profileInvalid, ErrorOf(PlanOutcome(host, PlanOf(b, profile))),
           turbo, turboInvalid, TurboError(t), t == Failure(TurboUnsupported), b.Kind())
  }

  /** In a fixed environment the report depends on the labels alone; of the files, all that matters
      is whether the AMD-specific boost file exists. */
  lemma ReportIsDetermined(b: Backend, host: Host, files: Files, labels: Labels)
    ensures CalledReport(b, host, files, labels) == ReportOf(b, host, BoostPresent(host, files), labels)
  {
    ApplyKeepsTurbo(b, host, files, ParseProfileLabel(labels.profile).0);
  }

  /** The files hold what the labels ask for, as far as the environment allows: every policy before
      the first failing one has its value, and a turbo setting that succeeds has taken effect. */
  ghost predicate Reflects(b: Backend, host: Host, boostPresent: bool, labels: Labels, files: Files) {
    var report := ReportOf(b, host, boostPresent, labels);
    var plan := PlanOf(b, report.profile);
    && Holds(files, plan[..FirstFailure(host, plan)])
    && (b.Epp? && report.turbo.Some? && report.turboError.None? && !report.turboUnsupported ==>
          TurboState(b, boostPresent, files) == report.turbo)
  }

  ghost predicate BoostPresent(host: Host, files: Files) {
    Exists(host, files, AMD_PSTATE_BOOST)
  }

  lemma ReconcileFrame(b: Backend, host: Host, files: Files, labels: Labels)
    ensures var after := FilesAfter(b, host, files, labels);
            && SameExcept(files, after, ManagedPaths(b) + TURBO_PATHS)
            && BoostPresent(host, after) == BoostPresent(host, files)
  {
    var profile := ParseProfileLabel(labels.profile).0;
    var applied := Applied(b, host, files, profile).0;
    var after := FilesAfter(b, host, files, labels);
    var turbo := ParseTurboLabel(labels.turbo).0;
    ApplyKeepsTurbo(b, host, files, profile);
    if turbo.Some? { TurboSetMeaning(b, host, applied, turbo.value); }
    forall p | p !in ManagedPaths(b) + TURBO_PATHS ensures SameAt(files, after, p) {
      assert SameAt(files, applied, p);
      assert SameAt(applied, after, p);
    }
  }

  /** After one reconcile the hardware reflects the labels, whatever it held before. */
  lemma ReconcileReflects(b: Backend, host: Host, files: Files, labels: Labels)
    requires WellFormed(b)
    ensures Reflects(b, host, BoostPresent(host, files), labels, FilesAfter(b, host, files, labels))
  {
    var profile := ParseProfileLabel(labels.profile).0;
    var plan := PlanOf(b, profile);
    var k := FirstFailure(host, plan);
    var applied := Applied(b, host, files, profile).0;
    var after := FilesAfter(b, host, files, labels);
    var turbo := ParseTurboLabel(labels.turbo).0;
    PlanUnambiguous(b, profile);
    ApplyIsPrefix(host, files, plan);
    ApplyKeepsTurbo(b, host, files, profile);
    ManagedPathsFixed(b, profile);
    TurboPathsUnmanaged(b);
    if turbo.Some? { TurboSetMeaning(b, host, applied, turbo.value); }
    forall i | 0 <= i < k
      ensures plan[..k][i].path in after && after[plan[..k][i].path] == plan[..k][i].value
    {
      var p := plan[i].path;
      assert plan[..k][i] == plan[i];
      assert p in applied && applied[p] == plan[i].value;
      assert p in PlanPaths(plan);
      assert p !in TURBO_PATHS;
      assert SameAt(applied, after, p);
    }
  }

  // ---------- runs of reconciles ----------

  function FilesAfterRun(b: Backend, host: Host, files: Files, run: seq<Labels>): Files {
    if run == [] then files
    else
      var n := |run| - 1;
      FilesAfter(b, host, FilesAfterRun(b, host, files, run[..n]), run[n])
  }

  lemma {:induction false} RunKeepsBoost(b: Backend, host: Host, files: Files, run: seq<Labels>)
    ensures BoostPresent(host, FilesAfterRun(b, host, files, run)) == BoostPresent(host, files)
  {
    if run == [] {
    } else {
      var n := |run| - 1;
      RunKeepsBoost(b, host, files, run[..n]);
      ReconcileFrame(b, host, FilesAfterRun(b, host, files, run[..n]), run[n]);
    }
  }

  /** The same labels are reported alike at any point of any run. */
  lemma ReportOverRuns(b: Backend, host: Host, files: Files, run: seq<Labels>, labels: Labels)
    ensures CalledReport(b, host, FilesAfterRun(b, host, files, run), labels) == CalledReport(b, host, files, labels)
  {
    RunKeepsBoost(b, host, files, run);
    ReportIsDetermined(b, host, files, labels);
    ReportIsDetermined(b, host, FilesAfterRun(b, host, files, run), labels);
  }

  /** The last turbo setting of a run that the hardware took. */
  ghost function LastTurbo(b: Backend, host: Host, boostPresent: bool, run: seq<Labels>): Option<bool> {
    if run == [] then None
    else
      var n := |run| - 1;
      var turbo := ParseTurboLabel(run[n].turbo).0;
      if b.Epp? && turbo.Some? && TurboOutcome(b, host, boostPresent, turbo.value).Success? then turbo
      else LastTurbo(b, host, boostPresent, run[..n])
  }

  lemma TurboAfterOne(b: Backend, host: Host, files: Files, labels: Labels)
    ensures var boost := BoostPresent(host, files);
            var turbo := ParseTurboLabel(labels.turbo).0;
            var taken := b.Epp? && turbo.Some? && TurboOutcome(b, host, boost, turbo.value).Success?;
            TurboState(b, boost, FilesAfter(b, host, files, labels))
              == (if taken then turbo else TurboState(b, boost, files))
  {
    var profile := ParseProfileLabel(labels.profile).0;
    var turbo := ParseTurboLabel(labels.turbo).0;
    ApplyKeepsTurbo(b, host, files, profile);
    if turbo.Some? { TurboSetMeaning(b, host, Applied(b, host, files, profile).0, turbo.value); }
  }

  /** Turbo over whole runs, for every vendor: the state is the last valid label that could be
      written, or the initial state. Absent, invalid and refused labels never change it. */
  lemma {:induction false} TurboOverRuns(b: Backend, host: Host, files: Files, run: seq<Labels>)
    ensures var boost := BoostPresent(host, files);
            var last := LastTurbo(b, host, boost, run);
            TurboState(b, boost, FilesAfterRun(b, host, files, run))
              == (if last.Some? then last else TurboState(b, boost, files))
  {
    if run == [] {
    } else {
      var n := |run| - 1;
      TurboOverRuns(b, host, files, run[..n]);
      RunKeepsBoost(b, host, files, run[..n]);
      TurboAfterOne(b, host, FilesAfterRun(b, host, files, run[..n]), run[n]);
    }
  }

  /** The last valid turbo label of a run. */
  ghost function LastValidTurbo(run: seq<Labels>): Option<bool> {
    if run == [] then None
    else
      var turbo := ParseTurboLabel(run[|run| - 1].turbo).0;
      if turbo.Some? then turbo else LastValidTurbo(run[..|run| - 1])
  }

  lemma NoErrorMeansTaken(b: Backend, host: Host, boost: bool, labels: Labels)
    requires b.Epp? && b.vendor != UnknownVendor
    requires ReportOf(b, host, boost, labels).turboError.None?
    ensures var turbo := ParseTurboLabel(labels.turbo).0;
            turbo.Some? ==> TurboOutcome(b, host, boost, turbo.value).Success?
  {
  }

  ghost predicate NoTurboErrors(b: Backend, host: Host, boost: bool, run: seq<Labels>) {
    forall labels :: labels in run ==> ReportOf(b, host, boost, labels).turboError.None?
  }

  /** Without write errors on a known vendor, turbo follows the last valid label. */
  lemma {:induction false} TurboFollowsLabels(b: Backend, host: Host, boost: bool, run: seq<Labels>)
    requires b.Epp? && b.vendor != UnknownVendor
    requires NoTurboErrors(b, host, boost, run)
    ensures LastTurbo(b, host, boost, run) == LastValidTurbo(run)
  {
    if run == [] {
    } else {
      var n := |run| - 1;
      assert run[n] in run;
      NoErrorMeansTaken(b, host, boost, run[n]);
      assert NoTurboErrors(b, host, boost, run[..n]);
      TurboFollowsLabels(b, host, boost, run[..n]);
    }
  }

  /** Whatever a run did before, the last labels decide every managed file (up to the first failing
      policy) and, when their turbo value can be written, the turbo state. */
  lemma LastReconcileWins(b: Backend, host: Host, files: Files, run: seq<Labels>)
    requires WellFormed(b) && run != []
    ensures Reflects(b, host, BoostPresent(host, files), run[|run| - 1], FilesAfterRun(b, host, files, run))
  {
    var n := |run| - 1;
    RunKeepsBoost(b, host, files, run[..n]);
    ReconcileReflects(b, host, FilesAfterRun(b, host, files, run[..n]), run[n]);
  }

  /** On unsupported hardware no run changes a file or reports an error. */
  lemma {:induction false} UnsupportedIsInert(host: Host, files: Files, run: seq<Labels>, labels: Labels, boost: bool)
    ensures FilesAfterRun(Unsupported, host, files, run) == files
    ensures ResultLabel(ReportOf(Unsupported, host, boost, labels)) != "error"
  {
    if run == [] {
    } else {
      UnsupportedIsInert(host, files, run[..|run| - 1], labels, boost);
      assert PlanOf(Unsupported, ParseProfileLabel(run[|run| - 1].profile).0) == [];
    }
  }

  // ---------- where the documentation says more than the code does ----------

  /** A label value the agent understands; absence is fine too. */
  predicate ProfileLabelValid(raw: Option<string>) {
    raw.None? || raw.value in ["default", "performance", "balance_performance", "balance_power", "power"]
  }

  /** The kernel text that a profile label stands for. */
  ghost function ProfileText(raw: Option<string>): string {
    if raw.Some? && ProfileLabelValid(raw) then raw.value else "default"
  }

  predicate TurboLabelValid(raw: Option<string>) {
    raw.None? || raw.value == "enabled" || raw.value == "disabled"
  }

  lemma ProfileLabelParses(raw: Option<string>)
    ensures ProfileLabelValid(raw) <==> ParseProfileLabel(raw).1.None?
    ensures !ProfileLabelValid(raw) ==> ParseProfileLabel(raw).1 == raw
    ensures AsKernelStr(ParseProfileLabel(raw).0) == ProfileText(raw)
  {
  }

  /** Unsupported hardware reports "unsupported" exactly when both labels are absent or valid. */
  lemma UnsupportedStatusExactly(host: Host, boost: bool, labels: Labels)
    ensures ResultLabel(ReportOf(Unsupported, host, boost, labels)) == "unsupported"
       <==> ProfileLabelValid(labels.profile) && TurboLabelValid(labels.turbo)
  {
    ProfileLabelParses(labels.profile);
    assert |"error"| == 5 && |"invalid_label"| == 13 && |"unsupported"| == 11 && |"ok"| == 2;
    assert |"enabled"| == 7 && |"disabled"| == 8;
  }

  /** A counterexample to "unsupported regardless of labeling": an unknown profile on a host without cpufreq. */
  lemma UnsupportedStatusCounterexample(accepts: (Path, string) -> bool)
    ensures Detects(BareHost(accepts), map[], Unsupported)
    ensures ResultLabel(ReportOf(Unsupported, BareHost(accepts), false, Labels(Some("ultra"), None))) == "invalid_label"
  {
    BareHostDetected(accepts);
    assert |"ultra"| == 5 && |"power"| == 5 && "ultra"[0] != "power"[0];
    assert |"default"| == 7 && |"performance"| == 11 && |"balance_performance"| == 19 && |"balance_power"| == 13;
  }
}
