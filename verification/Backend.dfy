/** What each power backend does, as functions on the visible files. */
module Backend {
  import opened Wrappers
  import opened Text
  import opened Profile
  import opened Sysfs
  import opened Errors
  import opened Topology

  datatype Vendor = Intel | Amd | UnknownVendor

  datatype BackendKind = IntelEpp | AmdEpp | UnknownEpp | GovernorFallback | UnsupportedKind

  /** A backend and the policies it captured when it was built. */
  datatype Backend =
    | Epp(policies: seq<CpuPolicy>, vendor: Vendor)
    | Governor(policies: seq<CpuPolicy>)
    | Unsupported
  {
    function Kind(): BackendKind {
      match this
      case Epp(_, Intel) => IntelEpp
      case Epp(_, Amd) => AmdEpp
      case Epp(_, UnknownVendor) => UnknownEpp
      case Governor(_) => GovernorFallback
      case Unsupported => UnsupportedKind
    }
  }

  type Outcome = Result<(), PowerError>

  // ---------- applying a profile ----------

  /** One intended write; `refusal` is set when the policy does not advertise the value. */
  datatype PlannedWrite = PlannedWrite(path: Path, value: string, refusal: Option<PowerError>)

  type Plan = seq<PlannedWrite>

  function EppPath(policy: CpuPolicy): Path {
    policy.path + ["energy_performance_preference"]
  }

  function GovernorPath(policy: CpuPolicy): Path {
    policy.path + ["scaling_governor"]
  }

  predicate IsMiddle(profile: PowerProfile) {
    profile == Default || profile == BalancePerformance || profile == BalancePower
  }

  function MapGovernor(profile: PowerProfile, available: seq<string>): string {
    match profile
    case Performance => "performance"
    case Power => "powersave"
    case _ =>
      if "schedutil" in available then "schedutil"
      else if "ondemand" in available then "ondemand"
      else "powersave"
  }

  function EppWrite(policy: CpuPolicy, profile: PowerProfile): PlannedWrite {
    var value := AsKernelStr(profile);
    PlannedWrite(EppPath(policy), value,
      if policy.availableEpp != [] && value !in policy.availableEpp
      then Some(UnsupportedProfile(policy.id, value, policy.availableEpp)) else None)
  }

  function GovernorWrite(policy: CpuPolicy, profile: PowerProfile): PlannedWrite {
    var governor := MapGovernor(profile, policy.availableGovernors);
    PlannedWrite(GovernorPath(policy), governor,
      if governor !in policy.availableGovernors
      then Some(UnsupportedProfile(policy.id, AsKernelStr(profile), policy.availableGovernors)) else None)
  }

  /** The writes that `apply` intends, one for each policy. */
  function PlanOf(b: Backend, profile: PowerProfile): Plan {
    match b
    case Epp(policies, _) => seq(|policies|, i requires 0 <= i < |policies| => EppWrite(policies[i], profile))
    case Governor(policies) => seq(|policies|, i requires 0 <= i < |policies| => GovernorWrite(policies[i], profile))
    case Unsupported => []
  }

  /** Why a write fails, if it does: its value is not advertised, or the kernel refuses it. */
  function StepError(host: Host, w: PlannedWrite): Option<PowerError> {
    if w.refusal.Some? then w.refusal
    else if host.accepts(w.path, w.value) then None
    else Some(Io(w.path))
  }

  /** The index of the first write that fails, or the plan's length. */
  function FirstFailure(host: Host, plan: Plan): (k: nat)
    ensures k <= |plan|
    ensures forall i :: 0 <= i < k ==> StepError(host, plan[i]).None?
    ensures k < |plan| ==> StepError(host, plan[k]).Some?
  {
    FailureFrom(host, plan, 0)
  }

  function FailureFrom(host: Host, plan: Plan, from: nat): (k: nat)
    requires from <= |plan|
    ensures from <= k <= |plan|
    ensures forall i :: from <= i < k ==> StepError(host, plan[i]).None?
    ensures k < |plan| ==> StepError(host, plan[k]).Some?
    decreases |plan| - from
  {
    if from == |plan| || StepError(host, plan[from]).Some? then from else FailureFrom(host, plan, from + 1)
  }

  /** The files after all the writes of a plan, in order. */
  function Overlay(files: Files, plan: Plan): Files {
    if plan == [] then files
    else
      var last := plan[|plan| - 1];
      Overlay(files, plan[..|plan| - 1])[last.path := last.value]
  }

  function PlanOutcome(host: Host, plan: Plan): Outcome {
    var k := FirstFailure(host, plan);
    if k < |plan| then Failure(StepError(host, plan[k]).value) else Success(())
  }

  /** `apply`: write policy by policy, stop at the first failure. */
  function ApplyPlan(host: Host, files: Files, plan: Plan): (Files, Outcome) {
    (Overlay(files, plan[..FirstFailure(host, plan)]), PlanOutcome(host, plan))
  }

  function Applied(b: Backend, host: Host, files: Files, profile: PowerProfile): (Files, Outcome) {
    ApplyPlan(host, files, PlanOf(b, profile))
  }

  ghost function PlanPaths(plan: Plan): set<Path> {
    set i | 0 <= i < |plan| :: plan[i].path
  }

  /** No two writes of the plan disagree about the same file. */
  ghost predicate Unambiguous(plan: Plan) {
    forall i, j :: 0 <= i < j < |plan| && plan[i].path == plan[j].path ==> plan[i].value == plan[j].value
  }

  /** Every write of the plan is in place. */
  ghost predicate Holds(files: Files, plan: Plan) {
    forall i :: 0 <= i < |plan| ==> plan[i].path in files && files[plan[i].path] == plan[i].value
  }

  ghost predicate SameAt(f: Files, g: Files, p: Path) {
    (p in f <==> p in g) && (p in f ==> f[p] == g[p])
  }

  /** The two states differ at most on `paths`. */
  ghost predicate SameExcept(f: Files, g: Files, paths: set<Path>) {
    forall p :: p !in paths ==> SameAt(f, g, p)
  }

  lemma SameEverywhere(f: Files, g: Files)
    requires SameExcept(f, g, {})
    ensures f == g
  {
    forall p ensures (p in f <==> p in g) && (p in f ==> f[p] == g[p]) {
      assert SameAt(f, g, p);
    }
  }

  lemma {:induction false} OverlayFrame(files: Files, plan: Plan)
    ensures SameExcept(files, Overlay(files, plan), PlanPaths(plan))
    ensures Overlay(files, plan).Keys == files.Keys + PlanPaths(plan)
  {
    if plan == [] {
    } else {
      var n := |plan| - 1;
      OverlayFrame(files, plan[..n]);
      assert PlanPaths(plan) == PlanPaths(plan[..n]) + {plan[n].path} by {
        forall i | 0 <= i < |plan| ensures plan[i].path in PlanPaths(plan[..n]) + {plan[n].path} {
          if i < n { assert plan[..n][i] == plan[i]; }
        }
      }
    }
  }

  lemma {:induction false} OverlayHolds(files: Files, plan: Plan)
    requires Unambiguous(plan)
    ensures Holds(Overlay(files, plan), plan)
  {
    if plan == [] {
    } else {
      var n := |plan| - 1;
      OverlayHolds(files, plan[..n]);
      var before, after := Overlay(files, plan[..n]), Overlay(files, plan);
      forall i | 0 <= i < |plan|
        ensures plan[i].path in after && after[plan[i].path] == plan[i].value
      {
        if i < n { assert plan[..n][i] == plan[i]; }
      }
    }
  }

  /** Partial application is exactly a prefix: the policies before the first failing one
      hold their new value, and no other file has changed. */
  lemma ApplyIsPrefix(host: Host, files: Files, plan: Plan)
    requires Unambiguous(plan)
    ensures var (after, r) := ApplyPlan(host, files, plan);
            var k := FirstFailure(host, plan);
            && Holds(after, plan[..k])
            && SameExcept(files, after, PlanPaths(plan[..k]))
            && (r.Success? <==> k == |plan|)
            && (r.Success? <==> forall i :: 0 <= i < |plan| ==> StepError(host, plan[i]).None?)
            && (r.Failure? ==> StepError(host, plan[k]) == Some(r.error))
  {
    var k := FirstFailure(host, plan);
    OverlayFrame(files, plan[..k]);
    OverlayHolds(files, plan[..k]);
  }

  ghost predicate DistinctPaths(policies: seq<CpuPolicy>) {
    forall i, j :: 0 <= i < j < |policies| ==> policies[i].path != policies[j].path
  }

  /** The captured policies live in different directories, as discovery guarantees. */
  ghost predicate WellFormed(b: Backend) {
    b.Unsupported? || DistinctPaths(b.policies)
  }

  lemma ChildInjective(dir: Path, dir': Path, name: string)
    ensures dir + [name] == dir' + [name] <==> dir == dir'
  {
    assert (dir + [name])[..|dir|] == dir && (dir' + [name])[..|dir'|] == dir';
    assert dir + [name] == dir' + [name] ==> |dir + [name]| == |dir' + [name]|;
  }

  lemma PlanUnambiguous(b: Backend, profile: PowerProfile)
    requires WellFormed(b)
    ensures Unambiguous(PlanOf(b, profile))
  {
    var plan := PlanOf(b, profile);
    forall i, j | 0 <= i < j < |plan| && plan[i].path == plan[j].path
      ensures plan[i].value == plan[j].value
    {
      if b.Governor? { ChildInjective(b.policies[i].path, b.policies[j].path, "scaling_governor"); }
    }
  }

  ghost function ManagedPaths(b: Backend): set<Path> {
    PlanPaths(PlanOf(b, Default))
  }

  lemma ManagedPathsFixed(b: Backend, profile: PowerProfile)
    ensures PlanPaths(PlanOf(b, profile)) == ManagedPaths(b)
  {
    var p, q := PlanOf(b, profile), PlanOf(b, Default);
    assert forall i :: 0 <= i < |p| ==> p[i].path == q[i].path;
  }

  lemma PlanPathsPrefix(plan: Plan, k: nat)
    requires k <= |plan|
    ensures PlanPaths(plan[..k]) <= PlanPaths(plan)
  {
    forall i | 0 <= i < k ensures plan[..k][i].path in PlanPaths(plan) { assert plan[..k][i] == plan[i]; }
  }

  lemma ApplyFrame(b: Backend, host: Host, files: Files, profile: PowerProfile)
    ensures SameExcept(files, Applied(b, host, files, profile).0, ManagedPaths(b))
  {
    var plan := PlanOf(b, profile);
    var k := FirstFailure(host, plan);
    OverlayFrame(files, plan[..k]);
    ManagedPathsFixed(b, profile);
    PlanPathsPrefix(plan, k);
  }

  /** Policy by policy: before the first failing policy the new value is in place, from it on nothing has changed. */
  lemma PartialApply(b: Backend, host: Host, files: Files, profile: PowerProfile, i: nat)
    requires WellFormed(b) && i < |PlanOf(b, profile)|
    ensures var plan := PlanOf(b, profile);
            var after := Applied(b, host, files, profile).0;
            if i < FirstFailure(host, plan) then plan[i].path in after && after[plan[i].path] == plan[i].value
            else SameAt(files, after, plan[i].path)
  {
    var plan := PlanOf(b, profile);
    var k := FirstFailure(host, plan);
    PlanUnambiguous(b, profile);
    ApplyIsPrefix(host, files, plan);
    if i < k {
      assert plan[..k][i] == plan[i];
    } else {
      forall j | 0 <= j < k ensures plan[..k][j].path != plan[i].path {
        ChildInjective(b.policies[j].path, b.policies[i].path,
                       if b.Epp? then "energy_performance_preference" else "scaling_governor");
      }
      assert plan[i].path !in PlanPaths(plan[..k]);
    }
  }

  /** Replaying the same writes removes their files from the difference between two states. */
  lemma {:induction false} OverlayConverges(f: Files, g: Files, plan: Plan, differ: set<Path>)
    requires SameExcept(f, g, differ)
    ensures SameExcept(Overlay(f, plan), Overlay(g, plan), differ - PlanPaths(plan))
  {
    if plan == [] {
    } else {
      var n := |plan| - 1;
      OverlayConverges(f, g, plan[..n], differ);
      var f', g' := Overlay(f, plan), Overlay(g, plan);
      forall p | p !in differ - PlanPaths(plan) ensures SameAt(f', g', p) {
        if p != plan[n].path && p in differ {
          var i :| 0 <= i < |plan| && plan[i].path == p;
          assert plan[..n][i].path == p;
        }
        assert p != plan[n].path ==> SameAt(Overlay(f, plan[..n]), Overlay(g, plan[..n]), p);
      }
    }
  }

  /** Drift correction: after a successful `apply`, nothing remembers what the managed files held before. */
  lemma ApplyForgetsHistory(b: Backend, host: Host, f: Files, g: Files, profile: PowerProfile)
    requires SameExcept(f, g, ManagedPaths(b))
    requires Applied(b, host, f, profile).1.Success?
    ensures Applied(b, host, f, profile) == Applied(b, host, g, profile)
  {
    var plan := PlanOf(b, profile);
    assert plan[..|plan|] == plan;
    ManagedPathsFixed(b, profile);
    OverlayConverges(f, g, plan, PlanPaths(plan));
    assert PlanPaths(plan) - PlanPaths(plan) == {};
    SameEverywhere(Overlay(f, plan), Overlay(g, plan));
  }

  lemma ApplyIsIdempotent(b: Backend, host: Host, files: Files, profile: PowerProfile)
    requires Applied(b, host, files, profile).1.Success?
    ensures Applied(b, host, Applied(b, host, files, profile).0, profile) == Applied(b, host, files, profile)
  {
    ApplyFrame(b, host, files, profile);
    ApplyForgetsHistory(b, host, files, Applied(b, host, files, profile).0, profile);
  }

  // ---------- turbo ----------

  const INTEL_NO_TURBO: Path := ["sys", "devices", "system", "cpu", "intel_pstate", "no_turbo"]
  const AMD_PSTATE_BOOST: Path := ["sys", "devices", "system", "cpu", "amd_pstate", "boost"]
  const CPUFREQ_BOOST: Path := ["sys", "devices", "system", "cpu", "cpufreq", "boost"]

  /** The file that controls turbo for a vendor; `boostPresent` says whether the AMD-specific one exists. */
  function TurboPath(vendor: Vendor, boostPresent: bool): Option<Path> {
    match vendor
    case Intel => Some(INTEL_NO_TURBO)
    case Amd => Some(if boostPresent then AMD_PSTATE_BOOST else CPUFREQ_BOOST)
    case UnknownVendor => None
  }

  function TurboText(vendor: Vendor, enabled: bool): string {
    if (vendor == Intel) == enabled then "0" else "1"
  }

  function TurboOutcome(b: Backend, host: Host, boostPresent: bool, enabled: bool): Outcome {
    match b
    case Unsupported => Success(())
    case Governor(_) => Failure(TurboUnsupported)
    case Epp(_, vendor) =>
      match TurboPath(vendor, boostPresent)
      case None => Failure(TurboUnsupported)
      case Some(p) => if host.accepts(p, TurboText(vendor, enabled)) then Success(()) else Failure(Io(p))
  }

  function TurboSet(b: Backend, host: Host, files: Files, enabled: bool): (Files, Outcome) {
    var boost := Exists(host, files, AMD_PSTATE_BOOST);
    var r := TurboOutcome(b, host, boost, enabled);
    (if r.Success? && b.Epp? then files[TurboPath(b.vendor, boost).value := TurboText(b.vendor, enabled)] else files, r)
  }

  /** A switch in the file that sysfs keeps for the CPU driver `driver`. */
  ghost function Switch(files: Files, driver: string, name: string): Option<bool> {
    var text := Read(files, ["sys", "devices", "system", "cpu", driver, name]);
    if text == Some("1") then Some(true) else if text == Some("0") then Some(false) else None
  }

  /** Whether the hardware lets turbo engage: `no_turbo` reads inverted, `boost` reads directly, and on AMD the
      driver's own `boost` counts where there is one. */
  ghost function TurboState(b: Backend, boostPresent: bool, files: Files): Option<bool> {
    if !b.Epp? then None
    else
      match b.vendor
      case Intel =>
        var off := Switch(files, "intel_pstate", "no_turbo");
        if off.Some? then Some(!off.value) else None
      case Amd => Switch(files, if boostPresent then "amd_pstate" else "cpufreq", "boost")
      case UnknownVendor => None
  }

  ghost const TURBO_PATHS: set<Path> := {INTEL_NO_TURBO, AMD_PSTATE_BOOST, CPUFREQ_BOOST}

  lemma TurboPathsUnmanaged(b: Backend)
    ensures ManagedPaths(b) !! TURBO_PATHS
  {
    assert |"energy_performance_preference"| == 29 && |"scaling_governor"| == 16;
    forall p | p in ManagedPaths(b) ensures p !in TURBO_PATHS {
      var plan := PlanOf(b, Default);
      var i :| 0 <= i < |plan| && plan[i].path == p;
      assert p[|p| - 1] == if b.Epp? then "energy_performance_preference" else "scaling_governor";
      assert INTEL_NO_TURBO[|INTEL_NO_TURBO| - 1] == "no_turbo";
      assert AMD_PSTATE_BOOST[|AMD_PSTATE_BOOST| - 1] == "boost";
      assert CPUFREQ_BOOST[|CPUFREQ_BOOST| - 1] == "boost";
    }
  }

  lemma TurboSetMeaning(b: Backend, host: Host, files: Files, enabled: bool)
    ensures var boost := Exists(host, files, AMD_PSTATE_BOOST);
            var (after, r) := TurboSet(b, host, files, enabled);
            && SameExcept(files, after, TURBO_PATHS)
            && Exists(host, after, AMD_PSTATE_BOOST) == boost
            && (r.Success? && b.Epp? ==> TurboState(b, boost, after) == Some(enabled))
            && (r.Failure? ==> after == files)
            && (!b.Epp? ==> after == files)
  {
    if b.Epp? {
      var boost := Exists(host, files, AMD_PSTATE_BOOST);
      var after := TurboSet(b, host, files, enabled).0;
      if b.vendor != UnknownVendor && TurboOutcome(b, host, boost, enabled).Success? {
        assert AMD_PSTATE_BOOST[4] != INTEL_NO_TURBO[4] && AMD_PSTATE_BOOST[4] != CPUFREQ_BOOST[4];
        assert "0"[0] != "1"[0];
        var p := TurboPath(b.vendor, boost).value;
        assert Read(after, p) == Some(TurboText(b.vendor, enabled));
      }
    }
  }

  lemma TurboStateFrame(b: Backend, boostPresent: bool, f: Files, g: Files)
    requires forall p :: p in TURBO_PATHS ==> SameAt(f, g, p)
    ensures TurboState(b, boostPresent, f) == TurboState(b, boostPresent, g)
  {
    if b.Epp? && TurboPath(b.vendor, boostPresent).Some? {
      assert SameAt(f, g, TurboPath(b.vendor, boostPresent).value);
    }
  }

  /** `apply` leaves turbo alone, and never changes which turbo file will be used. */
  lemma ApplyKeepsTurbo(b: Backend, host: Host, files: Files, profile: PowerProfile)
    ensures var after := Applied(b, host, files, profile).0;
            && SameExcept(files, after, ManagedPaths(b))
            && Exists(host, after, AMD_PSTATE_BOOST) == Exists(host, files, AMD_PSTATE_BOOST)
            && forall boost :: TurboState(b, boost, after) == TurboState(b, boost, files)
  {
    var after := Applied(b, host, files, profile).0;
    ApplyFrame(b, host, files, profile);
    TurboPathsUnmanaged(b);
    forall p | p in TURBO_PATHS ensures SameAt(files, after, p) { assert p !in ManagedPaths(b); }
    assert AMD_PSTATE_BOOST in TURBO_PATHS;
    assert SameAt(files, after, AMD_PSTATE_BOOST);
    forall boost ensures TurboState(b, boost, after) == TurboState(b, boost, files) {
      TurboStateFrame(b, boost, after, files);
    }
  }

  lemma {:induction false} OverlayCommutes(files: Files, plan: Plan, p: Path, text: string)
    requires p !in PlanPaths(plan)
    ensures Overlay(files[p := text], plan) == Overlay(files, plan)[p := text]
  {
    if plan == [] {
    } else {
      var n := |plan| - 1;
      assert plan[n].path in PlanPaths(plan);
      forall i | 0 <= i < n ensures plan[..n][i].path in PlanPaths(plan) { assert plan[..n][i] == plan[i]; }
      OverlayCommutes(files, plan[..n], p, text);
    }
  }

  /** Profile and turbo do not interfere: either order gives the same files and the same two outcomes. */
  lemma ApplyAndTurboCommute(b: Backend, host: Host, files: Files, profile: PowerProfile, enabled: bool)
    ensures var (f1, r1) := Applied(b, host, files, profile);
            var (f2, t1) := TurboSet(b, host, f1, enabled);
            var (g1, t2) := TurboSet(b, host, files, enabled);
            var (g2, r2) := Applied(b, host, g1, profile);
            f2 == g2 && r1 == r2 && t1 == t2
  {
    ApplyKeepsTurbo(b, host, files, profile);
    TurboSetMeaning(b, host, files, enabled);
    var boost := Exists(host, files, AMD_PSTATE_BOOST);
    if b.Epp? && TurboOutcome(b, host, boost, enabled).Success? {
      var plan := PlanOf(b, profile);
      var k := FirstFailure(host, plan);
      var p := TurboPath(b.vendor, boost).value;
      TurboPathsUnmanaged(b);
      ManagedPathsFixed(b, profile);
      assert p in TURBO_PATHS;
      PlanPathsPrefix(plan, k);
      OverlayCommutes(files, plan[..k], p, TurboText(b.vendor, enabled));
    }
  }

  // ---------- reading the profile back ----------

  /** A text outside the known profiles reads as none. */
  function KnownProfile(text: string): Option<PowerProfile> {
    match FromStr(text)
    case Success(p) => Some(p)
    case Failure(_) => None
  }

  function Current(b: Backend, files: Files): Result<Option<PowerProfile>, PowerError> {
    if !b.Epp? || b.policies == [] then Success(None)
    else
      match Read(files, EppPath(b.policies[0]))
      case None => Failure(Io(EppPath(b.policies[0])))
      case Some(text) => Success(KnownProfile(text))
  }

  lemma ProfileTextUntrimmed(p: PowerProfile)
    ensures TrimEndNewlines(AsKernelStr(p)) == AsKernelStr(p)
  {
    var s := AsKernelStr(p);
    match p
    case Default => assert s[6] == 't';
    case Performance => assert s[10] == 'e';
    case BalancePerformance => assert s[18] == 'e';
    case BalancePower => assert s[12] == 'r';
    case Power => assert s[4] == 'r';
  }

  /** What was applied is what is read back. */
  lemma ApplyThenCurrent(b: Backend, host: Host, files: Files, profile: PowerProfile)
    requires b.Epp? && b.policies != []
    requires Applied(b, host, files, profile).1.Success?
    ensures Current(b, Applied(b, host, files, profile).0) == Success(Some(profile))
  {
    var plan := PlanOf(b, profile);
    assert plan[..|plan|] == plan;
    OverlayHolds(files, plan);
    assert plan[0].path == EppPath(b.policies[0]);
    ProfileTextUntrimmed(profile);
    ParseInvertsPrint(AsKernelStr(profile), profile);
  }

  /** Read back through detection: a backend detected as EPP has a policy to read from. */
  lemma DetectedApplyThenCurrent(host: Host, boot: Files, b: Backend, files: Files, profile: PowerProfile)
    requires Detects(host, boot, b) && b.Epp?
    requires Applied(b, host, files, profile).1.Success?
    ensures Current(b, Applied(b, host, files, profile).0) == Success(Some(profile))
  {
    DetectionDetermined(host, boot, b, b);
    ApplyThenCurrent(b, host, files, profile);
  }

  /** However the kernel spaces out its list of preferences, a profile is refused exactly when
      the list has tokens and the profile is not one of them. */
  lemma AdvertisedExactly(host: Host, files: Files, policy: CpuPolicy, tokens: seq<string>, gaps: seq<string>,
                          profile: PowerProfile)
    requires Describes(host, files, policy) && policy.hasEpp
    requires Layout(tokens, gaps)
    requires Read(files, policy.path + ["energy_performance_available_preferences"]) == Some(Spaced(tokens, gaps))
    ensures EppWrite(policy, profile).refusal.None? <==> tokens == [] || AsKernelStr(profile) in tokens
  {
    SplitSpaced(tokens, gaps);
  }

  // ---------- the governor fallback ----------

  ghost const GOVERNOR_PREFERENCE: seq<string> := ["schedutil", "ondemand", "powersave"]

  /** A middle profile gets the most preferred governor on offer; if none of the three is, it is refused. */
  lemma MiddleProfileGovernor(policy: CpuPolicy, profile: PowerProfile)
    requires IsMiddle(profile)
    ensures var w := GovernorWrite(policy, profile);
            && (w.refusal.None? <==> exists g :: g in GOVERNOR_PREFERENCE && g in policy.availableGovernors)
            && (w.refusal.None? ==> w.value in policy.availableGovernors)
            && forall i :: 0 <= i < |GOVERNOR_PREFERENCE| && GOVERNOR_PREFERENCE[i] in policy.availableGovernors ==>
                 w.value in GOVERNOR_PREFERENCE[..i + 1]
  {
    assert GOVERNOR_PREFERENCE[0] == "schedutil" && GOVERNOR_PREFERENCE[1] == "ondemand";
    assert GOVERNOR_PREFERENCE[2] == "powersave";
    var w := GovernorWrite(policy, profile);
    forall i | 0 <= i < |GOVERNOR_PREFERENCE| && GOVERNOR_PREFERENCE[i] in policy.availableGovernors
      ensures w.value in GOVERNOR_PREFERENCE[..i + 1]
    {
      assert GOVERNOR_PREFERENCE[..i + 1][0] == "schedutil";
      if i >= 1 { assert GOVERNOR_PREFERENCE[..i + 1][1] == "ondemand"; }
      if i == 2 { assert GOVERNOR_PREFERENCE[..i + 1][2] == "powersave"; }
    }
  }

  /** The three middle profiles are one: same files and same policy at fault. */
  lemma MiddleProfilesCollapse(policies: seq<CpuPolicy>, host: Host, files: Files, p: PowerProfile, q: PowerProfile)
    requires IsMiddle(p) && IsMiddle(q)
    ensures var b := Governor(policies);
            var (f, r) := Applied(b, host, files, p);
            var (g, s) := Applied(b, host, files, q);
            && f == g && (r.Success? <==> s.Success?)
            && FirstFailure(host, PlanOf(b, p)) == FirstFailure(host, PlanOf(b, q))
  {
    var b := Governor(policies);
    var pp, pq := PlanOf(b, p), PlanOf(b, q);
    var k := FirstFailure(host, pp);
    forall i | 0 <= i < |pp|
      ensures pp[i].path == pq[i].path && pp[i].value == pq[i].value
      ensures StepError(host, pp[i]).None? <==> StepError(host, pq[i]).None?
    {
    }
    var l := FirstFailure(host, pq);
    assert k == l;
    OverlaySameWrites(files, pp[..k], pq[..k]);
  }

  lemma {:induction false} OverlaySameWrites(files: Files, p: Plan, q: Plan)
    requires |p| == |q|
    requires forall i :: 0 <= i < |p| ==> p[i].path == q[i].path && p[i].value == q[i].value
    ensures Overlay(files, p) == Overlay(files, q)
  {
    if p == [] {
    } else {
      OverlaySameWrites(files, p[..|p| - 1], q[..|q| - 1]);
    }
  }

  // ---------- detection ----------

  function InferVendor(driver: string): Vendor {
    var lower := ToAsciiLowercase(driver);
    if Contains(lower, "intel") then Intel
    else if Contains(lower, "amd") then Amd
    else UnknownVendor
  }

  function Choose(policies: seq<CpuPolicy>): Backend {
    if policies == [] then Unsupported
    else if policies[0].hasEpp then Epp(policies, InferVendor(policies[0].scalingDriver))
    else if policies[0].availableGovernors != [] then Governor(policies)
    else Unsupported
  }

  /** A failed discovery counts as finding nothing. */
  function FoundPolicies(r: Result<seq<CpuPolicy>, PowerError>): seq<CpuPolicy> {
    if r.Success? then r.value else []
  }

  /** The backend that detection builds on a host with these files. */
  ghost predicate Detects(host: Host, files: Files, b: Backend) {
    exists r :: Discovers(host, files, r) && b == Choose(FoundPolicies(r))
  }

  /** The policy with the lowest number (first in path order among equals). */
  ghost predicate IsLowest(host: Host, files: Files, policy: CpuPolicy) {
    && Describes(host, files, policy)
    && forall q :: Describes(host, files, q) ==> q == policy || ComesBefore(policy, q)
  }

  /** Detection has one answer, and it captures policies in different directories. */
  lemma DetectionDetermined(host: Host, files: Files, b: Backend, c: Backend)
    requires Detects(host, files, b) && Detects(host, files, c)
    ensures b == c
    ensures WellFormed(b)
    ensures b.Epp? ==> b.policies != []
  {
    var r: Result<seq<CpuPolicy>, PowerError> :| Discovers(host, files, r) && b == Choose(FoundPolicies(r));
    var s: Result<seq<CpuPolicy>, PowerError> :| Discovers(host, files, s) && c == Choose(FoundPolicies(s));
    if Listable(host, CPUFREQ_ROOT) {
      DiscoveryIsUnique(host, files, r.value, s.value);
      forall i, j | 0 <= i < j < |r.value| ensures r.value[i].path != r.value[j].path {
        DiscoveredPathsDistinct(host, files, r.value, i, j);
      }
    }
  }

  /** No cpufreq directory, an unreadable one, or one without policies: nothing to manage. */
  lemma NothingToManage(host: Host, files: Files, b: Backend)
    requires Detects(host, files, b)
    requires !Listable(host, ["sys", "devices", "system", "cpu", "cpufreq"]) || forall q :: !Describes(host, files, q)
    ensures b == Unsupported
  {
    var r: Result<seq<CpuPolicy>, PowerError> :| Discovers(host, files, r) && b == Choose(FoundPolicies(r));
    if r.Success? && r.value != [] {
      assert r.value[0] in r.value;
    }
  }
}
