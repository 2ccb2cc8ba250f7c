/** The backend objects, working on a rooted sysfs. */
module PowerBackends {
  import opened Wrappers
  import opened Profile
  import opened Sysfs
  import opened Errors
  import opened Topology
  import opened Backend

  /** Handles Intel and AMD through the same preference file; only turbo depends on the vendor. */
  class EppBackend {
    const io: RootedSysfs
    const policies: seq<CpuPolicy>
    const vendor: Vendor

    constructor (io: RootedSysfs, policies: seq<CpuPolicy>, vendor: Vendor)
      ensures this.io == io && Model() == Epp(policies, vendor)
    {
      this.io, this.policies, this.vendor := io, policies, vendor;
    }

    function Model(): Backend {
      Epp(policies, vendor)
    }

    method Apply(profile: PowerProfile) returns (r: Outcome)
      modifies io.disk
      ensures (io.View(), r) == Applied(Model(), io.HostView(), old(io.View()), profile)
      ensures io.Outside() == old(io.Outside())
    {
      ghost var host, plan := io.HostView(), PlanOf(Model(), profile);
      var value := AsKernelStr(profile);
      for i := 0 to |policies|
        invariant io.View() == Overlay(old(io.View()), plan[..i])
        invariant i <= FirstFailure(host, plan)
        invariant io.Outside() == old(io.Outside())
      {
        var policy := policies[i];
        PlanStep(host, old(io.View()), plan, i);
        assert plan[i] == EppWrite(policy, profile);
        if policy.availableEpp != [] && value !in policy.availableEpp {
          return Failure(UnsupportedProfile(policy.id, value, policy.availableEpp));
        }
        var path := EppPath(policy);
        var ok := io.Write(path, value);
        if !ok {
          return Failure(Io(path));
        }
      }
      r := Success(());
    }

    method ReadCurrent() returns (r: Result<Option<PowerProfile>, PowerError>)
      ensures r == Current(Model(), io.View())
    {
      if |policies| == 0 {
        return Success(None);
      }
      var path := EppPath(policies[0]);
      var raw := io.ReadToString(path);
      if raw.None? {
        return Failure(Io(path));
      }
      r := Success(KnownProfile(raw.value));
    }

    method SetTurbo(enabled: bool) returns (r: Outcome)
      modifies io.disk
      ensures (io.View(), r) == TurboSet(Model(), io.HostView(), old(io.View()), enabled)
      ensures io.Outside() == old(io.Outside())
    {
      var path: Path;
      var value: string;
      match vendor {
        case Intel =>
          path, value := INTEL_NO_TURBO, if enabled then "0" else "1";
        case Amd =>
          var preferred := io.PathExists(AMD_PSTATE_BOOST);
          path := if preferred then AMD_PSTATE_BOOST else CPUFREQ_BOOST;
          value := if enabled then "1" else "0";
        case UnknownVendor =>
          return Failure(TurboUnsupported);
      }
      var ok := io.Write(path, value);
      r := if ok then Success(()) else Failure(Io(path));
    }
  }

  /** Drives `scaling_governor` where the driver has no energy preference. */
  class GovernorFallbackBackend {
    const io: RootedSysfs
    const policies: seq<CpuPolicy>
    var warnedCollapse: bool

    constructor (io: RootedSysfs, policies: seq<CpuPolicy>)
      ensures this.io == io && Model() == Governor(policies) && !warnedCollapse
    {
      this.io, this.policies, this.warnedCollapse := io, policies, false;
    }

    function Model(): Backend {
      Governor(policies)
    }

    /** `warned` tells whether this call logs that the middle profiles share a governor: only the first one does. */
    method Apply(profile: PowerProfile) returns (r: Outcome, warned: bool)
      modifies io.disk, this
      ensures (io.View(), r) == Applied(Model(), io.HostView(), old(io.View()), profile)
      ensures io.Outside() == old(io.Outside())
      ensures warnedCollapse == (old(warnedCollapse) || (profile != Performance && profile != Power))
      ensures warned == (warnedCollapse && !old(warnedCollapse))
    {
      warned := false;
      if IsMiddle(profile) {
        warned, warnedCollapse := !warnedCollapse, true;
      }
      r := WriteGovernors(profile);
    }

    method WriteGovernors(profile: PowerProfile) returns (r: Outcome)
      modifies io.disk
      ensures (io.View(), r) == Applied(Model(), io.HostView(), old(io.View()), profile)
      ensures io.Outside() == old(io.Outside())
    {
      ghost var host, plan := io.HostView(), PlanOf(Model(), profile);
      for i := 0 to |policies|
        invariant io.View() == Overlay(old(io.View()), plan[..i])
        invariant i <= FirstFailure(host, plan)
        invariant io.Outside() == old(io.Outside())
      {
        var policy := policies[i];
        PlanStep(host, old(io.View()), plan, i);
        assert plan[i] == GovernorWrite(policy, profile);
        var governor := MapGovernor(profile, policy.availableGovernors);
        if governor !in policy.availableGovernors {
          return Failure(UnsupportedProfile(policy.id, AsKernelStr(profile), policy.availableGovernors));
        }
        var path := GovernorPath(policy);
        var ok := io.Write(path, governor);
        if !ok {
          return Failure(Io(path));
        }
      }
      r := Success(());
    }
  }

  /** One more write of a plan: what it does to the files, and when it is the first to fail. */
  lemma PlanStep(host: Host, files: Files, plan: Plan, i: nat)
    requires i < |plan| && i <= FirstFailure(host, plan)
    ensures Overlay(files, plan[..i + 1]) == Overlay(files, plan[..i])[plan[i].path := plan[i].value]
    ensures i == FirstFailure(host, plan) <==> StepError(host, plan[i]).Some?
  {
    assert plan[..i + 1][..i] == plan[..i];
  }

  /** A backend object of any kind. */
  datatype PowerBackend =
    | EppImpl(epp: EppBackend)
    | GovernorImpl(governor: GovernorFallbackBackend)
    | UnsupportedImpl
  {
    function Model(): Backend {
      match this
      case EppImpl(e) => e.Model()
      case GovernorImpl(g) => g.Model()
      case UnsupportedImpl => Unsupported
    }

    ghost predicate WorksOn(io: RootedSysfs) {
      match this
      case EppImpl(e) => e.io == io
      case GovernorImpl(g) => g.io == io
      case UnsupportedImpl => true
    }

    /** The backend's own mutable state. */
    ghost function Own(): set<object> {
      if GovernorImpl? then {governor} else {}
    }

    function Kind(): BackendKind {
      Model().Kind()
    }

    method Apply(profile: PowerProfile, ghost io: RootedSysfs) returns (r: Outcome)
      requires WorksOn(io)
      modifies io.disk, Own()
      ensures (io.View(), r) == Applied(Model(), io.HostView(), old(io.View()), profile)
      ensures io.Outside() == old(io.Outside())
    {
      match this
      case EppImpl(e) => r := e.Apply(profile);
      case GovernorImpl(g) => var warned; r, warned := g.Apply(profile);
      case UnsupportedImpl => r := Success(());
    }

    method ReadCurrent(ghost io: RootedSysfs) returns (r: Result<Option<PowerProfile>, PowerError>)
      requires WorksOn(io)
      ensures r == Current(Model(), io.View())
    {
      match this
      case EppImpl(e) => r := e.ReadCurrent();
      case _ => r := Success(None);
    }

    method SetTurbo(enabled: bool, ghost io: RootedSysfs) returns (r: Outcome)
      requires WorksOn(io)
      modifies io.disk
      ensures (io.View(), r) == TurboSet(Model(), io.HostView(), old(io.View()), enabled)
      ensures io.Outside() == old(io.Outside())
    {
      match this
      case EppImpl(e) => r := e.SetTurbo(enabled);
      case GovernorImpl(_) => r := Failure(TurboUnsupported);
      case UnsupportedImpl => r := Success(());
    }
  }

  /** Never fails: in the worst case the backend that does nothing. */
  method DetectBackend(io: RootedSysfs) returns (b: PowerBackend)
    ensures Detects(io.HostView(), io.View(), b.Model())
    ensures b.WorksOn(io)
    ensures fresh(b.Own())
  {
    var r := DiscoverPolicies(io);
    var policies := FoundPolicies(r);
    if |policies| == 0 {
      return UnsupportedImpl;
    }
    var first := policies[0];
    if first.hasEpp {
      var epp := new EppBackend(io, policies, InferVendor(first.scalingDriver));
      return EppImpl(epp);
    }
    if first.availableGovernors != [] {
      var governor := new GovernorFallbackBackend(io, policies);
      return GovernorImpl(governor);
    }
    b := UnsupportedImpl;
  }
}
