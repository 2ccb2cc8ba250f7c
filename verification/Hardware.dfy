/** The power HAL told in file names and file texts alone. */
module Hardware {
  import opened Wrappers
  import opened Text
  import opened Profile
  import opened Sysfs
  import opened Errors
  import opened Topology
  import opened Backend

  // ---------- detection ----------

  /** A backend comes from the lowest-numbered policy's files: its preference file makes it EPP, failing that a
      list with at least one governor makes it the fallback, and it captures every policy there is. */
  lemma DetectionFromFiles(host: Host, files: Files, b: Backend, p: CpuPolicy)
    requires Detects(host, files, b)
    requires Listable(host, ["sys", "devices", "system", "cpu", "cpufreq"])
    requires IsLowest(host, files, p)
    ensures b.Epp? <==> Exists(host, files, p.path + ["energy_performance_preference"])
    ensures b.Governor? <==>
              && !Exists(host, files, p.path + ["energy_performance_preference"])
              && p.path + ["scaling_available_governors"] in files
              && !Blank(files[p.path + ["scaling_available_governors"]])
    ensures !b.Unsupported? ==> b.policies != [] && b.policies[0] == p && IsDiscovery(host, files, b.policies)
    ensures b.Epp? ==>
              var driver := Read(files, p.path + ["scaling_driver"]);
              && (b.vendor == Intel <==> driver.Some? && Mentions(driver.value, "intel"))
              && (b.vendor == Amd <==> driver.Some? && Mentions(driver.value, "amd") && b.vendor != Intel)
  {
    var r: Result<seq<CpuPolicy>, PowerError> :| Discovers(host, files, r) && b == Choose(FoundPolicies(r));
    LowestIsFirst(host, files, r.value, p);
    ListHasTokens(files, p.path + ["scaling_available_governors"]);
    VendorFromDriver(p.scalingDriver);
    assert !Mentions("", "intel") && !Mentions("", "amd");
  }

  lemma LowestIsFirst(host: Host, files: Files, policies: seq<CpuPolicy>, p: CpuPolicy)
    requires IsDiscovery(host, files, policies) && IsLowest(host, files, p)
    ensures policies != [] && policies[0] == p
  {
    assert p in policies;
    var i :| 0 <= i < |policies| && policies[i] == p;
    if i > 0 {
      assert policies[0] in policies;
      assert ComesBefore(policies[0], policies[i]);
      ComesBeforeAsymmetric(policies[0], policies[i]);
    }
  }

  lemma ListHasTokens(files: Files, p: Path)
    ensures TokensOf(Read(files, p)) != [] <==> p in files && !Blank(files[p])
  {
    if p in files {
      var text := TrimEndNewlines(files[p]);
      SplitsToNothing(text);
      assert Blank(text) <==> Blank(files[p]) by {
        assert forall i :: 0 <= i < |text| ==> text[i] == files[p][i];
      }
    }
  }

  /** A vendor is inferred exactly from its name standing anywhere in the driver's, however capitalised; a name
      that mentions both counts as Intel. */
  lemma VendorFromDriver(driver: string)
    ensures InferVendor(driver) == Intel <==> Mentions(driver, "intel")
    ensures InferVendor(driver) == Amd <==> Mentions(driver, "amd") && !Mentions(driver, "intel")
  {
    LowercaseContains(driver, "intel");
    LowercaseContains(driver, "amd");
  }

  // ---------- applying a profile ----------

  function Policies(b: Backend): seq<CpuPolicy> {
    if b.Unsupported? then [] else b.policies
  }

  /** The file that carries a policy's profile. */
  ghost function ProfileFile(b: Backend, policy: CpuPolicy): Path {
    policy.path + [if b.Epp? then "energy_performance_preference" else "scaling_governor"]
  }

  /** The governor that stands for a profile, given by its kernel text, where these are on offer. */
  ghost predicate RightGovernor(profile: string, offered: seq<string>, governor: string) {
    && governor in offered
    && (if profile == "performance" then governor == "performance"
        else if profile == "power" then governor == "powersave"
        else
          || governor == "schedutil"
          || (governor == "ondemand" && "schedutil" !in offered)
          || (governor == "powersave" && "schedutil" !in offered && "ondemand" !in offered))
  }

  /** The text to write for a profile: its own where an energy preference is kept (and the profile is advertised,
      if anything is), otherwise its governor. */
  ghost predicate RightText(b: Backend, policy: CpuPolicy, profile: string, text: string) {
    if b.Epp? then text == profile && (policy.availableEpp == [] || profile in policy.availableEpp)
    else RightGovernor(profile, policy.availableGovernors, text)
  }

  /** The policy has a text for the profile, and its file accepts it. */
  ghost predicate Takes(b: Backend, host: Host, policy: CpuPolicy, profile: string) {
    exists text :: RightText(b, policy, profile, text) && host.accepts(ProfileFile(b, policy), text)
  }

  ghost predicate Carries(b: Backend, files: Files, policy: CpuPolicy, profile: string) {
    exists text :: RightText(b, policy, profile, text) && TextAt(files, ProfileFile(b, policy)) == Some(text)
  }

  ghost predicate CanApply(b: Backend, host: Host, profile: string) {
    forall policy :: policy in Policies(b) ==> Takes(b, host, policy, profile)
  }

  /** Every policy carries the profile, up to the first that does not take it. */
  ghost predicate InForce(b: Backend, host: Host, files: Files, profile: string) {
    forall i :: 0 <= i < |Policies(b)| && TakenUpTo(b, host, profile, i) ==> Carries(b, files, Policies(b)[i], profile)
  }

  ghost predicate TakenUpTo(b: Backend, host: Host, profile: string, i: nat)
    requires i < |Policies(b)|
  {
    forall j :: 0 <= j <= i ==> Takes(b, host, Policies(b)[j], profile)
  }

  function TextAt(files: Files, p: Path): Option<string> {
    if p in files then Some(files[p]) else None
  }

  /** The planned write for one policy: where it goes, and that it is refused exactly when no text is right. */
  lemma PlannedFor(b: Backend, profile: PowerProfile, i: nat, text: string)
    requires i < |Policies(b)|
    ensures |PlanOf(b, profile)| == |Policies(b)|
    ensures var w := PlanOf(b, profile)[i];
            && w.path == ProfileFile(b, b.policies[i])
            && (RightText(b, b.policies[i], AsKernelStr(profile), text) <==> w.refusal.None? && text == w.value)
  {
    assert |"default"| == 7 && |"performance"| == 11 && |"balance_performance"| == 19;
    assert |"balance_power"| == 13 && |"power"| == 5;
  }

  lemma StepTakes(b: Backend, host: Host, profile: PowerProfile, i: nat)
    requires i < |Policies(b)|
    ensures |PlanOf(b, profile)| == |Policies(b)|
    ensures StepError(host, PlanOf(b, profile)[i]).None? <==> Takes(b, host, b.policies[i], AsKernelStr(profile))
  {
    var w := PlanOf(b, profile)[i];
    forall text
      ensures RightText(b, b.policies[i], AsKernelStr(profile), text) <==> w.refusal.None? && text == w.value
    {
      PlannedFor(b, profile, i, text);
    }
    assert w.refusal.None? ==> RightText(b, b.policies[i], AsKernelStr(profile), w.value);
    assert w.path == ProfileFile(b, b.policies[i]) by { PlannedFor(b, profile, i, w.value); }
  }

  lemma HeldIsCarried(b: Backend, files: Files, profile: PowerProfile, i: nat)
    requires i < |Policies(b)|
    ensures |PlanOf(b, profile)| == |Policies(b)|
    ensures var w := PlanOf(b, profile)[i];
            w.refusal.None? && TextAt(files, w.path) == Some(w.value) ==>
              Carries(b, files, b.policies[i], AsKernelStr(profile))
  {
    var w := PlanOf(b, profile)[i];
    PlannedFor(b, profile, i, w.value);
  }

  /** What is left after the writes before the first failing one is a profile in force. */
  lemma HeldIsInForce(b: Backend, host: Host, files: Files, profile: PowerProfile)
    requires var plan := PlanOf(b, profile); Holds(files, plan[..FirstFailure(host, plan)])
    ensures InForce(b, host, files, AsKernelStr(profile))
  {
    var plan := PlanOf(b, profile);
    var k := FirstFailure(host, plan);
    forall i | 0 <= i < |Policies(b)| && TakenUpTo(b, host, AsKernelStr(profile), i)
      ensures Carries(b, files, Policies(b)[i], AsKernelStr(profile))
    {
      HeldIsCarried(b, files, profile, i);
      if k <= i {
        StepTakes(b, host, profile, k);
        assert false;
      }
      assert plan[..k][i] == plan[i];
    }
  }

  /** A profile can be applied exactly when every policy takes it. */
  lemma CanApplyExactly(b: Backend, host: Host, profile: PowerProfile)
    ensures PlanOutcome(host, PlanOf(b, profile)).Success? <==> CanApply(b, host, AsKernelStr(profile))
  {
    forall i | 0 <= i < |Policies(b)|
      ensures StepError(host, PlanOf(b, profile)[i]).None? <==> Takes(b, host, b.policies[i], AsKernelStr(profile))
    {
      StepTakes(b, host, profile, i);
    }
    forall policy | policy in Policies(b)
      ensures PlanOutcome(host, PlanOf(b, profile)).Success? ==> Takes(b, host, policy, AsKernelStr(profile))
    {
      var i :| 0 <= i < |Policies(b)| && b.policies[i] == policy;
    }
  }

  /** `apply` from outside: the policies before the first that does not take the profile carry it afterwards, no
      other file has changed, and success means that there is no such policy. */
  lemma ApplyExactly(b: Backend, host: Host, files: Files, profile: PowerProfile) returns (k: nat)
    requires WellFormed(b)
    ensures k <= |Policies(b)|
    ensures forall i :: 0 <= i < k ==> Takes(b, host, Policies(b)[i], AsKernelStr(profile))
    ensures k < |Policies(b)| ==> !Takes(b, host, Policies(b)[k], AsKernelStr(profile))
    ensures var (after, r) := Applied(b, host, files, profile);
            && (r.Success? <==> k == |Policies(b)|)
            && (forall i :: 0 <= i < k ==> Carries(b, after, Policies(b)[i], AsKernelStr(profile)))
            && (forall p :: (forall i :: 0 <= i < k ==> p != ProfileFile(b, Policies(b)[i])) ==>
                  SameAt(files, after, p))
  {
    var plan, policies := PlanOf(b, profile), Policies(b);
    var after := Applied(b, host, files, profile).0;
    k := FirstFailure(host, plan);
    PlanUnambiguous(b, profile);
    ApplyIsPrefix(host, files, plan);
    assert |plan| == |policies|;
    if k < |policies| { StepTakes(b, host, profile, k); }
    forall i | 0 <= i < k
      ensures Takes(b, host, policies[i], AsKernelStr(profile)) && Carries(b, after, policies[i], AsKernelStr(profile))
    {
      StepTakes(b, host, profile, i);
      assert plan[..k][i] == plan[i];
      HeldIsCarried(b, after, profile, i);
    }
    forall p | forall i :: 0 <= i < k ==> p != ProfileFile(b, policies[i]) ensures SameAt(files, after, p) {
      forall i | 0 <= i < k ensures plan[..k][i].path != p {
        assert plan[..k][i] == plan[i];
        PlannedFor(b, profile, i, plan[i].value);
      }
    }
  }

  /** A failed `apply` names the first policy that does not take the profile: its number, the profile and what it
      offers if no text is right for it, or else the file that would not accept that text. */
  lemma ErrorNamesCulprit(b: Backend, host: Host, files: Files, profile: PowerProfile) returns (k: nat)
    requires Applied(b, host, files, profile).1.Failure?
    ensures k < |Policies(b)|
    ensures forall i :: 0 <= i < k ==> Takes(b, host, b.policies[i], AsKernelStr(profile))
    ensures !Takes(b, host, b.policies[k], AsKernelStr(profile))
    ensures Applied(b, host, files, profile).1.error
         == if exists text :: RightText(b, b.policies[k], AsKernelStr(profile), text)
            then Io(ProfileFile(b, b.policies[k]))
            else UnsupportedProfile(b.policies[k].id, AsKernelStr(profile),
                                    if b.Epp? then b.policies[k].availableEpp else b.policies[k].availableGovernors)
  {
    var plan := PlanOf(b, profile);
    k := FirstFailure(host, plan);
    StepTakes(b, host, profile, k);
    forall i | 0 <= i < k ensures Takes(b, host, b.policies[i], AsKernelStr(profile)) {
      StepTakes(b, host, profile, i);
    }
    assert plan[k].refusal.None? ==> RightText(b, b.policies[k], AsKernelStr(profile), plan[k].value) by {
      PlannedFor(b, profile, k, plan[k].value);
    }
    forall text
      ensures plan[k].refusal.Some? ==> !RightText(b, b.policies[k], AsKernelStr(profile), text)
    {
      PlannedFor(b, profile, k, text);
    }
    assert plan[k].path == ProfileFile(b, b.policies[k]) by { PlannedFor(b, profile, k, plan[k].value); }
    assert plan[k] == if b.Epp? then EppWrite(b.policies[k], profile) else GovernorWrite(b.policies[k], profile);
  }

  /** The two extreme profiles have a governor of their own, refused exactly where it is not on offer; where both
      succeed every policy ends with "performance" after the one and "powersave" after the other. */
  lemma ExtremeGovernors(policies: seq<CpuPolicy>, host: Host, files: Files, i: nat)
    requires DistinctPaths(policies) && i < |policies|
    ensures GovernorWrite(policies[i], Performance).refusal.None? <==> "performance" in policies[i].availableGovernors
    ensures GovernorWrite(policies[i], Power).refusal.None? <==> "powersave" in policies[i].availableGovernors
    ensures var p := policies[i].path + ["scaling_governor"];
            var (fast, f) := Applied(Governor(policies), host, files, Performance);
            var (slow, s) := Applied(Governor(policies), host, files, Power);
            && (f.Success? ==> TextAt(fast, p) == Some("performance"))
            && (s.Success? ==> TextAt(slow, p) == Some("powersave"))
  {
    PartialApply(Governor(policies), host, files, Performance, i);
    PartialApply(Governor(policies), host, files, Power, i);
  }

  // ---------- reading the profile back ----------

  /** Only EPP reads a profile back, from the file of the first policy: none for a text that is no profile's. */
  lemma CurrentExactly(b: Backend, files: Files, profile: PowerProfile)
    ensures !b.Epp? || b.policies == [] ==> Current(b, files) == Success(None)
    ensures b.Epp? && b.policies != [] ==>
              var p := b.policies[0].path + ["energy_performance_preference"];
              match Read(files, p)
              case None => Current(b, files) == Failure(Io(p))
              case Some(text) =>
                && Current(b, files).Success?
                && (Current(b, files).value == Some(profile) <==> text == AsKernelStr(profile))
                && (Current(b, files).value == None <==> forall q :: text != AsKernelStr(q))
  {
    if b.Epp? && b.policies != [] {
      var text := Read(files, EppPath(b.policies[0]));
      if text.Some? {
        forall q { ParseInvertsPrint(text.value, q); }
      }
    }
  }

  // ---------- turbo ----------

  ghost function CpuFile(driver: string, name: string): Path {
    ["sys", "devices", "system", "cpu", driver, name]
  }

  /** One write: made at this file alone if the file accepts it, and an error naming the file otherwise. */
  ghost predicate WritesOnly(host: Host, files: Files, p: Path, text: string, after: Files, r: Outcome) {
    if host.accepts(p, text) then r == Success(()) && after == files[p := text]
    else r == Failure(Io(p)) && after == files
  }

  /** `set_turbo` from outside. Intel inverts; AMD prefers the driver's own switch where there is one. */
  lemma TurboSetExactly(b: Backend, host: Host, files: Files, enabled: bool)
    ensures var (after, r) := TurboSet(b, host, files, enabled);
            match b
            case Epp(_, Intel) =>
              WritesOnly(host, files, CpuFile("intel_pstate", "no_turbo"), if enabled then "0" else "1", after, r)
            case Epp(_, Amd) =>
              var own := CpuFile("amd_pstate", "boost");
              var p := if Exists(host, files, own) then own else CpuFile("cpufreq", "boost");
              WritesOnly(host, files, p, if enabled then "1" else "0", after, r)
            case Unsupported => after == files && r == Success(())
            case _ => after == files && r == Failure(TurboUnsupported)
  {
  }

  /** The vendor's turbo switch accepts this setting. */
  ghost predicate CanSetTurbo(vendor: Vendor, host: Host, boostPresent: bool, enabled: bool) {
    match vendor
    case Intel => host.accepts(CpuFile("intel_pstate", "no_turbo"), if enabled then "0" else "1")
    case Amd =>
      host.accepts(CpuFile(if boostPresent then "amd_pstate" else "cpufreq", "boost"), if enabled then "1" else "0")
    case UnknownVendor => false
  }

  lemma TurboOutcomeExactly(b: Backend, host: Host, boostPresent: bool, enabled: bool)
    ensures var r := TurboOutcome(b, host, boostPresent, enabled);
            && (r.Success? <==> b.Unsupported? || (b.Epp? && CanSetTurbo(b.vendor, host, boostPresent, enabled)))
            && (r == Failure(TurboUnsupported) <==> b.Governor? || (b.Epp? && b.vendor == UnknownVendor))
  {
  }
}
