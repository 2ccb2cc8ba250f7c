/** Two hosts small enough to write down, with the backend that detection builds on each. */
module SmallHosts {
  import opened Wrappers
  import opened Text
  import opened Sysfs
  import opened Errors
  import opened Topology
  import opened Backend

  /** A host without cpufreq. */
  function BareHost(accepts: (Path, string) -> bool): Host {
    Host({}, {}, accepts)
  }

  lemma BareHostDetected(accepts: (Path, string) -> bool)
    ensures Detects(BareHost(accepts), map[], Unsupported)
  {
    assert Discovers(BareHost(accepts), map[], Success([]));
  }

  const ENTRY: Path := CPUFREQ_ROOT + [PolicyName(0)]

  /** A host whose only policy offers a single governor and no energy preference. */
  function GovernorHost(accepts: (Path, string) -> bool): Host {
    Host({CPUFREQ_ROOT, ENTRY}, {}, accepts)
  }

  function GovernorFiles(): Files {
    map[ENTRY + ["scaling_available_governors"] := "powersave"]
  }

  function GovernorHostPolicy(accepts: (Path, string) -> bool): CpuPolicy {
    PolicyAt(GovernorHost(accepts), GovernorFiles(), ENTRY, 0)
  }

  lemma GovernorHostOffers(accepts: (Path, string) -> bool)
    ensures !GovernorHostPolicy(accepts).hasEpp
    ensures GovernorHostPolicy(accepts).availableGovernors == ["powersave"]
  {
    assert |"energy_performance_preference"| == 29 && |"scaling_available_governors"| == 27;
    var epp, offered := ENTRY + ["energy_performance_preference"], ENTRY + ["scaling_available_governors"];
    assert epp[|ENTRY|] != offered[|ENTRY|];
    assert !Exists(GovernorHost(accepts), GovernorFiles(), epp);
    OneTokenList();
  }

  lemma OneTokenList()
    ensures TokensOf(Some(TrimEndNewlines("powersave"))) == ["powersave"]
  {
    var s := "powersave";
    assert s[8] == 'e';
    assert IsToken(s);
    SplitTakesToken(s, "");
    assert s + "" == s;
  }

  lemma GovernorHostEntries(accepts: (Path, string) -> bool, p: Path)
    ensures IsPolicyEntry(GovernorHost(accepts), GovernorFiles(), p) <==> p == ENTRY
  {
    PolicyNameId(0);
    assert FileName(ENTRY) == PolicyName(0) && IsChild(CPUFREQ_ROOT, ENTRY);
  }

  lemma GovernorHostDetected(accepts: (Path, string) -> bool)
    ensures Detects(GovernorHost(accepts), GovernorFiles(), Governor([GovernorHostPolicy(accepts)]))
  {
    var host, files, policy := GovernorHost(accepts), GovernorFiles(), GovernorHostPolicy(accepts);
    PolicyNameId(0);
    GovernorHostOffers(accepts);
    forall q ensures Describes(host, files, q) <==> q == policy {
      GovernorHostEntries(accepts, q.path);
    }
    var found: Result<seq<CpuPolicy>, PowerError> := Success([policy]);
    assert Discovers(host, files, found);
    assert Choose(FoundPolicies(found)) == Governor([policy]);
  }
}
