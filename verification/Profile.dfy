/** The five power profiles and their kernel spellings. */
module Profile {
  import opened Wrappers
  import opened Errors

  datatype PowerProfile = Default | Performance | BalancePerformance | BalancePower | Power

  const ALL_PROFILES: seq<PowerProfile> := [Default, Performance, BalancePerformance, BalancePower, Power]

  function AsKernelStr(p: PowerProfile): string {
    match p
    case Default => "default"
    case Performance => "performance"
    case BalancePerformance => "balance_performance"
    case BalancePower => "balance_power"
    case Power => "power"
  }

  function FromStr(s: string): Result<PowerProfile, PowerError> {
    if s == "default" then Success(Default)
    else if s == "performance" then Success(Performance)
    else if s == "balance_performance" then Success(BalancePerformance)
    else if s == "balance_power" then Success(BalancePower)
    else if s == "power" then Success(Power)
    else Failure(InvalidProfile(s))
  }

  /** Parsing inverts printing, and rejects, by name, everything that printing does not produce. */
  lemma ParseInvertsPrint(s: string, p: PowerProfile)
    ensures FromStr(s) == Success(p) <==> s == AsKernelStr(p)
    ensures FromStr(s) == Failure(InvalidProfile(s)) <==> forall q :: s != AsKernelStr(q)
  {
    assert |"default"| == 7 && |"performance"| == 11 && |"balance_performance"| == 19;
    assert |"balance_power"| == 13 && |"power"| == 5;
    if FromStr(s).Success? {
      assert s == AsKernelStr(FromStr(s).value);
    }
  }
}
