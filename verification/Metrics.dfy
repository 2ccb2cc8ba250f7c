/** The gauges and counters that describe the agent's reconciles. */
module Metrics {
  import opened Profile
  import opened Backend
  import opened Reconcile
  import opened Status

  const ALL_KINDS: seq<BackendKind> := [IntelEpp, AmdEpp, UnknownEpp, GovernorFallback, UnsupportedKind]

  ghost const RESULTS: seq<string> := ["error", "invalid_label", "unsupported", "ok"]

  /** Gauge vectors hold one value for each label seen; an absent counter stands at zero. */
  datatype Values = Values(
    profileApplied: map<string, int>,
    backendKind: map<string, int>,
    turboEnabled: int,
    turboManaged: int,
    reconcileTotal: map<string, nat>)

  const INITIAL := Values(map[], map[], 0, 0, map[])

  function Total(v: Values, result: string): nat {
    if result in v.reconcileTotal then v.reconcileTotal[result] else 0
  }

  /** Exactly the gauges in `names` exist, and the one called `active` alone is 1. */
  ghost predicate OneHot(gauges: map<string, int>, names: set<string>, active: string) {
    gauges.Keys == names && active in names && forall n :: n in names ==> gauges[n] == if n == active then 1 else 0
  }

  ghost function Names<T>(all: seq<T>, name: T -> string): set<string> {
    set t | t in all :: name(t)
  }

  ghost predicate Injective<T>(all: seq<T>, name: T -> string) {
    forall t, u :: t in all && u in all && name(t) == name(u) ==> t == u
  }

  ghost function ProfileNames(): set<string> {
    Names(ALL_PROFILES, AsKernelStr)
  }

  ghost function KindNames(): set<string> {
    Names(ALL_KINDS, KindName)
  }

  /** The values left by observing a report, given those before it. */
  ghost predicate Observed(before: Values, r: Report, after: Values) {
    && (before.profileApplied.Keys <= ProfileNames() ==>
          OneHot(after.profileApplied, ProfileNames(), AsKernelStr(r.profile)))
    && (before.backendKind.Keys <= KindNames() ==> OneHot(after.backendKind, KindNames(), KindName(r.kind)))
    && after.turboManaged == (if r.turbo.Some? then 1 else 0)
    && after.turboEnabled == (match r.turbo case Some(e) => if e then 1 else 0 case None => before.turboEnabled)
    && after.reconcileTotal == before.reconcileTotal[ResultLabel(r) := Total(before, ResultLabel(r)) + 1]
  }

  class Metrics {
    var values: Values
    var lastReconcileTimestamp: int

    constructor ()
      ensures values == INITIAL && lastReconcileTimestamp == 0
    {
      values, lastReconcileTimestamp := INITIAL, 0;
    }

    method Observe(report: Report, now: int)
      modifies this
      ensures Observed(old(values), report, values)
      ensures lastReconcileTimestamp == now
    {
      var profiles := SetProfileGauges(values.profileApplied, report.profile);
      var kinds := SetKindGauges(values.backendKind, report.kind);
      values := values.(profileApplied := profiles, backendKind := kinds);
      match report.turbo {
        case Some(enabled) => values := values.(turboManaged := 1, turboEnabled := if enabled then 1 else 0);
        case None => values := values.(turboManaged := 0);
      }
      var result := ResultLabel(report);
      values := values.(reconcileTotal := values.reconcileTotal[result := Total(values, result) + 1]);
      lastReconcileTimestamp := now;
    }
  }

  /** Sets one gauge for each possible value: 1 for the active one, 0 for the others. */
  method SetOneHot<T(==)>(gauges: map<string, int>, all: seq<T>, name: T -> string, active: T)
      returns (r: map<string, int>)
    requires active in all
    requires Injective(all, name)
    ensures gauges.Keys <= Names(all, name) ==> OneHot(r, Names(all, name), name(active))
    ensures forall n :: n !in Names(all, name) ==> (n in r <==> n in gauges) && (n in r ==> r[n] == gauges[n])
  {
    r := gauges;
    for i := 0 to |all|
      invariant r.Keys == gauges.Keys + Names(all[..i], name)
      invariant forall t :: t in all[..i] ==> r[name(t)] == if t == active then 1 else 0
      invariant forall n :: n in r && n !in Names(all[..i], name) ==> r[n] == gauges[n]
    {
      var t := all[i];
      assert all[..i + 1] == all[..i] + [t];
      assert Names(all[..i + 1], name) == Names(all[..i], name) + {name(t)};
      r := r[name(t) := if t == active then 1 else 0];
    }
    assert all[..|all|] == all;
  }

  method SetProfileGauges(gauges: map<string, int>, active: PowerProfile) returns (r: map<string, int>)
    ensures gauges.Keys <= ProfileNames() ==> OneHot(r, ProfileNames(), AsKernelStr(active))
  {
    ProfileNamesDiffer(active);
    r := SetOneHot(gauges, ALL_PROFILES, AsKernelStr, active);
  }

  method SetKindGauges(gauges: map<string, int>, active: BackendKind) returns (r: map<string, int>)
    ensures gauges.Keys <= KindNames() ==> OneHot(r, KindNames(), KindName(active))
  {
    KindNamesDiffer(active);
    r := SetOneHot(gauges, ALL_KINDS, KindName, active);
  }

  lemma ProfileNamesDiffer(p: PowerProfile)
    ensures p in ALL_PROFILES
    ensures Injective(ALL_PROFILES, AsKernelStr)
  {
    assert ALL_PROFILES[0] == Default && ALL_PROFILES[1] == Performance && ALL_PROFILES[2] == BalancePerformance
        && ALL_PROFILES[3] == BalancePower && ALL_PROFILES[4] == Power;
    forall q, r | AsKernelStr(q) == AsKernelStr(r) ensures q == r {
      ParseInvertsPrint(AsKernelStr(q), q);
      ParseInvertsPrint(AsKernelStr(q), r);
    }
  }

  lemma KindNamesDiffer(k: BackendKind)
    ensures k in ALL_KINDS
    ensures Injective(ALL_KINDS, KindName)
  {
    assert ALL_KINDS[0] == IntelEpp && ALL_KINDS[1] == AmdEpp && ALL_KINDS[2] == UnknownEpp
        && ALL_KINDS[3] == GovernorFallback && ALL_KINDS[4] == UnsupportedKind;
    assert |"intel_epp"| == 9 && |"amd_epp"| == 7 && |"governor_fallback"| == 17;
    assert |"unknown_epp"| == 11 && |"unsupported"| == 11 && "unknown_epp"[2] != "unsupported"[2];
  }

  // ---------- whole runs ----------

  /** `trace` is the metric values before, between and after observing the reports. */
  ghost predicate IsTrace(trace: seq<Values>, reports: seq<Report>) {
    && |trace| == |reports| + 1 && trace[0] == INITIAL
    && forall i :: 0 <= i < |reports| ==> Observed(trace[i], reports[i], trace[i + 1])
  }

  function Count(reports: seq<Report>, result: string): nat {
    if reports == [] then 0
    else Count(reports[..|reports| - 1], result) + if ResultLabel(reports[|reports| - 1]) == result then 1 else 0
  }

  ghost function LastManagedTurbo(reports: seq<Report>): int {
    if reports == [] then 0
    else
      match reports[|reports| - 1].turbo
      case Some(e) => if e then 1 else 0
      case None => LastManagedTurbo(reports[..|reports| - 1])
  }

  ghost predicate Conserved(v: Values, reports: seq<Report>) {
    && (forall result :: Total(v, result) == Count(reports, result))
    && v.turboEnabled == LastManagedTurbo(reports)
    && (if reports == [] then v == INITIAL
        else
          var last := reports[|reports| - 1];
          && OneHot(v.profileApplied, ProfileNames(), AsKernelStr(last.profile))
          && OneHot(v.backendKind, KindNames(), KindName(last.kind))
          && v.turboManaged == if last.turbo.Some? then 1 else 0)
  }

  lemma ConservedStep(before: Values, reports: seq<Report>, r: Report, after: Values)
    requires Conserved(before, reports) && Observed(before, r, after)
    ensures Conserved(after, reports + [r])
  {
    var all := reports + [r];
    assert all[..|all| - 1] == reports;
    forall result ensures Total(after, result) == Count(all, result) {
      assert Total(before, result) == Count(reports, result);
    }
  }

  /** After any run: one profile gauge and one backend gauge are 1 and match the last report, each
      counter is the number of reports with its result, and turbo shows the last managed value. */
  lemma {:induction false} MetricsConserved(trace: seq<Values>, reports: seq<Report>)
    requires IsTrace(trace, reports)
    ensures Conserved(trace[|reports|], reports)
  {
    if reports == [] {
    } else {
      var n := |reports| - 1;
      MetricsConserved(trace[..n + 1], reports[..n]);
      ConservedStep(trace[n], reports[..n], reports[n], trace[n + 1]);
      assert reports[..n] + [reports[n]] == reports;
    }
  }

  /** The counters add up to the number of reconciles. */
  lemma {:induction false} CountersAddUp(reports: seq<Report>)
    ensures Count(reports, RESULTS[0]) + Count(reports, RESULTS[1]) + Count(reports, RESULTS[2])
          + Count(reports, RESULTS[3]) == |reports|
  {
    assert |"error"| == 5 && |"invalid_label"| == 13 && |"unsupported"| == 11 && |"ok"| == 2;
    if reports == [] {
    } else {
      CountersAddUp(reports[..|reports| - 1]);
    }
  }
}
