/** Enumeration of the cpufreq policies in sysfs. */
module Topology {
  import opened Wrappers
  import opened Text
  import opened Ordering
  import opened Sysfs
  import opened Errors

  const CPUFREQ_ROOT: Path := ["sys", "devices", "system", "cpu", "cpufreq"]

  datatype CpuPolicy = CpuPolicy(
    id: nat,
    path: Path,
    relatedCpus: seq<nat>,
    scalingDriver: string,
    hasEpp: bool,
    availableEpp: seq<string>,
    availableGovernors: seq<string>)

  /** The number in a directory name made of "policy" and a 32-bit unsigned number. */
  function PolicyId(name: string): Option<nat> {
    if "policy" <= name then ParseU32(name[|"policy"|..]) else None
  }

  function FileName(p: Path): string
    requires p != []
  {
    p[|p| - 1]
  }

  /** The numbers in a whitespace-separated list; other tokens are dropped. */
  function ParseCpuList(tokens: seq<string>): seq<nat> {
    if tokens == [] then []
    else
      var rest := ParseCpuList(tokens[1..]);
      match ParseU32(tokens[0])
      case Some(n) => [n] + rest
      case None => rest
  }

  function TokensOf(text: Option<string>): seq<string> {
    if text.Some? then SplitWhitespace(text.value) else []
  }

  /** What sysfs says about the policy whose directory is `entry`. */
  function PolicyAt(host: Host, files: Files, entry: Path, id: nat): CpuPolicy {
    var driver := Read(files, entry + ["scaling_driver"]);
    var hasEpp := Exists(host, files, entry + ["energy_performance_preference"]);
    CpuPolicy(
      id,
      entry,
      ParseCpuList(TokensOf(Read(files, entry + ["related_cpus"]))),
      if driver.Some? then driver.value else "",
      hasEpp,
      if hasEpp then TokensOf(Read(files, entry + ["energy_performance_available_preferences"])) else [],
      TokensOf(Read(files, entry + ["scaling_available_governors"])))
  }

  ghost predicate IsPolicyEntry(host: Host, files: Files, p: Path) {
    IsChild(CPUFREQ_ROOT, p) && Exists(host, files, p) && PolicyId(FileName(p)).Some?
  }

  ghost predicate PathBefore(a: CpuPolicy, b: CpuPolicy) {
    PathLe(a.path, b.path) && a.path != b.path
  }

  predicate IdLe(a: CpuPolicy, b: CpuPolicy) {
    a.id <= b.id
  }

  /** Numeric order, with equal numbers (such as policy1 and policy01) in path order. */
  ghost predicate ComesBefore(a: CpuPolicy, b: CpuPolicy) {
    a.id < b.id || (a.id == b.id && PathBefore(a, b))
  }

  ghost predicate Describes(host: Host, files: Files, policy: CpuPolicy) {
    && IsPolicyEntry(host, files, policy.path)
    && policy == PolicyAt(host, files, policy.path, PolicyId(FileName(policy.path)).value)
  }

  /** Every policy directory, described once, in order, and nothing else. */
  ghost predicate IsDiscovery(host: Host, files: Files, policies: seq<CpuPolicy>) {
    && (forall q :: q in policies ==> Describes(host, files, q))
    && (forall q :: Describes(host, files, q) ==> q in policies)
    && (forall i, j :: 0 <= i < j < |policies| ==> ComesBefore(policies[i], policies[j]))
  }

  /** A missing cpufreq directory is an empty topology; one that cannot be listed is an error. */
  ghost predicate Discovers(host: Host, files: Files, r: Result<seq<CpuPolicy>, PowerError>) {
    if !Exists(host, files, CPUFREQ_ROOT) then r == Success([])
    else if !Listable(host, CPUFREQ_ROOT) then r == Failure(Io(CPUFREQ_ROOT))
    else r.Success? && IsDiscovery(host, files, r.value)
  }

  method ReadTokens(io: RootedSysfs, p: Path) returns (tokens: seq<string>)
    ensures tokens == TokensOf(Read(io.View(), p))
  {
    var text := io.ReadToString(p);
    tokens := TokensOf(text);
  }

  method ReadPolicy(io: RootedSysfs, entry: Path, id: nat) returns (policy: CpuPolicy)
    ensures policy == PolicyAt(io.HostView(), io.View(), entry, id)
  {
    var driver := io.ReadToString(entry + ["scaling_driver"]);
    var related := ReadTokens(io, entry + ["related_cpus"]);
    var hasEpp := io.PathExists(entry + ["energy_performance_preference"]);
    var availableEpp := [];
    if hasEpp {
      availableEpp := ReadTokens(io, entry + ["energy_performance_available_preferences"]);
    }
    var governors := ReadTokens(io, entry + ["scaling_available_governors"]);
    policy := CpuPolicy(id, entry, ParseCpuList(related), if driver.Some? then driver.value else "",
                        hasEpp, availableEpp, governors);
  }

  /** The policies found in these entries, in path order. */
  ghost predicate Collected(host: Host, files: Files, entries: seq<Path>, policies: seq<CpuPolicy>) {
    && (forall q :: q in policies <==> Describes(host, files, q) && q.path in entries)
    && (forall j, k :: 0 <= j < k < |policies| ==> PathBefore(policies[j], policies[k]))
  }

  /** The policy in an entry, if its name is a policy's. */
  function PolicyIn(host: Host, files: Files, entry: Path): seq<CpuPolicy>
    requires entry != []
  {
    var id := PolicyId(FileName(entry));
    if id.Some? then [PolicyAt(host, files, entry, id.value)] else []
  }

  lemma DescribedIn(host: Host, files: Files, entry: Path, q: CpuPolicy)
    requires IsChild(CPUFREQ_ROOT, entry) && Exists(host, files, entry)
    ensures q in PolicyIn(host, files, entry) <==> Describes(host, files, q) && q.path == entry
  {
  }

  lemma CollectOne(host: Host, files: Files, entries: seq<Path>, policies: seq<CpuPolicy>, i: nat)
    requires IsListing(host, files, CPUFREQ_ROOT, entries) && i < |entries|
    requires Collected(host, files, entries[..i], policies)
    ensures Collected(host, files, entries[..i + 1], policies + PolicyIn(host, files, entries[i]))
  {
    var more := policies + PolicyIn(host, files, entries[i]);
    assert entries[..i + 1] == entries[..i] + [entries[i]];
    forall q ensures q in more <==> Describes(host, files, q) && q.path in entries[..i + 1] {
      DescribedIn(host, files, entries[i], q);
    }
    CollectedInOrder(entries, policies, PolicyIn(host, files, entries[i]), i);
  }

  lemma CollectedInOrder(entries: seq<Path>, policies: seq<CpuPolicy>, found: seq<CpuPolicy>, i: nat)
    requires i < |entries| && |found| <= 1
    requires forall j :: 0 <= j < i ==> PathLe(entries[j], entries[i]) && entries[j] != entries[i]
    requires forall q :: q in policies ==> q.path in entries[..i]
    requires forall q :: q in found ==> q.path == entries[i]
    requires forall j, k :: 0 <= j < k < |policies| ==> PathBefore(policies[j], policies[k])
    ensures forall j, k :: 0 <= j < k < |policies + found| ==>
              PathBefore((policies + found)[j], (policies + found)[k])
  {
    forall q, f | q in policies && f in found ensures PathBefore(q, f) {
      var k :| 0 <= k < i && entries[k] == q.path;
    }
  }

  method DiscoverPolicies(io: RootedSysfs) returns (r: Result<seq<CpuPolicy>, PowerError>)
    ensures Discovers(io.HostView(), io.View(), r)
  {
    ghost var host, files := io.HostView(), io.View();
    var present := io.PathExists(CPUFREQ_ROOT);
    if !present {
      return Success([]);
    }
    var listing := io.ReadDir(CPUFREQ_ROOT);
    if listing.None? {
      return Failure(Io(CPUFREQ_ROOT));
    }
    var entries := listing.value;
    var policies: seq<CpuPolicy> := [];
    for i := 0 to |entries|
      invariant Collected(host, files, entries[..i], policies)
    {
      var entry := entries[i];
      var id := PolicyId(FileName(entry));
      CollectOne(host, files, entries, policies, i);
      if id.None? {
        assert policies + PolicyIn(host, files, entry) == policies;
        continue;
      }
      var policy := ReadPolicy(io, entry, id.value);
      assert PolicyIn(host, files, entry) == [policy];
      policies := policies + [policy];
    }
    AllCollected(host, files, entries, policies);
    SortedByNumber(policies);
    r := Success(Sort(IdLe, policies));
  }

  lemma AllCollected(host: Host, files: Files, entries: seq<Path>, policies: seq<CpuPolicy>)
    requires IsListing(host, files, CPUFREQ_ROOT, entries)
    requires Collected(host, files, entries[..|entries|], policies)
    ensures Collected(host, files, entries, policies)
    ensures forall q :: q in policies <==> Describes(host, files, q)
  {
    assert entries[..|entries|] == entries;
  }

  // ---------- what a description says, in file names and texts ----------

  /** A policy directory is one in cpufreq whose name is "policy" and a number, and that number is the policy's. */
  lemma PolicyDirectories(host: Host, files: Files, p: Path, n: nat)
    ensures IsPolicyEntry(host, files, p) && PolicyId(FileName(p)) == Some(n)
       <==> && Exists(host, files, p)
            && exists suffix :: p == ["sys", "devices", "system", "cpu", "cpufreq", "policy" + suffix]
                             && ParseU32(suffix) == Some(n)
  {
    if IsPolicyEntry(host, files, p) && PolicyId(FileName(p)) == Some(n) {
      var suffix := FileName(p)[6..];
      assert FileName(p) == "policy" + suffix;
      assert p == CPUFREQ_ROOT + [FileName(p)];
    }
    forall suffix
      ensures "policy" <= "policy" + suffix && ("policy" + suffix)[6..] == suffix
    {
    }
  }

  /** The file's text is these tokens, in some spacing. */
  ghost predicate Lists(files: Files, p: Path, tokens: seq<string>) {
    exists gaps :: Layout(tokens, gaps) && Read(files, p) == Some(Spaced(tokens, gaps))
  }

  /** A list as the kernel prints it, on a line of its own. */
  lemma PrintedLists(files: Files, p: Path, words: seq<string>)
    requires forall w :: w in words ==> IsKernelWord(w)
    requires p in files && files[p] == KernelList(words) + "\n"
    ensures Lists(files, p, words)
  {
    SplitKernelList(words);
    assert files[p][..|files[p]| - 1] == KernelList(words);
    var gaps := SplitCovers(KernelList(words));
  }

  ghost function Decimals(numbers: seq<nat>): seq<string> {
    seq(|numbers|, i requires 0 <= i < |numbers| => Decimal(numbers[i]))
  }

  lemma {:induction false} CpuListOfDecimals(cpus: seq<nat>)
    requires forall i :: 0 <= i < |cpus| ==> cpus[i] <= U32_MAX
    ensures ParseCpuList(Decimals(cpus)) == cpus
  {
    if cpus == [] {
      assert Decimals(cpus) == [];
    } else {
      ParseDecimal(cpus[0]);
      assert Decimals(cpus)[1..] == Decimals(cpus[1..]);
      CpuListOfDecimals(cpus[1..]);
      assert [cpus[0]] + cpus[1..] == cpus;
    }
  }

  /** A token adds its number, or nothing if it is none, at its place in the list. */
  lemma {:induction false} CpuListToken(before: seq<string>, token: string, after: seq<string>)
    ensures ParseCpuList(before + [token] + after)
         == ParseCpuList(before) + (if ParseU32(token).Some? then [ParseU32(token).value] else []) + ParseCpuList(after)
  {
    var all := before + [token] + after;
    if before == [] {
      assert all[1..] == after;
    } else {
      assert all[1..] == before[1..] + [token] + after;
      CpuListToken(before[1..], token, after);
    }
  }

  /** Which file each part of a description comes from, and what it is without that file. */
  lemma DescriptionOf(host: Host, files: Files, q: CpuPolicy, tokens: seq<string>, cpus: seq<nat>)
    requires Describes(host, files, q)
    requires forall i :: 0 <= i < |cpus| ==> cpus[i] <= U32_MAX
    ensures q.hasEpp <==> Exists(host, files, q.path + ["energy_performance_preference"])
    ensures var driver := Read(files, q.path + ["scaling_driver"]);
            q.scalingDriver == if driver.Some? then driver.value else ""
    ensures var governors := q.path + ["scaling_available_governors"];
            && (Lists(files, governors, tokens) ==> q.availableGovernors == tokens)
            && (governors !in files ==> q.availableGovernors == [])
    ensures var preferences := q.path + ["energy_performance_available_preferences"];
            && (q.hasEpp && Lists(files, preferences, tokens) ==> q.availableEpp == tokens)
            && (!q.hasEpp || preferences !in files ==> q.availableEpp == [])
    ensures var related := q.path + ["related_cpus"];
            && (Lists(files, related, Decimals(cpus)) ==> q.relatedCpus == cpus)
            && (related !in files ==> q.relatedCpus == [])
  {
    ListsAreRead(files, q.path + ["scaling_available_governors"], tokens);
    ListsAreRead(files, q.path + ["energy_performance_available_preferences"], tokens);
    ListsAreRead(files, q.path + ["related_cpus"], Decimals(cpus));
    CpuListOfDecimals(cpus);
  }

  lemma ListsAreRead(files: Files, p: Path, tokens: seq<string>)
    ensures Lists(files, p, tokens) ==> TokensOf(Read(files, p)) == tokens
  {
    if Lists(files, p, tokens) {
      var gaps :| Layout(tokens, gaps) && Read(files, p) == Some(Spaced(tokens, gaps));
      SplitSpaced(tokens, gaps);
    }
  }

  // ---------- order and uniqueness ----------

  lemma PrecedesMeaning(a: CpuPolicy, b: CpuPolicy)
    ensures Precedes(IdLe, PathBefore, a, b) <==> ComesBefore(a, b)
  {
  }

  /** Sorting by number, stably, what was found in path order. */
  lemma SortedByNumber(policies: seq<CpuPolicy>)
    requires forall j, k :: 0 <= j < k < |policies| ==> PathBefore(policies[j], policies[k])
    ensures var sorted := Sort(IdLe, policies);
            && (forall i, j :: 0 <= i < j < |sorted| ==> ComesBefore(sorted[i], sorted[j]))
            && (forall q :: q in sorted <==> q in policies)
  {
    var sorted := Sort(IdLe, policies);
    SortOrders(IdLe, PathBefore, policies);
    SortPermutes(IdLe, policies);
    SameElements(sorted, policies);
    forall i, j | 0 <= i < j < |sorted| ensures ComesBefore(sorted[i], sorted[j]) {
      PrecedesMeaning(sorted[i], sorted[j]);
    }
  }

  lemma ComesBeforeAsymmetric(a: CpuPolicy, b: CpuPolicy)
    ensures !(ComesBefore(a, b) && ComesBefore(b, a))
  {
    PathOrder();
  }

  /** The result does not depend on the order in which the directory is enumerated. */
  lemma DiscoveryIsUnique(host: Host, files: Files, a: seq<CpuPolicy>, b: seq<CpuPolicy>)
    requires IsDiscovery(host, files, a) && IsDiscovery(host, files, b)
    ensures a == b
  {
    forall x, y ensures !(ComesBefore(x, y) && ComesBefore(y, x)) { ComesBeforeAsymmetric(x, y); }
    SortedUnique(ComesBefore, a, b, |a|);
    SortedUnique(ComesBefore, b, a, |b|);
    assert a == a[..|a|] && b == b[..|b|];
  }

  /** Two discovered policies never share a directory. */
  lemma DiscoveredPathsDistinct(host: Host, files: Files, policies: seq<CpuPolicy>, i: nat, j: nat)
    requires IsDiscovery(host, files, policies)
    requires i < j < |policies|
    ensures policies[i].path != policies[j].path
  {
    assert ComesBefore(policies[i], policies[j]);
    assert policies[i] in policies && policies[j] in policies;
  }

  function PolicyName(id: nat): string {
    "policy" + Decimal(id)
  }

  lemma PolicyNameId(id: nat)
    ensures PolicyId(PolicyName(id)) == if id <= U32_MAX then Some(id) else None
  {
    assert PolicyName(id)[|"policy"|..] == Decimal(id);
    ParseDecimal(id);
  }

  ghost function Ids(policies: seq<CpuPolicy>): seq<nat> {
    seq(|policies|, i requires 0 <= i < |policies| => policies[i].id)
  }

  /** A tree holding one directory policyN for each N in a set of 32-bit ids, beside
      entries that are not policies, is discovered as those ids in ascending order. */
  lemma BuildThenDiscover(host: Host, files: Files, ids: set<nat>, others: set<string>, policies: seq<CpuPolicy>)
    requires forall id :: id in ids ==> id <= U32_MAX
    requires forall name :: name in others ==> PolicyId(name).None?
    requires ChildNames(host, files, CPUFREQ_ROOT) == (set id | id in ids :: PolicyName(id)) + others
    requires IsDiscovery(host, files, policies)
    ensures forall i, j :: 0 <= i < j < |policies| ==> Ids(policies)[i] < Ids(policies)[j]
    ensures forall id :: id in Ids(policies) <==> id in ids
    ensures forall q :: q in policies ==> q.path == CPUFREQ_ROOT + [PolicyName(q.id)]
  {
    forall q | q in policies ensures q.id in ids && q.path == CPUFREQ_ROOT + [PolicyName(q.id)] {
      var name := FileName(q.path);
      assert q.path == CPUFREQ_ROOT + [name];
      ChildNamesMeaning(host, files, CPUFREQ_ROOT, name);
      var id :| id in ids && name == PolicyName(id);
      PolicyNameId(id);
    }
    forall i, j | 0 <= i < j < |policies| ensures policies[i].id < policies[j].id {
      assert ComesBefore(policies[i], policies[j]);
      assert policies[i] in policies && policies[j] in policies;
    }
    forall id | id in ids ensures id in Ids(policies) {
      var p := CPUFREQ_ROOT + [PolicyName(id)];
      PolicyNameId(id);
      ChildNamesMeaning(host, files, CPUFREQ_ROOT, PolicyName(id));
      assert Describes(host, files, PolicyAt(host, files, p, id));
      var i :| 0 <= i < |policies| && policies[i] == PolicyAt(host, files, p, id);
      assert Ids(policies)[i] == id;
    }
    forall id | id in Ids(policies) ensures id in ids {
      var i :| 0 <= i < |policies| && Ids(policies)[i] == id;
      assert policies[i] in policies;
    }
  }
}
