/** The power HAL gives the same results at any root. */
module Rerooting {
  import opened Wrappers
  import opened Profile
  import opened Sysfs
  import opened Errors
  import opened Topology
  import opened Backend

  /** One use of a backend. */
  datatype HalCall = ApplyCall(profile: PowerProfile) | TurboCall(enabled: bool) | CurrentCall

  datatype HalReply = Done(outcome: Outcome) | Profile(current: Result<Option<PowerProfile>, PowerError>)

  function HalStep(b: Backend, host: Host, files: Files, call: HalCall): (Files, HalReply) {
    match call
    case ApplyCall(profile) => var (after, r) := Applied(b, host, files, profile); (after, Done(r))
    case TurboCall(enabled) => var (after, r) := TurboSet(b, host, files, enabled); (after, Done(r))
    case CurrentCall => (files, Profile(Current(b, files)))
  }

  function HalRun(b: Backend, host: Host, files: Files, calls: seq<HalCall>): (Files, seq<HalReply>)
    decreases |calls|
  {
    if calls == [] then (files, [])
    else
      var (after, reply) := HalStep(b, host, files, calls[0]);
      var (end, replies) := HalRun(b, host, after, calls[1..]);
      (end, [reply] + replies)
  }

  /** The same directories, and the same answer to every write. */
  ghost predicate SameHost(h: Host, g: Host) {
    && h.dirs == g.dirs && h.unlistable == g.unlistable
    && forall p: Path, text: string :: h.accepts(p, text) == g.accepts(p, text)
  }

  lemma SameHostDescribes(h: Host, g: Host, files: Files, q: CpuPolicy)
    requires SameHost(h, g)
    ensures Describes(h, files, q) <==> Describes(g, files, q)
  {
  }

  lemma SameHostDiscovers(h: Host, g: Host, files: Files, r: Result<seq<CpuPolicy>, PowerError>)
    requires SameHost(h, g)
    ensures Discovers(h, files, r) <==> Discovers(g, files, r)
  {
    forall q ensures Describes(h, files, q) <==> Describes(g, files, q) {
      SameHostDescribes(h, g, files, q);
    }
  }

  lemma SameHostDetects(h: Host, g: Host, files: Files, b: Backend)
    requires SameHost(h, g)
    ensures Detects(h, files, b) <==> Detects(g, files, b)
  {
    forall r ensures Discovers(h, files, r) <==> Discovers(g, files, r) {
      SameHostDiscovers(h, g, files, r);
    }
  }

  lemma SameHostFirstFailure(h: Host, g: Host, plan: Plan)
    requires SameHost(h, g)
    ensures FirstFailure(h, plan) == FirstFailure(g, plan)
  {
    forall i | 0 <= i < |plan| ensures StepError(h, plan[i]) == StepError(g, plan[i]) {}
  }

  lemma SameHostStep(b: Backend, h: Host, g: Host, files: Files, call: HalCall)
    requires SameHost(h, g)
    ensures HalStep(b, h, files, call) == HalStep(b, g, files, call)
  {
    if call.ApplyCall? {
      SameHostFirstFailure(h, g, PlanOf(b, call.profile));
    }
  }

  lemma {:induction false} SameHostRun(b: Backend, h: Host, g: Host, files: Files, calls: seq<HalCall>)
    requires SameHost(h, g)
    ensures HalRun(b, h, files, calls) == HalRun(b, g, files, calls)
    decreases |calls|
  {
    if calls == [] {
    } else {
      SameHostStep(b, h, g, files, calls[0]);
      SameHostRun(b, h, g, HalStep(b, h, files, calls[0]).0, calls[1..]);
    }
  }

  lemma RootedTwice(root: Path, host: Host)
    ensures SameHost(HostUnder(root, host), HostUnder([], HostUnder(root, host)))
  {
    var h := HostUnder(root, host);
    forall p: Path ensures [] + p == p {}
    forall paths: set<Path>, p: Path ensures p in PathsUnder([], paths) <==> p in paths {
      PathsUnderMeaning([], paths, p);
    }
    assert PathsUnder([], h.dirs) == h.dirs && PathsUnder([], h.unlistable) == h.unlistable;
  }

  /** Discovery, detection and any sequence of backend calls through an accessor at `root` give the results, and
      leave the visible files, that an accessor at `/` gives and leaves on the subtree below `root`. */
  lemma HalIsRerootable(root: Path, t: Tree, b: Backend, calls: seq<HalCall>)
    ensures var sub := Subtree(root, t);
            var h, f := HostUnder(root, t.host), FilesUnder(root, t.files);
            var h', f' := HostUnder([], sub.host), FilesUnder([], sub.files);
            && (forall r :: Discovers(h, f, r) <==> Discovers(h', f', r))
            && (Detects(h, f, b) <==> Detects(h', f', b))
            && HalRun(b, h, f, calls) == HalRun(b, h', f', calls)
  {
    var sub := Subtree(root, t);
    var h, h' := HostUnder(root, t.host), HostUnder([], sub.host);
    RootedTwice(root, t.host);
    WholeTreeUnderRoot(sub.files);
    forall r ensures Discovers(h, sub.files, r) <==> Discovers(h', sub.files, r) {
      SameHostDiscovers(h, h', sub.files, r);
    }
    SameHostDetects(h, h', sub.files, b);
    SameHostRun(b, h, h', sub.files, calls);
  }
}
