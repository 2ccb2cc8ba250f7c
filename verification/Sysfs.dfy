/** The file system as the power HAL sees it, and the rooted view of it that
    the same code uses on a live host (rooted at `/`) and on a fixture tree. */
module Sysfs {
  import opened Wrappers
  import opened Text
  import opened Ordering

  /** The components of an absolute path. */
  type Path = seq<string>

  type Files = map<Path, string>

  /** What stays fixed while the agent runs: the directories, those whose listing
      is refused, and which writes the kernel accepts. */
  datatype Host = Host(dirs: set<Path>, unlistable: set<Path>, accepts: (Path, string) -> bool)

  predicate Exists(host: Host, files: Files, p: Path) {
    p in files || p in host.dirs
  }

  /** A file's text without its trailing newlines, if the file is there. */
  function Read(files: Files, p: Path): Option<string> {
    if p in files then Some(TrimEndNewlines(files[p])) else None
  }

  predicate Listable(host: Host, dir: Path) {
    dir in host.dirs && dir !in host.unlistable
  }

  predicate IsChild(dir: Path, p: Path) {
    |p| == |dir| + 1 && p[..|dir|] == dir
  }

  function ChildNames(host: Host, files: Files, dir: Path): set<string> {
    set p | p in files.Keys + host.dirs && IsChild(dir, p) :: p[|dir|]
  }

  lemma ChildNamesMeaning(host: Host, files: Files, dir: Path, name: string)
    ensures name in ChildNames(host, files, dir) <==> Exists(host, files, dir + [name])
  {
    if name in ChildNames(host, files, dir) {
      var p :| p in files.Keys + host.dirs && IsChild(dir, p) && p[|dir|] == name;
      assert p == p[..|dir|] + [p[|dir|]];
    }
    if Exists(host, files, dir + [name]) {
      assert IsChild(dir, dir + [name]) && (dir + [name])[|dir|] == name;
    }
  }

  // ---------- subtrees ----------

  function PathsUnder(root: Path, paths: set<Path>): set<Path> {
    set p | p in paths && root <= p :: p[|root|..]
  }

  lemma PathsUnderMeaning(root: Path, paths: set<Path>, q: Path)
    ensures q in PathsUnder(root, paths) <==> root + q in paths
  {
    if q in PathsUnder(root, paths) {
      var p :| p in paths && root <= p && p[|root|..] == q;
      assert p == root + q;
    }
    assert (root + q)[|root|..] == q;
  }

  /** The files below `root`, under the names they have from there. */
  function FilesUnder(root: Path, files: Files): Files {
    map q | q in PathsUnder(root, files.Keys) && root + q in files :: files[root + q]
  }

  lemma FilesUnderMeaning(root: Path, files: Files, q: Path)
    ensures q in FilesUnder(root, files) <==> root + q in files
    ensures q in FilesUnder(root, files) ==> FilesUnder(root, files)[q] == files[root + q]
  {
    PathsUnderMeaning(root, files.Keys, q);
  }

  lemma WholeTreeUnderRoot(files: Files)
    ensures FilesUnder([], files) == files
  {
    var sub := FilesUnder([], files);
    forall p ensures (p in sub <==> p in files) && (p in sub ==> sub[p] == files[p]) {
      FilesUnderMeaning([], files, p);
      assert [] + p == p;
    }
    assert sub == files;
  }

  function HostUnder(root: Path, host: Host): Host {
    Host(PathsUnder(root, host.dirs), PathsUnder(root, host.unlistable), (p, v) => host.accepts(root + p, v))
  }

  /** The files that are not below `root`. */
  function FilesOutside(root: Path, files: Files): Files {
    map p | p in files && !(root <= p) :: files[p]
  }

  lemma ExistsUnder(root: Path, host: Host, files: Files, p: Path)
    ensures Exists(HostUnder(root, host), FilesUnder(root, files), p) <==> Exists(host, files, root + p)
  {
    PathsUnderMeaning(root, host.dirs, p);
    FilesUnderMeaning(root, files, p);
  }

  lemma WriteUnder(root: Path, files: Files, p: Path, text: string)
    ensures FilesUnder(root, files[root + p := text]) == FilesUnder(root, files)[p := text]
    ensures FilesOutside(root, files[root + p := text]) == FilesOutside(root, files)
  {
    var after := files[root + p := text];
    var f, g := FilesUnder(root, after), FilesUnder(root, files)[p := text];
    forall q ensures (q in f <==> q in g) && (q in f ==> f[q] == g[q]) {
      FilesUnderMeaning(root, files, q);
      FilesUnderMeaning(root, after, q);
      assert (root + q)[|root|..] == q && (root + p)[|root|..] == p;
    }
    assert f == g;
    assert root <= root + p;
  }

  lemma ChildNamesUnder(root: Path, host: Host, files: Files, dir: Path)
    ensures ChildNames(HostUnder(root, host), FilesUnder(root, files), dir) == ChildNames(host, files, root + dir)
    ensures Listable(HostUnder(root, host), dir) <==> Listable(host, root + dir)
  {
    PathsUnderMeaning(root, host.dirs, dir);
    PathsUnderMeaning(root, host.unlistable, dir);
    forall name
      ensures name in ChildNames(HostUnder(root, host), FilesUnder(root, files), dir)
         <==> name in ChildNames(host, files, root + dir)
    {
      ChildNamesMeaning(HostUnder(root, host), FilesUnder(root, files), dir, name);
      ChildNamesMeaning(host, files, root + dir, name);
      ExistsUnder(root, host, files, dir + [name]);
      assert root + (dir + [name]) == root + dir + [name];
    }
  }

  // ---------- sorted listings ----------

  /** The children of a directory, each once, in path order. */
  ghost predicate IsListing(host: Host, files: Files, dir: Path, entries: seq<Path>) {
    && (forall i :: 0 <= i < |entries| ==> IsChild(dir, entries[i]) && Exists(host, files, entries[i]))
    && (forall p :: IsChild(dir, p) && Exists(host, files, p) ==> p in entries)
    && (forall i, j :: 0 <= i < j < |entries| ==> PathLe(entries[i], entries[j]) && entries[i] != entries[j])
  }

  lemma NoRepeats<T>(s: seq<T>, elements: set<T>)
    requires multiset(s) == multiset(elements)
    ensures forall i, j :: 0 <= i < j < |s| ==> s[i] != s[j]
    ensures forall x :: x in s <==> x in elements
  {
    forall x ensures x in s <==> x in elements {
      assert x in multiset(s) <==> x in multiset(elements);
    }
    forall i, j | 0 <= i < j < |s| ensures s[i] != s[j] {
      assert multiset(elements)[s[i]] == 1;
      assert s == s[..i] + [s[i]] + s[i + 1..j] + [s[j]] + s[j + 1..];
    }
  }

  /** Sorting distinct paths puts them in strict order. */
  lemma SortedStrictly(entries: seq<Path>)
    requires forall i, j :: 0 <= i < j < |entries| ==> entries[i] != entries[j]
    ensures var sorted := Sort(PathLe, entries);
            && (forall i, j :: 0 <= i < j < |sorted| ==> PathLe(sorted[i], sorted[j]) && sorted[i] != sorted[j])
            && (forall p :: p in sorted <==> p in entries)
  {
    var sorted := Sort(PathLe, entries);
    PathOrder();
    SortOrders(PathLe, (a: Path, b: Path) => a != b, entries);
    SortPermutes(PathLe, entries);
    SameElements(sorted, entries);
    forall i, j | 0 <= i < j < |sorted| ensures PathLe(sorted[i], sorted[j]) && sorted[i] != sorted[j] {
      assert Precedes(PathLe, (a: Path, b: Path) => a != b, sorted[i], sorted[j]);
    }
  }

  /** Distinct children, in whatever order they were enumerated, sort to the listing. */
  lemma SortedIsListing(host: Host, files: Files, dir: Path, names: seq<string>, entries: seq<Path>)
    requires multiset(names) == multiset(ChildNames(host, files, dir))
    requires |entries| == |names| && forall i :: 0 <= i < |names| ==> entries[i] == dir + [names[i]]
    ensures IsListing(host, files, dir, Sort(PathLe, entries))
  {
    var sorted := Sort(PathLe, entries);
    NoRepeats(names, ChildNames(host, files, dir));
    forall i, j | 0 <= i < j < |entries| ensures entries[i] != entries[j] {
      assert entries[i][|dir|] == names[i] && entries[j][|dir|] == names[j];
    }
    SortedStrictly(entries);
    forall p ensures p in entries <==> IsChild(dir, p) && Exists(host, files, p) {
      ChildIsEntry(host, files, dir, names, entries, p);
    }
    forall i | 0 <= i < |sorted| ensures IsChild(dir, sorted[i]) && Exists(host, files, sorted[i]) {
      assert sorted[i] in sorted;
    }
  }

  lemma ChildIsEntry(host: Host, files: Files, dir: Path, names: seq<string>, entries: seq<Path>, p: Path)
    requires forall name :: name in names <==> name in ChildNames(host, files, dir)
    requires |entries| == |names| && forall i :: 0 <= i < |names| ==> entries[i] == dir + [names[i]]
    ensures p in entries <==> IsChild(dir, p) && Exists(host, files, p)
  {
    if p in entries {
      var k :| 0 <= k < |entries| && entries[k] == p;
      assert names[k] in names;
      ChildNamesMeaning(host, files, dir, names[k]);
    }
    if IsChild(dir, p) && Exists(host, files, p) {
      var name := p[|dir|];
      assert p == dir + [name];
      ChildNamesMeaning(host, files, dir, name);
      var k :| 0 <= k < |names| && names[k] == name;
      assert entries[k] == p;
    }
  }

  lemma ListingNames(host: Host, files: Files, dir: Path, entries: seq<Path>)
    requires IsListing(host, files, dir, entries)
    ensures forall name :: name in ChildNames(host, files, dir) <==> dir + [name] in entries
  {
    forall name ensures name in ChildNames(host, files, dir) <==> dir + [name] in entries {
      ChildNamesMeaning(host, files, dir, name);
      assert IsChild(dir, dir + [name]);
    }
  }

  /** The sorted listing holds exactly the names of the reply. */
  ghost predicate Answers(dir: Path, r: Option<seq<Path>>, reply: Reply) {
    && reply.Names?
    && (r.Some? <==> reply.names.Some?)
    && (r.Some? ==> forall name :: name in reply.names.value <==> dir + [name] in r.value)
  }

  // ---------- the mutable disk and the rooted accessor ----------

  /** The operating system's file tree. */
  class Disk {
    var files: Files
    const host: Host

    constructor (host: Host, files: Files)
      ensures this.host == host && this.files == files
    {
      this.host := host;
      this.files := files;
    }

    method WriteFile(p: Path, text: string) returns (ok: bool)
      modifies this
      ensures ok == host.accepts(p, text)
      ensures files == if ok then old(files)[p := text] else old(files)
    {
      ok := host.accepts(p, text);
      if ok {
        files := files[p := text];
      }
    }

    /** The names in a directory, in an order the operating system does not fix. */
    method Enumerate(dir: Path) returns (names: seq<string>)
      ensures multiset(names) == multiset(ChildNames(host, files, dir))
    {
      var left := ChildNames(host, files, dir);
      names := [];
      while left != {}
        invariant left <= ChildNames(host, files, dir)
        invariant multiset(names) + multiset(left) == multiset(ChildNames(host, files, dir))
        decreases left
      {
        var name :| name in left;
        names := names + [name];
        left := left - {name};
      }
    }
  }

  /** Accepts sysfs-absolute paths and works on the disk below `root`. */
  class RootedSysfs {
    const root: Path
    const disk: Disk

    constructor (root: Path, disk: Disk)
      ensures this.root == root && this.disk == disk
    {
      this.root := root;
      this.disk := disk;
    }

    function Resolve(p: Path): Path {
      root + p
    }

    /** The files this accessor can reach, named the way its callers name them. */
    function View(): Files
      reads disk
    {
      FilesUnder(root, disk.files)
    }

    /** The files this accessor cannot reach. */
    function Outside(): Files
      reads disk
    {
      FilesOutside(root, disk.files)
    }

    function HostView(): Host {
      HostUnder(root, disk.host)
    }

    method ReadToString(p: Path) returns (text: Option<string>)
      ensures text == Read(View(), p)
      ensures text.Some? <==> root + p in disk.files
      ensures text.Some? ==> WithoutNewlines(disk.files[root + p], text.value)
      ensures (disk.files, Contents(text)) == Perform(root, Tree(disk.host, disk.files), ReadOp(p))
    {
      FilesUnderMeaning(root, disk.files, p);
      var q := Resolve(p);
      text := if q in disk.files then Some(TrimEndNewlines(disk.files[q])) else None;
    }

    method Write(p: Path, text: string) returns (ok: bool)
      modifies disk
      ensures ok == HostView().accepts(p, text) == disk.host.accepts(root + p, text)
      ensures disk.files == if ok then old(disk.files)[root + p := text] else old(disk.files)
      ensures View() == if ok then old(View())[p := text] else old(View())
      ensures Outside() == old(Outside())
      ensures (disk.files, Written(ok)) == Perform(root, Tree(disk.host, old(disk.files)), WriteOp(p, text))
    {
      WriteUnder(root, disk.files, p, text);
      ok := disk.WriteFile(Resolve(p), text);
    }

    method ReadDir(dir: Path) returns (r: Option<seq<Path>>)
      ensures r.Some? <==> Listable(HostView(), dir)
      ensures r.Some? <==> root + dir in disk.host.dirs && root + dir !in disk.host.unlistable
      ensures r.Some? ==> IsListing(HostView(), View(), dir, r.value)
      ensures var (files, reply) := Perform(root, Tree(disk.host, disk.files), ListOp(dir));
              files == disk.files && Answers(dir, r, reply)
    {
      ChildNamesUnder(root, disk.host, disk.files, dir);
      if !Listable(disk.host, Resolve(dir)) {
        return None;
      }
      var names := disk.Enumerate(Resolve(dir));
      var entries := [];
      for i := 0 to |names|
        invariant |entries| == i && forall j :: 0 <= j < i ==> entries[j] == dir + [names[j]]
      {
        entries := entries + [dir + [names[i]]];
      }
      SortedIsListing(HostView(), View(), dir, names, entries);
      r := Some(Sort(PathLe, entries));
      ListingNames(HostView(), View(), dir, r.value);
    }

    method PathExists(p: Path) returns (b: bool)
      ensures b == Exists(HostView(), View(), p)
      ensures b <==> root + p in disk.files || root + p in disk.host.dirs
      ensures (disk.files, Present(b)) == Perform(root, Tree(disk.host, disk.files), ExistsOp(p))
    {
      ExistsUnder(root, disk.host, disk.files, p);
      b := Exists(disk.host, disk.files, Resolve(p));
    }
  }

  // ---------- re-rooting ----------

  datatype Op = ReadOp(p: Path) | WriteOp(p: Path, text: string) | ListOp(p: Path) | ExistsOp(p: Path)

  datatype Reply =
    | Contents(text: Option<string>)
    | Written(ok: bool)
    | Names(names: Option<set<string>>)
    | Present(b: bool)

  datatype Tree = Tree(host: Host, files: Files)

  function Perform(root: Path, t: Tree, op: Op): (Files, Reply) {
    match op
    case ReadOp(p) => (t.files, Contents(Read(t.files, root + p)))
    case WriteOp(p, text) =>
      if t.host.accepts(root + p, text) then (t.files[root + p := text], Written(true)) else (t.files, Written(false))
    case ListOp(p) =>
      (t.files, Names(if Listable(t.host, root + p) then Some(ChildNames(t.host, t.files, root + p)) else None))
    case ExistsOp(p) => (t.files, Present(Exists(t.host, t.files, root + p)))
  }

  /** A client picks each operation from the replies so far, and stops when it returns None. */
  type Client = seq<Reply> -> Option<Op>

  function Converse(root: Path, t: Tree, client: Client, replies: seq<Reply>, steps: nat): (Files, seq<Reply>)
    decreases steps
  {
    if steps == 0 || client(replies).None? then (t.files, replies)
    else
      var (files, reply) := Perform(root, t, client(replies).value);
      Converse(root, Tree(t.host, files), client, replies + [reply], steps - 1)
  }

  function Subtree(root: Path, t: Tree): Tree {
    Tree(HostUnder(root, t.host), FilesUnder(root, t.files))
  }

  lemma RerootOne(root: Path, t: Tree, op: Op)
    ensures var (files, reply) := Perform(root, t, op);
            var (files', reply') := Perform([], Subtree(root, t), op);
            && reply == reply' && FilesUnder(root, files) == files'
            && FilesOutside(root, files) == FilesOutside(root, t.files)
  {
    assert [] + op.p == op.p;
    match op
    case ReadOp(p) => FilesUnderMeaning(root, t.files, p);
    case WriteOp(p, text) => WriteUnder(root, t.files, p, text);
    case ListOp(p) => ChildNamesUnder(root, t.host, t.files, p);
    case ExistsOp(p) => ExistsUnder(root, t.host, t.files, p);
  }

  /** Two exchanges, one at `root` and one on the subtree, that no client can tell apart. */
  ghost predicate Alike(root: Path, before: Files, there: (Files, seq<Reply>), here: (Files, seq<Reply>)) {
    && there.1 == here.1 && FilesUnder(root, there.0) == here.0
    && FilesOutside(root, there.0) == FilesOutside(root, before)
  }

  lemma AlikeAfterStep(root: Path, before: Files, next: Files, there: (Files, seq<Reply>), here: (Files, seq<Reply>))
    requires FilesOutside(root, next) == FilesOutside(root, before)
    requires Alike(root, next, there, here)
    ensures Alike(root, before, there, here)
  {
  }

  /** No client can tell a tree at `root` from the same tree at `/`, and no client changes anything outside `root`. */
  lemma {:induction false} RerootingIsSimulation(root: Path, t: Tree, client: Client, replies: seq<Reply>, steps: nat)
    ensures Alike(root, t.files, Converse(root, t, client, replies, steps),
                  Converse([], Subtree(root, t), client, replies, steps))
    decreases steps
  {
    if steps == 0 || client(replies).None? {
    } else {
      var op := client(replies).value;
      var (files, reply) := Perform(root, t, op);
      var next := Tree(t.host, files);
      RerootOne(root, t, op);
      RerootingIsSimulation(root, next, client, replies + [reply], steps - 1);
      assert Subtree(root, next) == Tree(HostUnder(root, t.host), Perform([], Subtree(root, t), op).0);
      AlikeAfterStep(root, t.files, files, Converse(root, next, client, replies + [reply], steps - 1),
                     Converse([], Subtree(root, next), client, replies + [reply], steps - 1));
    }
  }

  /** Different sysfs paths never meet on disk. */
  lemma ResolveInjective(io: RootedSysfs, p: Path, q: Path)
    ensures io.Resolve(p) == io.Resolve(q) <==> p == q
  {
    assert io.Resolve(p)[|io.root|..] == p && io.Resolve(q)[|io.root|..] == q;
  }
}
