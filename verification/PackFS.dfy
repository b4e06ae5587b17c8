/**
 The in-memory directory index of a workflows pack (internal/pack/fs.go). The index is built by
 climbing from each file, in any order, and stopping at the first directory already known.
*/
module PackFS {
  import opened Options
  import opened Paths

  datatype Entry = Entry(name: bytes, size: nat, dir: bool)

  datatype Error = BadPath(path: bytes) | Repeated(path: bytes) | FileAndDir(path: bytes)

  datatype Outcome =
    | Fail(error: Error)
    | Built(files: map<bytes, bytes>, dirs: map<bytes, seq<Entry>>)

  // ------------------------------------------------------------ what the index has to be

  ghost predicate SomeInvalid(files: seq<File>) {
    exists i :: 0 <= i < |files| && !ValidPath(files[i].path)
  }

  ghost predicate SomeRepeated(files: seq<File>) {
    exists i, j :: 0 <= i < j < |files| && files[i].path == files[j].path
  }

  ghost predicate SomeFileAbove(files: seq<File>) {
    exists i, j :: 0 <= i < |files| && 0 <= j < |files| && files[i].path in Ancestors(files[j].path)
  }

  /** The first file of the list that is not acceptable, and why; or a file that is above another. */
  ghost predicate Faulty(files: seq<File>, error: Error) {
    match error
    case BadPath(p) =>
      exists i :: 0 <= i < |files| && files[i].path == p && !ValidPath(p) && GoodUpTo(files, i)
    case Repeated(p) =>
      exists i :: 0 <= i < |files| && files[i].path == p && ValidPath(p) && GoodUpTo(files, i) && Among(p, files[..i])
    case FileAndDir(d) => GoodUpTo(files, |files|) && Among(d, files) && AboveOne(d, files)
  }

  ghost predicate GoodUpTo(files: seq<File>, n: nat)
    requires n <= |files|
  {
    !SomeInvalid(files[..n]) && !SomeRepeated(files[..n])
  }

  ghost predicate Among(p: bytes, files: seq<File>) { exists i :: 0 <= i < |files| && files[i].path == p }

  ghost predicate AboveOne(d: bytes, files: seq<File>) { exists j :: 0 <= j < |files| && d in Ancestors(files[j].path) }

  /** The files of the list under their paths. */
  ghost predicate Holds(m: map<bytes, bytes>, files: seq<File>) {
    && (forall i :: 0 <= i < |files| ==> files[i].path in m && m[files[i].path] == files[i].content)
    && (forall p :: p in m ==> exists i :: 0 <= i < |files| && files[i].path == p)
  }

  ghost predicate AboveSome(d: bytes, leaves: set<bytes>) {
    exists f :: f in leaves && d in Ancestors(f)
  }

  /** The directories are the root and everything above a file. */
  ghost predicate DirsOf(dirs: set<bytes>, leaves: set<bytes>) {
    forall d :: d in dirs <==> d == ROOT || AboveSome(d, leaves)
  }

  /** p lies immediately under d, as a file or as a directory. */
  ghost predicate Child(p: bytes, d: bytes, leaves: set<bytes>, dirs: set<bytes>) {
    (p in leaves || (p in dirs && p != ROOT)) && Dir(p) == d
  }

  function EntryOf(p: bytes, m: map<bytes, bytes>): Entry {
    if p in m then Entry(Base(p), |m[p]|, false) else Entry(Base(p), 0, true)
  }

  /** An entry carries the last name of its path; a file has its size, a directory none. */
  lemma EntryShows(p: bytes, m: map<bytes, bytes>)
    ensures EntryOf(p, m).name == Base(p) && (EntryOf(p, m).dir <==> p !in m)
    ensures EntryOf(p, m).size == if p in m then |m[p]| else 0
  {
  }

  ghost predicate SortedByName(l: seq<Entry>) {
    forall i, j :: 0 <= i < j < |l| ==> Before(l[i].name, l[j].name)
  }

  ghost predicate OnlyChildren(l: seq<Entry>, d: bytes, m: map<bytes, bytes>, dirs: set<bytes>) {
    forall e :: e in l ==> exists p :: Child(p, d, m.Keys, dirs) && e == EntryOf(p, m)
  }

  ghost predicate AllChildren(l: seq<Entry>, d: bytes, m: map<bytes, bytes>, dirs: set<bytes>) {
    forall p :: Child(p, d, m.Keys, dirs) ==> EntryOf(p, m) in l
  }

  /** Each immediate child of d exactly once, in strictly increasing name order. */
  ghost predicate Lists(l: seq<Entry>, d: bytes, m: map<bytes, bytes>, dirs: set<bytes>) {
    SortedByName(l) && OnlyChildren(l, d, m, dirs) && AllChildren(l, d, m, dirs)
  }

  // ------------------------------------------------------------ the tree while it grows

  type Tree = map<bytes, seq<bytes>>

  function Nodes(t: Tree, leaves: set<bytes>): set<bytes> { leaves + (t.Keys - {ROOT}) }

  /** What a directory lists lies immediately under it, and is linked already. */
  ghost predicate Sound(t: Tree, leaves: set<bytes>, open: set<bytes>) {
    forall d, k: nat :: d in t && k < |t[d]| ==> t[d][k] in Nodes(t, leaves) - open && Dir(t[d][k]) == d
  }

  /** Every node but the open one is listed by its parent. */
  ghost predicate Complete(t: Tree, leaves: set<bytes>, open: set<bytes>) {
    forall p :: p in Nodes(t, leaves) - open ==> Dir(p) in t && p in t[Dir(p)]
  }

  ghost predicate Once(t: Tree) {
    forall d, i: nat, j: nat :: d in t && i < j < |t[d]| ==> t[d][i] != t[d][j]
  }

  /**
   What stopping early relies on: a known directory, the open node apart, is linked to its
   parent, which is known too.
  */
  ghost predicate Grown(t: Tree, leaves: set<bytes>, open: set<bytes>) {
    ROOT in t && Sound(t, leaves, open) && Complete(t, leaves, open) && Once(t)
  }

  ghost predicate AllValid(s: set<bytes>) { forall p :: p in s ==> ValidPath(p) }

  ghost predicate Justified(t: Tree, leaves: set<bytes>) {
    forall d :: d in t ==> d == ROOT || AboveSome(d, leaves)
  }

  /** The real map shows the tree's links as entries. */
  ghost predicate Shows(dirs: map<bytes, seq<Entry>>, t: Tree, m: map<bytes, bytes>) {
    dirs.Keys == t.Keys && forall d :: d in dirs ==> ShowsOne(dirs[d], t[d], m)
  }

  ghost predicate ShowsOne(l: seq<Entry>, kids: seq<bytes>, m: map<bytes, bytes>) {
    |l| == |kids| && forall k :: 0 <= k < |l| ==> l[k] == EntryOf(kids[k], m)
  }

  lemma AddLeaf(t: Tree, leaves: set<bytes>, f: bytes)
    requires Grown(t, leaves, {}) && f !in Nodes(t, leaves)
    ensures Grown(t, leaves + {f}, {f})
  {
  }

  lemma LinkKnown(t: Tree, leaves: set<bytes>, c: bytes, d: bytes, u: Tree)
    requires Grown(t, leaves, {c}) && c in Nodes(t, leaves) && d == Dir(c) && d in t
    requires u == t[d := t[d] + [c]]
    ensures Grown(u, leaves, {})
  {
    assert Nodes(u, leaves) == Nodes(t, leaves);
    assert u[d][|t[d]|] == c;
    assert forall p :: p in t[d] ==> p in u[d];
  }

  lemma LinkNew(t: Tree, leaves: set<bytes>, c: bytes, d: bytes, u: Tree)
    requires Grown(t, leaves, {c}) && c in Nodes(t, leaves) && d == Dir(c) && d !in t && d !in leaves && d != c
    requires u == t[d := [c]]
    ensures Grown(u, leaves, {d})
  {
    assert Nodes(u, leaves) == Nodes(t, leaves) + {d};
    assert u[d][0] == c;
  }

  lemma {:induction false} AncestorsKnown(t: Tree, leaves: set<bytes>, p: bytes)
    requires Grown(t, leaves, {}) && p in Nodes(t, leaves)
    ensures Ancestors(p) <= t.Keys
    decreases Rank(p)
  {
    if p == ROOT {
    } else {
      DirRank(p);
      assert Dir(p) in t;
      if Dir(p) != ROOT { AncestorsKnown(t, leaves, Dir(p)); }
    }
  }

  // ------------------------------------------------------------ sorting

  function Insert(e: Entry, s: seq<Entry>): seq<Entry> {
    if s == [] || Before(e.name, s[0].name) then [e] + s else [s[0]] + Insert(e, s[1..])
  }

  function SortByName(s: seq<Entry>): seq<Entry> {
    if s == [] then [] else Insert(s[0], SortByName(s[1..]))
  }

  lemma {:induction false} InsertMembers(e: Entry, s: seq<Entry>)
    ensures forall x :: x in Insert(e, s) <==> x == e || x in s
  {
    if s == [] || Before(e.name, s[0].name) {
    } else {
      InsertMembers(e, s[1..]);
      assert s == [s[0]] + s[1..];
    }
  }

  lemma {:induction false} InsertSorts(e: Entry, s: seq<Entry>)
    requires SortedByName(s) && forall x :: x in s ==> x.name != e.name
    ensures SortedByName(Insert(e, s))
  {
    if s == [] {
    } else {
      if Before(e.name, s[0].name) {
        forall j | 0 <= j < |s| ensures Before(e.name, s[j].name) {
          if j > 0 { BeforeTrans(e.name, s[0].name, s[j].name); }
        }
      } else {
        InsertSorts(e, s[1..]);
        InsertMembers(e, s[1..]);
        BeforeTotal(e.name, s[0].name);
        var l := Insert(e, s[1..]);
        forall j | 0 <= j < |l| ensures Before(s[0].name, l[j].name) { assert l[j] in l; }
      }
    }
  }

  ghost predicate DistinctNames(s: seq<Entry>) {
    forall i, j :: 0 <= i < j < |s| ==> s[i].name != s[j].name
  }

  lemma {:induction false} SortSorts(s: seq<Entry>)
    requires DistinctNames(s)
    ensures SortedByName(SortByName(s)) && forall x :: x in SortByName(s) <==> x in s
  {
    if s == [] {
    } else {
      SortSorts(s[1..]);
      InsertMembers(s[0], SortByName(s[1..]));
      assert s == [s[0]] + s[1..];
      forall x | x in s[1..] ensures x.name != s[0].name {
        var k :| 0 <= k < |s[1..]| && s[1..][k] == x;
        assert s[k + 1] == x;
      }
      InsertSorts(s[0], SortByName(s[1..]));
    }
  }

  lemma ListingDone(d: bytes, l: seq<Entry>, t: Tree, m: map<bytes, bytes>)
    requires Grown(t, m.Keys, {}) && d in t && ShowsOne(l, t[d], m) && AllValid(Nodes(t, m.Keys))
    ensures Lists(SortByName(l), d, m, t.Keys)
  {
    hide ValidPath, Dir, Base, SortByName, SortedByName;
    var kids := t[d];
    forall i, j | 0 <= i < j < |l| ensures l[i].name != l[j].name {
      assert kids[i] in Nodes(t, m.Keys) && kids[j] in Nodes(t, m.Keys);
      if l[i].name == l[j].name { SameValidPath(kids[i], kids[j]); }
    }
    SortSorts(l);
    forall e | e in SortByName(l) ensures exists p :: Child(p, d, m.Keys, t.Keys) && e == EntryOf(p, m) {
      var k :| 0 <= k < |l| && l[k] == e;
      assert Child(kids[k], d, m.Keys, t.Keys);
    }
    forall p | Child(p, d, m.Keys, t.Keys) ensures EntryOf(p, m) in SortByName(l) {
      assert p in Nodes(t, m.Keys);
      var k :| 0 <= k < |kids| && kids[k] == p;
      assert l[k] == EntryOf(p, m);
    }
  }

  // ------------------------------------------------------------ NewFS

  lemma HoldsMore(m: map<bytes, bytes>, was: seq<File>, file: File)
    requires Holds(m, was) && file.path !in m
    ensures Holds(m[file.path := file.content], was + [file])
  {
    var now, n := was + [file], m[file.path := file.content];
    assert now[|was|] == file;
    forall p | p in n ensures exists k :: 0 <= k < |now| && now[k].path == p {
      if p != file.path {
        var k :| 0 <= k < |was| && was[k].path == p;
        assert now[k].path == p;
      }
    }
  }

  lemma StillGood(m: map<bytes, bytes>, was: seq<File>, file: File)
    requires Holds(m, was) && file.path !in m && ValidPath(file.path)
    requires !SomeInvalid(was) && !SomeRepeated(was)
    ensures !SomeInvalid(was + [file]) && !SomeRepeated(was + [file])
  {
    hide ValidPath;
    var now := was + [file];
    forall k | 0 <= k < |now| ensures ValidPath(now[k].path) {
      if k < |was| { assert now[k] == was[k]; }
    }
    forall j, k | 0 <= j < k < |now| ensures now[j].path != now[k].path {
      assert now[j] == was[j];
      if k < |was| { assert now[k] == was[k]; }
    }
  }

  lemma CollectOne(files: seq<File>, i: nat, m: map<bytes, bytes>)
    requires i < |files| && Holds(m, files[..i])
    requires ValidPath(files[i].path) && files[i].path !in m
    requires !SomeInvalid(files[..i]) && !SomeRepeated(files[..i])
    ensures Holds(m[files[i].path := files[i].content], files[..i + 1])
    ensures !SomeInvalid(files[..i + 1]) && !SomeRepeated(files[..i + 1])
  {
    assert files[..i + 1] == files[..i] + [files[i]];
    HoldsMore(m, files[..i], files[i]);
    StillGood(m, files[..i], files[i]);
  }

  /** The first pass: the files under their paths, or the first path that is invalid or repeated. */
  method Collect(files: seq<File>) returns (m: map<bytes, bytes>, error: Option<Error>)
    ensures error.None? ==> Holds(m, files) && AllValid(m.Keys) && !SomeInvalid(files) && !SomeRepeated(files)
    ensures error.Some? ==>
        !error.value.FileAndDir? && Faulty(files, error.value) && (SomeInvalid(files) || SomeRepeated(files))
  {
    hide ValidPath;
    m := map[];
    for i := 0 to |files|
      invariant Holds(m, files[..i]) && AllValid(m.Keys)
      invariant !SomeInvalid(files[..i]) && !SomeRepeated(files[..i])
    {
      var file := files[i];
      if !ValidPath(file.path) {
        assert GoodUpTo(files, i);
        return m, Some(BadPath(file.path));
      }
      if file.path in m {
        Repeats(files, i, m);
        assert GoodUpTo(files, i);
        return m, Some(Repeated(file.path));
      }
      CollectOne(files, i, m);
      m := m[file.path := file.content];
    }
    assert files[..|files|] == files;
    error := None;
  }

  lemma Repeats(files: seq<File>, i: nat, m: map<bytes, bytes>)
    requires i < |files| && Holds(m, files[..i]) && files[i].path in m
    ensures SomeRepeated(files) && Among(files[i].path, files[..i])
  {
    var k :| 0 <= k < |files[..i]| && files[..i][k].path == files[i].path;
    assert files[k].path == files[i].path;
  }

  lemma ShowMore(l: seq<Entry>, kids: seq<bytes>, m: map<bytes, bytes>, c: bytes)
    requires ShowsOne(l, kids, m)
    ensures ShowsOne(l + [EntryOf(c, m)], kids + [c], m)
  {
    hide EntryOf;
  }

  lemma ShowLink(
    dirs: map<bytes, seq<Entry>>, t: Tree, m: map<bytes, bytes>, d: bytes, l: seq<Entry>, kids: seq<bytes>, c: bytes)
    requires Shows(dirs, t, m) && ShowsOne(l, kids, m)
    ensures Shows(dirs[d := l + [EntryOf(c, m)]], t[d := kids + [c]], m)
  {
    hide ShowsOne, EntryOf;
    ShowMore(l, kids, m, c);
  }

  ghost predicate Apart(t: Tree, m: map<bytes, bytes>) {
    AllValid(t.Keys - {ROOT}) && t.Keys !! m.Keys
  }

  lemma OwnAncestor(p: bytes)
    requires p != ROOT
    ensures Dir(p) in Ancestors(p) && Rank(Dir(p)) < Rank(p)
  {
    DirRank(p);
  }

  /** One turn of the climb at a directory not known before. */
  lemma ClimbNew(t: Tree, m: map<bytes, bytes>, leaves: set<bytes>, name: bytes, c: bytes, d: bytes)
    requires Grown(t, leaves, {c}) && Justified(t, leaves) && Apart(t, m) && leaves <= m.Keys && name in leaves
    requires c in Nodes(t, leaves) && c != ROOT && ValidPath(c) && d == Dir(c)
    requires d !in t && d !in m && d in Ancestors(name)
    ensures var u := t[d := [c]];
      Grown(u, leaves, {d}) && Justified(u, leaves) && Apart(u, m) && d in Nodes(u, leaves)
    ensures d != ROOT && ValidPath(d) && Dir(d) in Ancestors(name)
  {
    OwnAncestor(c);
    assert d != ROOT;
    LinkNew(t, leaves, c, d, t[d := [c]]);
    DirValid(c);
    assert AboveSome(d, leaves);
    AncestorsClosed(name, d);
  }

  lemma ClimbKnown(t: Tree, m: map<bytes, bytes>, leaves: set<bytes>, c: bytes, d: bytes)
    requires Grown(t, leaves, {c}) && Justified(t, leaves) && Apart(t, m)
    requires c in Nodes(t, leaves) && d == Dir(c) && d in t
    ensures var u := t[d := t[d] + [c]]; Grown(u, leaves, {}) && Justified(u, leaves) && Apart(u, m)
  {
    var u := t[d := t[d] + [c]];
    LinkKnown(t, leaves, c, d, u);
    assert u.Keys == t.Keys;
  }

  /** The climb from one file: links each node to its parent until the parent was known already. */
  method Climb(m: map<bytes, bytes>, name: bytes, dirs: map<bytes, seq<Entry>>, ghost t: Tree, ghost leaves: set<bytes>)
    returns (clash: Option<bytes>, out: map<bytes, seq<Entry>>, ghost u: Tree)
    requires name in m && name !in leaves && leaves <= m.Keys && AllValid(m.Keys)
    requires Grown(t, leaves, {}) && Shows(dirs, t, m) && Justified(t, leaves) && Apart(t, m)
    ensures clash.Some? ==> clash.value in m && clash.value in Ancestors(name)
    ensures clash.None? ==>
      Grown(u, leaves + {name}, {}) && Shows(out, u, m) && Justified(u, leaves + {name}) && Apart(u, m)
  {
    out, u := dirs, t;
    var child := Entry(Base(name), |m[name]|, false);
    var dir := Dir(name);
    ghost var c := name;
    ghost var now := leaves + {name};
    assert ValidPath(name);
    OwnAncestor(name);
    AddLeaf(t, leaves, name);
    hide Grown, Justified, Apart, ValidPath, Ancestors, Rank;
    while true
      invariant c in Nodes(u, now) && dir == Dir(c) && child == EntryOf(c, m)
      invariant c != ROOT && ValidPath(c) && dir in Ancestors(name)
      invariant Grown(u, now, {c}) && Shows(out, u, m) && Justified(u, now) && Apart(u, m)
      decreases Rank(dir)
    {
      if dir in m { return Some(dir), out, u; }
      var known := dir in out;
      if known { ShowLink(out, u, m, dir, out[dir], u[dir], c); } else { ShowLink(out, u, m, dir, [], [], c); }
      out := out[dir := (if known then out[dir] else []) + [child]];
      if known || dir == ROOT {
        ClimbKnown(u, m, now, c, dir);
        u := u[dir := u[dir] + [c]];
        return None, out, u;
      }
      ClimbNew(u, m, now, name, c, dir);
      OwnAncestor(dir);
      u := u[dir := [] + [c]];
      assert u[dir] == [c];
      child := Entry(Base(dir), 0, true);
      c, dir := dir, Dir(dir);
    }
  }

  lemma JustRoot(m: map<bytes, bytes>, dirs: map<bytes, seq<Entry>>, t: Tree)
    requires AllValid(m.Keys) && dirs == map[ROOT := []] && t == map[ROOT := []]
    ensures Grown(t, {}, {}) && Shows(dirs, t, m) && Justified(t, {}) && Apart(t, m)
  {
    assert t.Keys - {ROOT} == {} && Nodes(t, {}) == {};
    assert ROOT !in m;
  }

  /** The climbs from every file, in whatever order the map yields them. */
  method Grow(m: map<bytes, bytes>)
    returns (clash: Option<bytes>, dirs: map<bytes, seq<Entry>>, ghost t: Tree, ghost name: bytes)
    requires AllValid(m.Keys)
    ensures clash.Some? ==> clash.value in m && name in m && clash.value in Ancestors(name)
    ensures clash.None? ==> Grown(t, m.Keys, {}) && Shows(dirs, t, m) && Justified(t, m.Keys) && Apart(t, m)
  {
    dirs := map[ROOT := []];
    t := map[ROOT := []];
    name := ROOT;
    JustRoot(m, dirs, t);
    var todo := m.Keys;
    ghost var leaves := {};
    hide Grown, Justified, Ancestors;
    while todo != {}
      invariant leaves + todo == m.Keys && leaves !! todo
      invariant Grown(t, leaves, {}) && Shows(dirs, t, m) && Justified(t, leaves) && Apart(t, m)
      decreases todo
    {
      var next :| next in todo;
      name := next;
      todo := todo - {next};
      clash, dirs, t := Climb(m, next, dirs, t, leaves);
      if clash.Some? { return; }
      leaves := leaves + {next};
    }
    assert leaves == m.Keys;
    clash := None;
  }

  method NewFS(files: seq<File>) returns (r: Outcome)
    ensures r.Fail? <==> SomeInvalid(files) || SomeRepeated(files) || SomeFileAbove(files)
    ensures r.Fail? ==> Faulty(files, r.error)
    ensures r.Built? ==> Holds(r.files, files) && DirsOf(r.dirs.Keys, r.files.Keys) && r.files.Keys !! r.dirs.Keys
    ensures r.Built? ==> forall d :: d in r.dirs ==> Lists(r.dirs[d], d, r.files, r.dirs.Keys)
  {
    var m, error := Collect(files);
    if error.Some? { return Fail(error.value); }
    var clash, dirs;
    ghost var t, name;
    clash, dirs, t, name := Grow(m);
    if clash.Some? {
      Clashes(files, m, clash.value, name);
      assert files[..|files|] == files;
      return Fail(FileAndDir(clash.value));
    }
    NoClash(files, m, t);
    dirs := SortAll(dirs, t, m);
    r := Built(m, dirs);
  }

  lemma Clashes(files: seq<File>, m: map<bytes, bytes>, d: bytes, name: bytes)
    requires Holds(m, files) && d in m && name in m && d in Ancestors(name)
    ensures SomeFileAbove(files) && Among(d, files) && AboveOne(d, files)
  {
    var i :| 0 <= i < |files| && files[i].path == d;
    var j :| 0 <= j < |files| && files[j].path == name;
    assert files[i].path in Ancestors(files[j].path);
  }

  /** A finished tree has every ancestor of every file, and none of them is a file. */
  lemma NoClash(files: seq<File>, m: map<bytes, bytes>, t: Tree)
    requires Holds(m, files) && Grown(t, m.Keys, {}) && Justified(t, m.Keys) && Apart(t, m)
    ensures !SomeFileAbove(files) && DirsOf(t.Keys, m.Keys)
  {
    forall f | f in m ensures Ancestors(f) <= t.Keys { AncestorsKnown(t, m.Keys, f); }
    forall i, j | 0 <= i < |files| && 0 <= j < |files| ensures files[i].path !in Ancestors(files[j].path) {
      assert files[i].path in m && files[j].path in m;
    }
  }

  method SortAll(dirs: map<bytes, seq<Entry>>, ghost t: Tree, ghost m: map<bytes, bytes>)
    returns (out: map<bytes, seq<Entry>>)
    requires Grown(t, m.Keys, {}) && Shows(dirs, t, m) && AllValid(m.Keys) && Apart(t, m)
    ensures out.Keys == t.Keys && forall d :: d in out ==> Lists(out[d], d, m, out.Keys)
  {
    out := dirs;
    var todo := dirs.Keys;
    while todo != {}
      invariant todo <= dirs.Keys && out.Keys == dirs.Keys
      invariant forall d :: d in todo ==> out[d] == dirs[d]
      invariant forall d :: d in dirs.Keys - todo ==> Lists(out[d], d, m, t.Keys)
      decreases |todo|
    {
      var d :| d in todo;
      todo := todo - {d};
      assert ShowsOne(dirs[d], t[d], m);
      ListingDone(d, dirs[d], t, m);
      out := out[d := SortByName(out[d])];
    }
  }

  // ------------------------------------------------------------ reading a directory in pages

  class OpenDir {
    const entries: seq<Entry>
    var off: nat

    constructor (entries: seq<Entry>)
      ensures this.entries == entries && off == 0
    {
      this.entries := entries;
      off := 0;
    }

    /** (page, end of directory) */
    method ReadDir(n: int) returns (page: seq<Entry>, eof: bool)
      requires off <= |entries|
      modifies this
      ensures off <= |entries|
      ensures (page, off, eof) == Page(entries, old(off), n)
    {
      var rest := entries[off..];
      if n <= 0 {
        off := |entries|;
        return rest, false;
      }
      if |rest| == 0 { return [], true; }
      var k := if n < |rest| then n else |rest|;
      assert rest[..k] == entries[off..off + k];
      off := off + k;
      page, eof := rest[..k], false;
    }
  }

  function Page(entries: seq<Entry>, off: nat, n: int): (seq<Entry>, nat, bool)
    requires off <= |entries|
  {
    if n <= 0 then (entries[off..], |entries|, false)
    else if off == |entries| then ([], off, true)
    else
      var stop := if off + n < |entries| then off + n else |entries|;
      (entries[off..stop], stop, false)
  }

  /**
   A call with a positive size delivers that many entries, or those that are left, and the end when
   there are none; any other call delivers everything left and no end.
  */
  lemma PageIs(entries: seq<Entry>, off: nat, n: int)
    requires off <= |entries|
    ensures var (page, next, eof) := Page(entries, off, n);
      && off <= next <= |entries| && page == entries[off..next]
      && |page| == (if n <= 0 || n > |entries| - off then |entries| - off else n)
      && (eof <==> n > 0 && page == [])
  {
  }

  /** The pages that a run of calls returns, joined, and where the last one stopped. */
  function Pages(entries: seq<Entry>, off: nat, ns: seq<int>): (seq<Entry>, nat)
    requires off <= |entries|
    decreases |ns|
  {
    if ns == [] then ([], off)
    else
      var (page, next, _) := Page(entries, off, ns[0]);
      var (more, last) := Pages(entries, next, ns[1..]);
      (page + more, last)
  }

  /** Whatever the page sizes, the pages join up with nothing missing and nothing twice. */
  lemma {:induction false} PagesJoin(entries: seq<Entry>, off: nat, ns: seq<int>)
    requires off <= |entries|
    ensures var (all, last) := Pages(entries, off, ns); off <= last <= |entries| && all == entries[off..last]
    decreases |ns|
  {
    if ns == [] {
    } else {
      var next := Page(entries, off, ns[0]).1;
      var last := Pages(entries, next, ns[1..]).1;
      PagesJoin(entries, next, ns[1..]);
      assert entries[off..last] == entries[off..next] + entries[next..last];
    }
  }

  /** The end is announced exactly when a positive page is asked for and nothing is left. */
  lemma EndAfterAll(entries: seq<Entry>, off: nat, ns: seq<int>, n: int)
    requires off <= |entries| && n > 0
    ensures off <= Pages(entries, off, ns).1 <= |entries|
    ensures Page(entries, Pages(entries, off, ns).1, n).2 <==> Pages(entries, off, ns).0 == entries[off..]
  {
    PagesJoin(entries, off, ns);
    var last := Pages(entries, off, ns).1;
    assert |entries[off..last]| == last - off && |entries[off..]| == |entries| - off;
    assert last == |entries| ==> entries[off..last] == entries[off..];
  }
}
