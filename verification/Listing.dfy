/** `ls`: the flat file list of a bag seen from one path. */
module Listing {
  import opened Text
  import opened DirectoryTree
  import opened Wrappers

  datatype Entry = Entry(name: string, size: nat, isFolder: bool)

  // ---- The order of a listing ------------------------------------------------------------

  /** The comparison handed to `sort.Slice`: folders first, then by name. */
  predicate Before(a: Entry, b: Entry) {
    if a.isFolder && !b.isFolder then true
    else if !a.isFolder && b.isFolder then false
    else Less(a.name, b.name)
  }

  lemma BeforeTransitive(a: Entry, b: Entry, c: Entry)
    requires Before(a, b) && Before(b, c)
    ensures Before(a, c)
  {
    if a.isFolder == b.isFolder == c.isFolder {
      LessTransitive(a.name, b.name, c.name);
    }
  }

  lemma BeforeAsymmetric(a: Entry, b: Entry)
    ensures !(Before(a, b) && Before(b, a))
  {
    LessAsymmetric(a.name, b.name);
  }

  ghost predicate SameKey(a: Entry, b: Entry) {
    a.name == b.name && a.isFolder == b.isFolder
  }

  lemma BeforeTotal(a: Entry, b: Entry)
    ensures SameKey(a, b) || Before(a, b) || Before(b, a)
  {
    LessTotal(a.name, b.name);
  }

  /** In words: folders stand before files, and names ascend among entries of one kind. */
  lemma BeforeExactly(a: Entry, b: Entry)
    ensures Before(a, b) <==>
            || (a.isFolder && !b.isFolder)
            || (a.isFolder == b.isFolder
                && exists k :: 0 <= k <= |a.name| && k < |b.name| && a.name[..k] == b.name[..k]
                               && (k == |a.name| || a.name[k] < b.name[k]))
  {
    LessExactly(a.name, b.name);
  }

  /** `a` is `b`, or an initial part of it, or has the smaller character where they part. */
  ghost predicate NotAfter(a: string, b: string) {
    exists k :: 0 <= k <= |a| && k <= |b| && a[..k] == b[..k] && (k == |a| || (k < |b| && a[k] < b[k]))
  }

  /** What a reader sees of a sorted listing. */
  lemma SortedReads(r: seq<Entry>, i: nat, j: nat)
    requires Sorted(r) && i < j < |r|
    ensures !(r[j].isFolder && !r[i].isFolder)
    ensures r[i].isFolder == r[j].isFolder ==> NotAfter(r[i].name, r[j].name)
  {
    BeforeExactly(r[j], r[i]);
    BeforeTotal(r[i], r[j]);
    BeforeExactly(r[i], r[j]);
    var a, b := r[i].name, r[j].name;
    if a == b {
      assert a[..|a|] == b[..|a|];
    }
  }

  lemma BeforeExtends(a: Entry, b: Entry, c: Entry)
    requires !Before(c, b)
    ensures Before(a, b) ==> Before(a, c)
  {
    BeforeTotal(b, c);
    if Before(a, b) && Before(b, c) {
      BeforeTransitive(a, b, c);
    }
  }

  ghost predicate Sorted(s: seq<Entry>) {
    forall i, j | 0 <= i < j < |s| :: !Before(s[j], s[i])
  }

  ghost predicate StrictlySorted(s: seq<Entry>) {
    forall i, j | 0 <= i < j < |s| :: Before(s[i], s[j])
  }

  ghost predicate KeysDistinct(s: seq<Entry>) {
    forall i, j | 0 <= i < j < |s| :: !SameKey(s[i], s[j])
  }

  ghost predicate Keyed(s: set<Entry>) {
    forall a, b | a in s && b in s && a != b :: !SameKey(a, b)
  }

  ghost predicate Contains(r: seq<Entry>, s: set<Entry>) {
    forall e :: e in r <==> e in s
  }

  lemma SortedWith(r: seq<Entry>, k: nat, e: Entry)
    requires Sorted(r) && k <= |r|
    requires forall j | 0 <= j < k :: !Before(e, r[j])
    requires forall j | k <= j < |r| :: !Before(r[j], e)
    ensures Sorted(r[..k] + [e] + r[k..])
  {
  }

  method InsertSorted(r: seq<Entry>, e: Entry) returns (r': seq<Entry>)
    requires Sorted(r)
    ensures Sorted(r') && multiset(r') == multiset(r) + multiset{e}
  {
    var k := |r|;
    while k > 0 && Before(e, r[k - 1])
      invariant 0 <= k <= |r|
      invariant forall j | k <= j < |r| :: Before(e, r[j])
    {
      k := k - 1;
    }
    forall j | 0 <= j < k ensures !Before(e, r[j]) {
      if j < k - 1 {
        BeforeExtends(e, r[j], r[k - 1]);
      }
    }
    forall j | k <= j < |r| ensures !Before(r[j], e) {
      BeforeAsymmetric(r[j], e);
    }
    SortedWith(r, k, e);
    r' := r[..k] + [e] + r[k..];
    assert r == r[..k] + r[k..];
  }

  /** `sort.Slice`, which is free to be unstable: callers only know that the result is a
      sorted rearrangement. */
  method SortSlice(s: seq<Entry>) returns (r: seq<Entry>)
    ensures Sorted(r)
    ensures multiset(r) == multiset(s)
  {
    r := [];
    for i := 0 to |s|
      invariant Sorted(r)
      invariant multiset(r) == multiset(s[..i])
    {
      r := InsertSorted(r, s[i]);
      assert s[..i + 1] == s[..i] + [s[i]];
    }
    assert s[..|s|] == s;
  }

  lemma SortedDistinctIsStrict(r: seq<Entry>)
    requires Sorted(r) && KeysDistinct(r)
    ensures StrictlySorted(r)
  {
    forall i, j | 0 <= i < j < |r| ensures Before(r[i], r[j]) {
      BeforeTotal(r[i], r[j]);
    }
  }

  lemma FirstIsMember(a: seq<Entry>, s: set<Entry>)
    requires Contains(a, s) && a != []
    ensures a[0] in s
  {
  }

  /** A set of entries has at most one strictly sorted listing. */
  lemma {:induction false} ListingUnique(a: seq<Entry>, b: seq<Entry>, s: set<Entry>)
    requires StrictlySorted(a) && Contains(a, s)
    requires StrictlySorted(b) && Contains(b, s)
    ensures a == b
    decreases |a|
  {
    if a == [] {
      if b != [] {
        FirstIsMember(b, s);
      }
    } else {
      FirstIsMember(a, s);
      assert a[0] in b;
      var i :| 0 <= i < |b| && b[i] == a[0];
      FirstIsMember(b, s);
      var j :| 0 <= j < |a| && a[j] == b[0];
      BeforeAsymmetric(a[0], b[0]);
      assert a[0] == b[0];
      forall e ensures e in a[1..] <==> e in s - {a[0]} {
        TailMember(a, e);
      }
      forall e ensures e in b[1..] <==> e in s - {a[0]} {
        TailMember(b, e);
      }
      ListingUnique(a[1..], b[1..], s - {a[0]});
    }
  }

  lemma TailMember(a: seq<Entry>, e: Entry)
    requires StrictlySorted(a) && a != []
    ensures e in a[1..] <==> e in a && e != a[0]
  {
    BeforeAsymmetric(a[0], a[0]);
    if e in a && e != a[0] {
      var i :| 0 <= i < |a| && a[i] == e;
      assert a[1..][i - 1] == e;
    }
  }

  lemma {:induction false} LeastExists(s: set<Entry>)
    requires s != {} && Keyed(s)
    ensures exists m :: IsLeast(m, s)
    decreases |s|
  {
    var x :| x in s;
    var rest := s - {x};
    if rest == {} {
      assert forall e | e in s && e != x :: e in rest;
      assert IsLeast(x, s);
    } else {
      LeastExists(rest);
      var m :| IsLeast(m, rest);
      BeforeTotal(x, m);
      if Before(x, m) {
        forall e | e in s && e != x ensures Before(x, e) {
          if e != m {
            BeforeTransitive(x, m, e);
          }
        }
        assert IsLeast(x, s);
      } else {
        assert IsLeast(m, s);
      }
    }
  }

  ghost predicate IsLeast(m: Entry, s: set<Entry>) {
    m in s && forall e | e in s && e != m :: Before(m, e)
  }

  /** The one strictly sorted listing of a set of entries. */
  ghost function SortedListing(s: set<Entry>): (r: seq<Entry>)
    requires Keyed(s)
    ensures StrictlySorted(r) && Contains(r, s)
    decreases |s|
  {
    if s == {} then []
    else
      LeastExists(s);
      var m :| IsLeast(m, s);
      var rest := SortedListing(s - {m});
      assert forall i | 0 <= i < |rest| :: rest[i] in rest;
      [m] + rest
  }

  // ---- The scan --------------------------------------------------------------------------

  /** One file of a bag, as the storage daemon and the torrent header report it. */
  datatype File = File(name: string, size: nat)

  /** What one file contributes to the listing at the trimmed path `at`. */
  datatype Visit = Skip | Folder(dir: string) | Item(entry: Entry) | Exact(entry: Entry)

  function VisitBelow(name: string, size: nat, rest: string): Visit {
    if SEP in rest then Folder(Split(rest)[0]) else Item(Entry(Base(name), size, false))
  }

  function VisitName(name: string, size: nat, at: string): Visit {
    if at == "." || at == "" then VisitBelow(name, size, name)
    else if at + [SEP] <= name then VisitBelow(name, size, name[|at| + 1..])
    else if at == name then Exact(Entry(Base(name), size, false))
    else Skip
  }

  function VisitFile(f: File, at: string): Visit {
    VisitName(Trim(f.name), f.size, at)
  }

  function Appended(visit: Visit, found: set<string>): seq<Entry> {
    match visit
    case Skip => []
    case Item(e) => [e]
    case Exact(e) => [e]
    case Folder(d) => if d in found then [] else [Entry(d, 0, true)]
  }

  function Marked(visit: Visit, found: set<string>): set<string> {
    if visit.Folder? then found + {visit.dir} else found
  }

  /** The entries in the order the loop appends them; an exact match ends it. */
  function Scan(files: seq<File>, at: string, found: set<string>): seq<Entry> {
    if files == [] then []
    else
      var visit := VisitFile(files[0], at);
      Appended(visit, found) + if visit.Exact? then [] else Scan(files[1..], at, Marked(visit, found))
  }

  // ---- The scan on segments ----------------------------------------------------------------

  /** The segments a requested path stands for. */
  function PathSegments(path: string): Path {
    TrimmedSegments(Trim(path))
  }

  function TrimmedSegments(at: string): Path {
    if at == "." || at == "" then [] else Split(at)
  }

  function Place(f: File): (n: Node)
    ensures n.path != []
  {
    Node(Split(Trim(f.name)), f.size)
  }

  function Places(files: seq<File>): (nodes: seq<Node>)
    ensures |nodes| == |files|
    ensures forall i | 0 <= i < |files| :: nodes[i] == Place(files[i])
  {
    seq(|files|, i requires 0 <= i < |files| => Place(files[i]))
  }

  function VisitNode(n: Node, q: Path): Visit
    requires n.path != []
  {
    if q < n.path then
      if |n.path| == |q| + 1 then Item(Entry(n.path[|q|], n.size, false)) else Folder(n.path[|q|])
    else if q == n.path then Exact(Entry(n.path[|q| - 1], n.size, false))
    else Skip
  }

  ghost predicate Proper(nodes: seq<Node>) {
    forall i | 0 <= i < |nodes| :: ProperPath(nodes[i].path)
  }

  function ScanNodes(nodes: seq<Node>, q: Path, found: set<string>): seq<Entry>
    requires Proper(nodes)
  {
    if nodes == [] then []
    else
      var visit := VisitNode(nodes[0], q);
      Appended(visit, found) + if visit.Exact? then [] else ScanNodes(nodes[1..], q, Marked(visit, found))
  }

  lemma VisitBelowMeaning(name: string, size: nat, rest: string, q: Path)
    requires ProperPath(Split(name)) && Split(name) == q + Split(rest)
    ensures VisitBelow(name, size, rest) == VisitNode(Node(Split(name), size), q)
  {
    var p := Split(name);
    assert p[|p| - 1] in p;
    BaseIsLastSegment(name);
  }

  lemma VisitExactly(name: string, size: nat)
    requires ProperPath(Split(name))
    ensures Exact(Entry(Base(name), size, false)) == VisitNode(Node(Split(name), size), Split(name))
  {
    var p := Split(name);
    assert p[|p| - 1] in p;
    BaseIsLastSegment(name);
  }

  lemma OutsideIsSkipped(name: string, at: string)
    requires !(at + [SEP] <= name) && at != name
    ensures !(Split(at) < Split(name)) && Split(at) != Split(name)
  {
    PrefixIsSegmentPrefix(at, name);
    if Split(at) == Split(name) {
      SplitInjective(at, name);
    }
  }

  lemma {:induction false} VisitMeaning(name: string, size: nat, at: string)
    requires ProperPath(Split(name))
    ensures VisitName(name, size, at) == VisitNode(Node(Split(name), size), TrimmedSegments(at))
  {
    if at == "." || at == "" {
      VisitBelowMeaning(name, size, name, []);
    } else if at + [SEP] <= name {
      SplitAfterPrefix(at, name);
      VisitBelowMeaning(name, size, name[|at| + 1..], Split(at));
    } else if at == name {
      VisitExactly(name, size);
      assert !(name + [SEP] <= name);
    } else {
      OutsideIsSkipped(name, at);
    }
  }

  /** Reading names as strings or as segments makes no difference to the scan. */
  lemma {:induction false} ScanReadsSegments(files: seq<File>, path: string, found: set<string>)
    requires Proper(Places(files))
    ensures Scan(files, Trim(path), found) == ScanNodes(Places(files), PathSegments(path), found)
  {
    if files != [] {
      PlacesOfRest(files);
      VisitMeaning(Trim(files[0].name), files[0].size, Trim(path));
      ScanReadsSegments(files[1..], path, Marked(VisitFile(files[0], Trim(path)), found));
    }
  }

  lemma PlacesOfRest(files: seq<File>)
    requires files != [] && Proper(Places(files))
    ensures Places(files)[0] == Place(files[0]) && Places(files)[1..] == Places(files[1..])
    ensures ProperPath(Place(files[0]).path) && Proper(Places(files[1..]))
  {
    assert ProperPath(Places(files)[0].path);
  }

  // ---- What the scan yields on a well-formed bag -------------------------------------------

  lemma IsFileCons(nodes: seq<Node>, p: Path, size: nat)
    requires nodes != []
    ensures IsFile(nodes, p, size) <==> nodes[0] == Node(p, size) || IsFile(nodes[1..], p, size)
  {
    if IsFile(nodes, p, size) {
      var i :| 0 <= i < |nodes| && nodes[i].path == p && nodes[i].size == size;
      assert i > 0 ==> nodes[1..][i - 1] == nodes[i];
    }
  }

  lemma IsFolderCons(nodes: seq<Node>, p: Path)
    requires nodes != [] && p != []
    ensures IsFolder(nodes, p) <==> p < nodes[0].path || IsFolder(nodes[1..], p)
  {
    if IsFolder(nodes, p) {
      var i :| 0 <= i < |nodes| && p < nodes[i].path;
      assert i > 0 ==> nodes[1..][i - 1] == nodes[i];
    }
  }

  /** The entry belongs below `q`, folders in `found` aside. */
  ghost predicate Listed(nodes: seq<Node>, q: Path, found: set<string>, e: Entry) {
    if e.isFolder then e.size == 0 && e.name !in found && IsFolder(nodes, q + [e.name])
    else IsFile(nodes, q + [e.name], e.size)
  }

  ghost predicate NoneAt(nodes: seq<Node>, q: Path) {
    forall i | 0 <= i < |nodes| :: nodes[i].path != q
  }

  lemma StepBelow(p: Path, q: Path, name: string)
    ensures q + [name] == p <==> q < p && |p| == |q| + 1 && p[|q|] == name
    ensures q + [name] < p <==> q < p && |p| > |q| + 1 && p[|q|] == name
  {
    if q < p && p[|q|] == name {
      assert p == q + [name] + p[|q| + 1..];
    }
  }

  /** One step of the loop, read on the entries listed. */
  lemma ListedCons(nodes: seq<Node>, q: Path, found: set<string>, e: Entry)
    requires nodes != [] && nodes[0].path != [] && nodes[0].path != q
    ensures Listed(nodes, q, found, e) <==>
            || (match VisitNode(nodes[0], q)
                case Item(x) => e == x
                case Folder(d) => d !in found && e == Entry(d, 0, true)
                case _ => false)
            || Listed(nodes[1..], q, Marked(VisitNode(nodes[0], q), found), e)
  {
    StepBelow(nodes[0].path, q, e.name);
    IsFileCons(nodes, q + [e.name], e.size);
    IsFolderCons(nodes, q + [e.name]);
  }

  lemma {:induction false} ScanLists(nodes: seq<Node>, q: Path, found: set<string>)
    requires Proper(nodes) && NoneAt(nodes, q)
    ensures forall e :: e in ScanNodes(nodes, q, found) <==> Listed(nodes, q, found, e)
  {
    if nodes != [] {
      var after := Marked(VisitNode(nodes[0], q), found);
      ScanLists(nodes[1..], q, after);
      forall e ensures e in ScanNodes(nodes, q, found) <==> Listed(nodes, q, found, e) {
        ListedCons(nodes, q, found, e);
      }
    }
  }

  lemma WellFormedTail(nodes: seq<Node>)
    requires WellFormed(nodes) && nodes != []
    ensures WellFormed(nodes[1..])
  {
    forall i, j | 0 <= i < |nodes| - 1 && 0 <= j < |nodes| - 1 && i != j
      ensures !(nodes[1..][i].path <= nodes[1..][j].path)
    {
      assert !(nodes[i + 1].path <= nodes[j + 1].path);
    }
  }

  lemma FirstFileIsOnce(nodes: seq<Node>, size: nat)
    requires WellFormed(nodes) && nodes != []
    ensures !IsFile(nodes[1..], nodes[0].path, size)
  {
    forall i | 0 <= i < |nodes| - 1 ensures nodes[1..][i].path != nodes[0].path {
      assert !(nodes[0].path <= nodes[i + 1].path);
    }
  }

  /** The entry a visit appends has a key that no later entry has. */
  lemma NewKey(nodes: seq<Node>, q: Path, found: set<string>, x: Entry, e: Entry)
    requires WellFormed(nodes) && nodes != []
    requires VisitNode(nodes[0], q) == Item(x) || (VisitNode(nodes[0], q) == Folder(x.name) && x.isFolder)
    requires Listed(nodes[1..], q, Marked(VisitNode(nodes[0], q), found), e)
    ensures !SameKey(x, e)
  {
    FirstFileIsOnce(nodes, e.size);
    StepBelow(nodes[0].path, q, x.name);
  }

  lemma {:induction false} ScanKeysDistinct(nodes: seq<Node>, q: Path, found: set<string>)
    requires WellFormed(nodes) && NoneAt(nodes, q)
    ensures KeysDistinct(ScanNodes(nodes, q, found))
  {
    if nodes != [] {
      var after := Marked(VisitNode(nodes[0], q), found);
      var rest := ScanNodes(nodes[1..], q, after);
      WellFormedTail(nodes);
      ScanKeysDistinct(nodes[1..], q, after);
      ScanLists(nodes[1..], q, after);
      var s := ScanNodes(nodes, q, found);
      if s != rest {
        assert s == [s[0]] + rest;
        forall j | 0 <= j < |rest| ensures !SameKey(s[0], rest[j]) {
          assert rest[j] in rest;
          NewKey(nodes, q, found, s[0], rest[j]);
        }
      }
    }
  }

  /** At a file's own path the loop finds that file and nothing else. */
  lemma {:induction false} ScanAtFile(nodes: seq<Node>, q: Path, found: set<string>, k: nat)
    requires WellFormed(nodes) && k < |nodes| && nodes[k].path == q
    ensures ScanNodes(nodes, q, found) == [Entry(q[|q| - 1], nodes[k].size, false)]
  {
    if k > 0 {
      assert !(nodes[k].path <= nodes[0].path);
      WellFormedTail(nodes);
      ScanAtFile(nodes[1..], q, found, k - 1);
    }
  }

  lemma {:induction false} ProperJoinEnds(p: Path)
    requires ProperPath(p)
    ensures var s := Join(p); s != "" && s[0] != SEP && s[|s| - 1] != SEP
  {
    assert p[0] in p;
    if |p| > 1 {
      ProperJoinEnds(p[1..]);
    }
  }

  /** A proper path is read back from its slash-separated name. */
  lemma NameOfPath(p: Path)
    requires ProperPath(p)
    ensures Trim(Join(p)) == Join(p)
    ensures Split(Join(p)) == p
    ensures PathSegments(Join(p)) == p
  {
    ProperJoinEnds(p);
    SplitJoin(p);
    NameOfSegments(Join(p), p);
  }

  lemma {:induction false} NameOfSegments(s: string, p: Path)
    requires ProperPath(p) && Split(s) == p && s != "" && s[0] != SEP && s[|s| - 1] != SEP
    ensures Trim(s) == s && PathSegments(s) == p
  {
    TrimKeeps(s, Slashes);
    ProperIsNotDot(s, p);
  }

  lemma ProperIsNotDot(s: string, p: Path)
    requires ProperPath(p) && Split(s) == p
    ensures s != "" && s != "."
  {
    assert p[0] in p;
    assert ProperSegment(p[0]);
  }

  /** The file list whose names spell the given segments. */
  function FilesOf(nodes: seq<Node>): (files: seq<File>)
    ensures |files| == |nodes|
    ensures forall i | 0 <= i < |nodes| :: files[i] == File(Join(nodes[i].path), nodes[i].size)
  {
    seq(|nodes|, i requires 0 <= i < |nodes| => File(Join(nodes[i].path), nodes[i].size))
  }

  /** Spelled names are read back as the segments they spell. */
  lemma PlacesOfSpelled(nodes: seq<Node>)
    requires Proper(nodes)
    ensures Places(FilesOf(nodes)) == nodes
  {
    var files := FilesOf(nodes);
    forall i | 0 <= i < |nodes| ensures Place(files[i]) == nodes[i] {
      NameOfPath(nodes[i].path);
    }
  }

  // ---- The reference: children of a tree node ------------------------------------------------

  function ChildEntry(name: string, t: Tree): Entry {
    match t
    case Leaf(size) => Entry(name, size, false)
    case Branch(_) => Entry(name, 0, true)
  }

  ghost function ChildEntries(children: map<string, Tree>): (s: set<Entry>)
    ensures Keyed(s)
    ensures forall e :: e in s <==> e.name in children && e == ChildEntry(e.name, children[e.name])
  {
    set name | name in children :: ChildEntry(name, children[name])
  }

  /** What a directory tree shows at `q`: the sorted children of a folder, a file by
      itself, nothing where the tree has no node. */
  ghost function Show(t: Tree, q: Path): seq<Entry> {
    match Lookup(t, q)
    case None => []
    case Some(Leaf(size)) => [Entry(if q == [] then "" else q[|q| - 1], size, false)]
    case Some(Branch(children)) => SortedListing(ChildEntries(children))
  }

  ghost function Directory(nodes: seq<Node>, q: Path): seq<Entry> {
    Show(Build(nodes), q)
  }

  lemma ChildrenListed(nodes: seq<Node>, q: Path, e: Entry)
    requires WellFormed(nodes)
    ensures var at := Lookup(Build(nodes), q);
            Listed(nodes, q, {}, e) <==>
            at.Some? && at.value.Branch? && e.name in at.value.children
            && e == ChildEntry(e.name, at.value.children[e.name])
  {
    BuildHolds(nodes);
    LookupChild(Build(nodes), q, e.name);
    assert Holds(Build(nodes), nodes, q + [e.name]);
  }

  /** A sorted rearrangement of the scan: all that is known of the result of `ls`. */
  ghost predicate Ordered(r: seq<Entry>, scan: seq<Entry>) {
    Sorted(r) && multiset(r) == multiset(scan)
  }

  lemma {:induction false} DistinctCounts(s: seq<Entry>, e: Entry)
    requires KeysDistinct(s)
    ensures multiset(s)[e] <= 1
  {
    if s != [] {
      assert s == [s[0]] + s[1..];
      DistinctCounts(s[1..], e);
      if e in s[1..] {
        var i :| 0 <= i < |s| - 1 && s[1..][i] == e;
        assert !SameKey(s[0], s[i + 1]);
      }
    }
  }

  lemma TwoPlacesCount<T>(s: seq<T>, i: nat, j: nat)
    requires i < j < |s| && s[i] == s[j]
    ensures multiset(s)[s[i]] >= 2
  {
    assert s == s[..j] + [s[j]] + s[j + 1..];
    assert s[..j][i] == s[i];
  }

  /** Rearranging keeps the keys distinct. */
  lemma KeysStayDistinct(r: seq<Entry>, s: seq<Entry>)
    requires multiset(r) == multiset(s) && KeysDistinct(s)
    ensures KeysDistinct(r)
  {
    forall i, j | 0 <= i < j < |r| ensures !SameKey(r[i], r[j]) {
      DistinctCounts(s, r[i]);
      if r[i] == r[j] {
        TwoPlacesCount(r, i, j);
      }
      assert r[i] in multiset(s) && r[j] in multiset(s);
    }
  }

  /** Away from files a sorted arrangement of the scan lists what stands below, without ties. */
  lemma OrderedScanLists(nodes: seq<Node>, q: Path, r: seq<Entry>)
    requires WellFormed(nodes) && NoneAt(nodes, q) && Ordered(r, ScanNodes(nodes, q, {}))
    ensures StrictlySorted(r) && forall e :: e in r <==> Listed(nodes, q, {}, e)
  {
    var scan := ScanNodes(nodes, q, {});
    ScanLists(nodes, q, {});
    ScanKeysDistinct(nodes, q, {});
    KeysStayDistinct(r, scan);
    SortedDistinctIsStrict(r);
    forall e ensures e in r <==> Listed(nodes, q, {}, e) {
      assert e in r <==> e in multiset(r);
      assert e in scan <==> e in multiset(scan);
    }
  }

  /** What stands below a path, in strict order, is what the tree shows there. */
  lemma ListedIsShown(nodes: seq<Node>, q: Path, r: seq<Entry>)
    requires WellFormed(nodes) && NoneAt(nodes, q)
    requires StrictlySorted(r) && forall e :: e in r <==> Listed(nodes, q, {}, e)
    ensures r == Directory(nodes, q)
  {
    var at := Lookup(Build(nodes), q);
    BuildHolds(nodes);
    assert Holds(Build(nodes), nodes, q);
    NoLeafWithoutFile(Build(nodes), nodes, q);
    forall e {
      ChildrenListed(nodes, q, e);
    }
    if at == None {
      assert forall e :: !Listed(nodes, q, {}, e);
      ListingUnique(r, [], {});
    } else {
      var kids := ChildEntries(at.value.children);
      ListingUnique(r, SortedListing(kids), kids);
    }
  }

  /** The scan of a well-formed bag, in any sorted arrangement, shows exactly the tree node. */
  lemma {:induction false} ScanShowsTree(nodes: seq<Node>, q: Path, r: seq<Entry>)
    requires WellFormed(nodes) && Ordered(r, ScanNodes(nodes, q, {}))
    ensures r == Directory(nodes, q)
  {
    if k :| 0 <= k < |nodes| && nodes[k].path == q {
      BuildHolds(nodes);
      assert Holds(Build(nodes), nodes, q);
      ScanAtFile(nodes, q, {}, k);
      assert IsFile(nodes, q, nodes[k].size);
      SingletonOrdered(r, ScanNodes(nodes, q, {}));
    } else {
      OrderedScanLists(nodes, q, r);
      ListedIsShown(nodes, q, r);
    }
  }

  lemma SingletonOrdered(r: seq<Entry>, scan: seq<Entry>)
    requires multiset(r) == multiset(scan) && |scan| == 1
    ensures r == scan
  {
    assert |multiset(r)| == |r| && |multiset(scan)| == |scan|;
    assert r[0] in multiset(scan);
  }

  // ---- The method ------------------------------------------------------------------------

  /** What one turn of the loop appends and marks. */
  lemma ScanTurn(files: seq<File>, i: nat, at: string, found: set<string>, result: seq<Entry>)
    requires i < |files|
    ensures var visit := VisitFile(files[i], at);
            result + Scan(files[i..], at, found) ==
            result + Appended(visit, found)
            + if visit.Exact? then [] else Scan(files[i + 1..], at, Marked(visit, found))
  {
    assert files[i..][0] == files[i] && files[i..][1..] == files[i + 1..];
  }

  lemma {:induction false} OrderedScanShows(files: seq<File>, path: string, result: seq<Entry>)
    requires WellFormed(Places(files))
    requires Ordered(result, Scan(files, Trim(path), {}))
    ensures result == Directory(Places(files), PathSegments(path))
  {
    ScanReadsSegments(files, path, {});
    ScanShowsTree(Places(files), PathSegments(path), result);
  }

  /** A file of the bag stands directly below `q`, or at it. */
  ghost predicate ShowsFile(nodes: seq<Node>, q: Path, name: string, size: nat) {
    exists i :: 0 <= i < |nodes| && nodes[i].size == size
                && (nodes[i].path == q + [name] || (nodes[i].path == q && q != [] && name == q[|q| - 1]))
  }

  /** Some file of the bag lies deeper, below the folder `name` of `q`. */
  ghost predicate ShowsFolder(nodes: seq<Node>, q: Path, name: string) {
    exists i :: 0 <= i < |nodes| && |q| + 1 < |nodes[i].path| && nodes[i].path[..|q| + 1] == q + [name]
  }

  lemma ListedShows(nodes: seq<Node>, q: Path, e: Entry)
    requires Proper(nodes) && NoneAt(nodes, q)
    ensures Listed(nodes, q, {}, e) <==>
            if e.isFolder then e.size == 0 && ShowsFolder(nodes, q, e.name) else ShowsFile(nodes, q, e.name, e.size)
  {
    if e.isFolder {
      if i :| 0 <= i < |nodes| && q + [e.name] < nodes[i].path {
        assert nodes[i].path[..|q| + 1] == q + [e.name];
      }
      if i :| 0 <= i < |nodes| && |q| + 1 < |nodes[i].path| && nodes[i].path[..|q| + 1] == q + [e.name] {
        assert q + [e.name] < nodes[i].path;
      }
    }
  }

  lemma FileShows(nodes: seq<Node>, q: Path, k: nat, e: Entry)
    requires WellFormed(nodes) && k < |nodes| && nodes[k].path == q
    ensures e == Entry(q[|q| - 1], nodes[k].size, false) <==>
            if e.isFolder then e.size == 0 && ShowsFolder(nodes, q, e.name) else ShowsFile(nodes, q, e.name, e.size)
  {
    forall i | 0 <= i < |nodes|
      ensures !(|q| + 1 < |nodes[i].path| && nodes[i].path[..|q| + 1] == q + [e.name])
      ensures nodes[i].path != q + [e.name]
      ensures nodes[i].path == q <==> i == k
    {
      BelowIsLonger(nodes[i].path, q, e.name);
      assert i != k ==> !(nodes[k].path <= nodes[i].path);
    }
  }

  lemma BelowIsLonger(p: Path, q: Path, name: string)
    ensures |q| + 1 <= |p| && p[..|q| + 1] == q + [name] ==> q < p
  {
    assert |q| + 1 <= |p| && p[..|q| + 1] == q + [name] ==> p[..|q|] == p[..|q| + 1][..|q|];
  }

  /** For a well-formed bag: what is listed, each entry once. */
  lemma {:induction false} LsLists(nodes: seq<Node>, q: Path, r: seq<Entry>)
    requires WellFormed(nodes) && Ordered(r, ScanNodes(nodes, q, {}))
    ensures forall e: Entry :: e in r <==>
              if e.isFolder then e.size == 0 && ShowsFolder(nodes, q, e.name) else ShowsFile(nodes, q, e.name, e.size)
    ensures forall i, j | 0 <= i < j < |r| :: r[i] != r[j]
  {
    if k :| 0 <= k < |nodes| && nodes[k].path == q {
      ScanAtFile(nodes, q, {}, k);
      SingletonOrdered(r, ScanNodes(nodes, q, {}));
      forall e {
        FileShows(nodes, q, k, e);
      }
    } else {
      OrderedScanLists(nodes, q, r);
      BeforeAsymmetricEverywhere(r);
      forall e {
        ListedShows(nodes, q, e);
      }
    }
  }

  lemma BeforeAsymmetricEverywhere(r: seq<Entry>)
    requires StrictlySorted(r)
    ensures forall i, j | 0 <= i < j < |r| :: r[i] != r[j]
  {
    forall i, j | 0 <= i < j < |r| ensures r[i] != r[j] {
      BeforeAsymmetric(r[i], r[j]);
    }
  }

  lemma {:induction false} LsListsFiles(files: seq<File>, path: string, r: seq<Entry>)
    requires WellFormed(Places(files)) && Ordered(r, Scan(files, Trim(path), {}))
    ensures var nodes, q := Places(files), PathSegments(path);
            forall e: Entry :: e in r <==>
              if e.isFolder then e.size == 0 && ShowsFolder(nodes, q, e.name) else ShowsFile(nodes, q, e.name, e.size)
    ensures forall i, j | 0 <= i < j < |r| :: r[i] != r[j]
  {
    ScanReadsSegments(files, path, {});
    LsLists(Places(files), PathSegments(path), r);
  }

  /** `ls(files, path)`: folders first, names ascending within each kind; for a well-formed bag
      every file directly below the path or at it, and every folder that a deeper file lies in,
      once each. */
  method Ls(files: seq<File>, path: string) returns (result: seq<Entry>)
    ensures Ordered(result, Scan(files, Trim(path), {}))
    ensures WellFormed(Places(files)) ==> result == Directory(Places(files), PathSegments(path))
    ensures forall i, j | 0 <= i < j < |result| :: !(result[j].isFolder && !result[i].isFolder)
    ensures forall i, j | 0 <= i < j < |result| && result[i].isFolder == result[j].isFolder ::
              var a, b := result[i].name, result[j].name;
              exists k :: 0 <= k <= |a| && k <= |b| && a[..k] == b[..k] && (k == |a| || (k < |b| && a[k] < b[k]))
    ensures WellFormed(Places(files)) ==>
              var nodes, q := Places(files), PathSegments(path);
              && (forall e: Entry :: e in result <==>
                    if e.isFolder then e.size == 0 && ShowsFolder(nodes, q, e.name)
                    else ShowsFile(nodes, q, e.name, e.size))
              && (forall i, j | 0 <= i < j < |result| :: result[i] != result[j])
  {
    var normalizedPath := Trim(path);
    result := LsLoop(files, normalizedPath);
    result := SortSlice(result);
    forall i: nat, j: nat | i < j < |result|
      ensures !(result[j].isFolder && !result[i].isFolder)
      ensures result[i].isFolder == result[j].isFolder ==> NotAfter(result[i].name, result[j].name)
    {
      SortedReads(result, i, j);
    }
    if WellFormed(Places(files)) {
      OrderedScanShows(files, path, result);
      LsListsFiles(files, path, result);
    }
  }

  /** The part of the loop body that both the root and a folder use. */
  method AppendBelow(fileName: string, size: nat, subDir: string, result: seq<Entry>, foundDirs: set<string>)
    returns (result': seq<Entry>, foundDirs': set<string>)
    ensures result' == result + Appended(VisitBelow(fileName, size, subDir), foundDirs)
    ensures foundDirs' == Marked(VisitBelow(fileName, size, subDir), foundDirs)
  {
    result', foundDirs' := result, foundDirs;
    var dirName := Split(subDir)[0];
    if SEP in subDir {
      if dirName !in foundDirs {
        foundDirs' := foundDirs + {dirName};
        result' := result + [Entry(dirName, 0, true)];
      }
    } else {
      result' := result + [Entry(Base(fileName), size, false)];
    }
  }

  /** The loop body of `ls` for one trimmed name; `stop` is its `break`. */
  method Turn(fileName: string, size: nat, normalizedPath: string, result: seq<Entry>, foundDirs: set<string>)
    returns (result': seq<Entry>, foundDirs': set<string>, stop: bool)
    ensures var visit := VisitName(fileName, size, normalizedPath);
            && result' == result + Appended(visit, foundDirs)
            && foundDirs' == Marked(visit, foundDirs)
            && (stop <==> visit.Exact?)
  {
    result', foundDirs', stop := result, foundDirs, false;
    if normalizedPath == "." || normalizedPath == "" {
      result', foundDirs' := AppendBelow(fileName, size, fileName, result, foundDirs);
    } else if normalizedPath + [SEP] <= fileName {
      var subDir := fileName[|normalizedPath| + 1..];
      result', foundDirs' := AppendBelow(fileName, size, subDir, result, foundDirs);
    } else if normalizedPath == fileName {
      result' := result + [Entry(Base(fileName), size, false)];
      stop := true;
    }
  }

  /** The loop of `ls`, before the sort. */
  method LsLoop(files: seq<File>, normalizedPath: string) returns (result: seq<Entry>)
    ensures result == Scan(files, normalizedPath, {})
  {
    result := [];
    var foundDirs := {};
    for i := 0 to |files|
      invariant result + Scan(files[i..], normalizedPath, foundDirs) == Scan(files, normalizedPath, {})
    {
      ScanTurn(files, i, normalizedPath, foundDirs, result);
      var stop;
      result, foundDirs, stop := Turn(Trim(files[i].name), files[i].size, normalizedPath, result, foundDirs);
      if stop {
        break;
      }
    }
  }
}
