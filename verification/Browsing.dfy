/** What a visitor sees of a bag as a whole: listings that do not depend on the order of the
    file list, and a walk through folders that meets every file exactly once. */
module Browsing {
  import opened Text
  import opened DirectoryTree
  import opened Listing

  // ---- Order independence ------------------------------------------------------------------

  lemma {:induction false} TwiceMeansTwoPlaces<T>(s: seq<T>, x: T)
    requires multiset(s)[x] >= 2
    ensures exists i, j :: 0 <= i < j < |s| && s[i] == x && s[j] == x
  {
    assert s == [s[0]] + s[1..];
    if s[0] == x {
      assert x in s[1..];
      var j :| 0 <= j < |s| - 1 && s[1..][j] == x;
      assert s[0] == x && s[j + 1] == x;
    } else {
      TwiceMeansTwoPlaces(s[1..], x);
      var i, j :| 0 <= i < j < |s| - 1 && s[1..][i] == x && s[1..][j] == x;
      assert s[i + 1] == x && s[j + 1] == x;
    }
  }

  lemma NodeOnce(nodes: seq<Node>, x: Node)
    requires WellFormed(nodes)
    ensures multiset(nodes)[x] <= 1
  {
    forall i, j | 0 <= i < j < |nodes| ensures nodes[i] != nodes[j] {
      assert !(nodes[i].path <= nodes[j].path);
    }
    if multiset(nodes)[x] >= 2 {
      TwiceMeansTwoPlaces(nodes, x);
    }
  }

  lemma FileOnce(files: seq<File>, f: File)
    requires WellFormed(Places(files))
    ensures multiset(files)[f] <= 1
  {
    forall i, j | 0 <= i < j < |files| ensures files[i] != files[j] {
      assert !(Places(files)[i].path <= Places(files)[j].path);
    }
    if multiset(files)[f] >= 2 {
      TwiceMeansTwoPlaces(files, f);
    }
  }

  lemma PlaceOf(files: seq<File>, f: File) returns (i: nat)
    requires f in multiset(files)
    ensures i < |files| && files[i] == f
  {
    assert f in files;
    i :| 0 <= i < |files| && files[i] == f;
  }

  /** No two files of a rearranged bag clash. */
  lemma NoClashAfterRearranging(files: seq<File>, files': seq<File>, i: nat, j: nat)
    requires WellFormed(Places(files)) && multiset(files) == multiset(files')
    requires i < |files'| && j < |files'| && i != j
    ensures !(Place(files'[i]).path <= Place(files'[j]).path)
  {
    var a, b := files'[i], files'[j];
    assert a in multiset(files') && b in multiset(files');
    FileOnce(files, a);
    if a == b {
      TwoPlacesCount(files', if i < j then i else j, if i < j then j else i);
    } else {
      var k := PlaceOf(files, a);
      var l := PlaceOf(files, b);
      assert !(Places(files)[k].path <= Places(files)[l].path);
    }
  }

  lemma {:induction false} RearrangedWellFormed(files: seq<File>, files': seq<File>)
    requires WellFormed(Places(files)) && multiset(files) == multiset(files')
    ensures WellFormed(Places(files'))
  {
    forall i | 0 <= i < |files'| ensures ProperPath(Places(files')[i].path) {
      assert files'[i] in multiset(files');
      var k := PlaceOf(files, files'[i]);
      assert ProperPath(Places(files)[k].path);
    }
    forall i, j | 0 <= i < |files'| && 0 <= j < |files'| && i != j
      ensures !(Places(files')[i].path <= Places(files')[j].path)
    {
      NoClashAfterRearranging(files, files', i, j);
    }
  }

  lemma RearrangedHolds(files: seq<File>, files': seq<File>, p: Path, size: nat)
    requires multiset(files) == multiset(files')
    ensures IsFile(Places(files), p, size) ==> IsFile(Places(files'), p, size)
    ensures IsFolder(Places(files), p) ==> IsFolder(Places(files'), p)
  {
    if IsFile(Places(files), p, size) {
      var i :| 0 <= i < |files| && Places(files)[i].path == p && Places(files)[i].size == size;
      assert files[i] in multiset(files);
      var k := PlaceOf(files', files[i]);
      assert Places(files')[k] == Places(files)[i];
    }
    if p != [] && IsFolder(Places(files), p) {
      var i :| 0 <= i < |files| && p < Places(files)[i].path;
      assert files[i] in multiset(files);
      var k := PlaceOf(files', files[i]);
      assert Places(files')[k] == Places(files)[i];
    }
  }

  /** Bags holding the same files and folders show the same directories. */
  lemma SameContentsShowSame(nodes: seq<Node>, nodes': seq<Node>, q: Path)
    requires WellFormed(nodes) && WellFormed(nodes')
    requires forall p, size: nat :: IsFile(nodes, p, size) <==> IsFile(nodes', p, size)
    requires forall p :: IsFolder(nodes, p) <==> IsFolder(nodes', p)
    ensures Directory(nodes, q) == Directory(nodes', q)
  {
    var at, at' := Lookup(Build(nodes), q), Lookup(Build(nodes'), q);
    BuildHolds(nodes);
    BuildHolds(nodes');
    assert Holds(Build(nodes), nodes, q) && Holds(Build(nodes'), nodes', q);
    if at.Some? && at.value.Leaf? {
      assert IsFile(nodes', q, at.value.size);
    } else if at.Some? {
      forall e ensures e in ChildEntries(at.value.children) <==> e in ChildEntries(at'.value.children) {
        ChildrenListed(nodes, q, e);
        ChildrenListed(nodes', q, e);
      }
      assert ChildEntries(at.value.children) == ChildEntries(at'.value.children);
    } else {
      assert forall size: nat :: !IsFile(nodes', q, size);
    }
  }

  /** Any two runs of `ls` on the same well-formed bag, whatever the order of its file list
      and whatever the sort does with ties, return the same sequence. */
  lemma {:induction false} ListingIgnoresOrder(files: seq<File>, files': seq<File>, path: string,
                            r: seq<Entry>, r': seq<Entry>)
    requires WellFormed(Places(files)) && multiset(files) == multiset(files')
    requires Ordered(r, Scan(files, Trim(path), {}))
    requires Ordered(r', Scan(files', Trim(path), {}))
    ensures r == r'
  {
    RearrangedWellFormed(files, files');
    OrderedScanShows(files, path, r);
    OrderedScanShows(files', path, r');
    forall p, size: nat
      ensures IsFile(Places(files), p, size) <==> IsFile(Places(files'), p, size)
      ensures IsFolder(Places(files), p) <==> IsFolder(Places(files'), p)
    {
      RearrangedHolds(files, files', p, size);
      RearrangedHolds(files', files, p, size);
    }
    forall p ensures IsFolder(Places(files), p) <==> IsFolder(Places(files'), p) {
      RearrangedHolds(files, files', p, 0);
      RearrangedHolds(files', files, p, 0);
    }
    SameContentsShowSame(Places(files), Places(files'), PathSegments(path));
  }

  lemma ClashingScans(a: string, b: string, m: nat, n: nat)
    requires ProperSegment(a) && ProperSegment(b)
    ensures var x, y := Node([a], m), Node([a, b], n);
            && Proper([x, y]) && ScanNodes([x, y], [a], {}) == [Entry(a, m, false)]
            && Proper([y, x]) && ScanNodes([y, x], [a], {}) == [Entry(b, n, false), Entry(a, m, false)]
  {
    var x, y := Node([a], m), Node([a, b], n);
    assert [y, x][1..] == [x];
    assert ScanNodes([x], [a], {}) == [Entry(a, m, false)];
  }

  lemma {:induction false} ScanOfSpelledNames(nodes: seq<Node>, q: Path)
    requires Proper(nodes) && ProperPath(q)
    ensures Scan(FilesOf(nodes), Trim(Join(q)), {}) == ScanNodes(nodes, q, {})
  {
    PlacesOfSpelled(nodes);
    NameOfPath(q);
    ScanReadsSegments(FilesOf(nodes), Join(q), {});
  }

  /** Outside well-formed bags the order matters: with a file at `a` and another at `a/b`, the
      early exit hides the second exactly when it comes second. */
  lemma {:induction false} ListingDependsOnOrder(a: string, b: string, m: nat, n: nat)
    requires ProperSegment(a) && ProperSegment(b)
    ensures var x, y, at := Node([a], m), Node([a, b], n), Trim(Join([a]));
            && Scan(FilesOf([x, y]), at, {}) == [Entry(a, m, false)]
            && Scan(FilesOf([y, x]), at, {}) == [Entry(b, n, false), Entry(a, m, false)]
  {
    var x, y := Node([a], m), Node([a, b], n);
    ClashingScans(a, b, m, n);
    ScanOfSpelledNames([x, y], [a]);
    ScanOfSpelledNames([y, x], [a]);
  }

  // ---- Walking the listing -------------------------------------------------------------------

  function Deepest(nodes: seq<Node>): nat {
    if nodes == [] then 0
    else
      var rest := Deepest(nodes[1..]);
      if |nodes[0].path| > rest then |nodes[0].path| else rest
  }

  lemma {:induction false} DeepestBounds(nodes: seq<Node>, i: nat)
    requires i < |nodes|
    ensures |nodes[i].path| <= Deepest(nodes)
  {
    if i > 0 {
      DeepestBounds(nodes[1..], i - 1);
    }
  }

  lemma FolderAboveDeepest(nodes: seq<Node>, p: Path)
    requires IsFolder(nodes, p) && p != []
    ensures |p| < Deepest(nodes)
  {
    var i :| 0 <= i < |nodes| && p < nodes[i].path;
    DeepestBounds(nodes, i);
  }

  ghost predicate AllListed(nodes: seq<Node>, q: Path, entries: seq<Entry>) {
    forall e | e in entries :: Listed(nodes, q, {}, e)
  }

  /** A folder's listing holds the entries that belong there, each once. */
  lemma DirectoryLists(nodes: seq<Node>, q: Path)
    requires WellFormed(nodes) && IsFolder(nodes, q)
    ensures forall e :: e in Directory(nodes, q) <==> Listed(nodes, q, {}, e)
    ensures KeysDistinct(Directory(nodes, q))
  {
    BuildHolds(nodes);
    assert Holds(Build(nodes), nodes, q);
    forall e {
      ChildrenListed(nodes, q, e);
    }
    var r := Directory(nodes, q);
    forall i, j | 0 <= i < j < |r| ensures !SameKey(r[i], r[j]) {
      BeforeAsymmetric(r[i], r[j]);
    }
  }

  /** Every file met by opening the folders from `q` on, in the order they are shown. */
  ghost function Walk(nodes: seq<Node>, q: Path): seq<Node>
    requires WellFormed(nodes) && IsFolder(nodes, q)
    decreases if |q| < Deepest(nodes) then Deepest(nodes) - |q| else 0, 1, 0
  {
    DirectoryLists(nodes, q);
    WalkEntries(nodes, q, Directory(nodes, q))
  }

  ghost function WalkEntries(nodes: seq<Node>, q: Path, entries: seq<Entry>): seq<Node>
    requires WellFormed(nodes) && IsFolder(nodes, q) && AllListed(nodes, q, entries)
    decreases if |q| < Deepest(nodes) then Deepest(nodes) - |q| else 0, 0, |entries|
  {
    if entries == [] then []
    else
      var e := entries[0];
      assert Listed(nodes, q, {}, e);
      (if e.isFolder then
         FolderAboveDeepest(nodes, q + [e.name]);
         Walk(nodes, q + [e.name])
       else [Node(q + [e.name], e.size)])
      + WalkEntries(nodes, q, entries[1..])
  }

  /** The entry through which a walk at `q` reaches a node below. */
  function Gate(q: Path, x: Node): Entry
    requires q < x.path
  {
    if |x.path| == |q| + 1 then Entry(x.path[|q|], x.size, false) else Entry(x.path[|q|], 0, true)
  }

  lemma GateListed(nodes: seq<Node>, q: Path, x: Node)
    requires x in nodes && q < x.path
    ensures Listed(nodes, q, {}, Gate(q, x))
  {
    var i :| 0 <= i < |nodes| && nodes[i] == x;
    StepBelow(x.path, q, x.path[|q|]);
  }

  lemma GateOf(nodes: seq<Node>, q: Path, x: Node, e: Entry)
    requires Listed(nodes, q, {}, e)
    ensures e.isFolder ==> (q + [e.name] < x.path <==> q < x.path && Gate(q, x) == e)
    ensures !e.isFolder ==> (x == Node(q + [e.name], e.size) <==> q < x.path && Gate(q, x) == e)
  {
    StepBelow(x.path, q, e.name);
  }

  lemma WalkCount(nodes: seq<Node>, q: Path, x: Node)
    requires WellFormed(nodes) && IsFolder(nodes, q)
    ensures multiset(Walk(nodes, q))[x] == if x in nodes && q < x.path then 1 else 0
    decreases if |q| < Deepest(nodes) then Deepest(nodes) - |q| else 0, 1, 0
  {
    DirectoryLists(nodes, q);
    WalkEntriesCount(nodes, q, Directory(nodes, q), x);
    if x in nodes && q < x.path {
      GateListed(nodes, q, x);
    }
  }

  lemma {:induction false} WalkEntriesCount(nodes: seq<Node>, q: Path, entries: seq<Entry>, x: Node)
    requires WellFormed(nodes) && IsFolder(nodes, q) && AllListed(nodes, q, entries)
    requires KeysDistinct(entries)
    ensures multiset(WalkEntries(nodes, q, entries))[x]
            == if x in nodes && q < x.path && Gate(q, x) in entries then 1 else 0
    decreases if |q| < Deepest(nodes) then Deepest(nodes) - |q| else 0, 0, |entries|
  {
    if entries != [] {
      var e, rest := entries[0], entries[1..];
      assert Listed(nodes, q, {}, e);
      assert entries == [e] + rest;
      WalkEntriesCount(nodes, q, rest, x);
      GateOf(nodes, q, x, e);
      forall i | 0 <= i < |rest| ensures rest[i] != e {
        assert !SameKey(entries[0], entries[i + 1]);
      }
      if e.isFolder {
        FolderAboveDeepest(nodes, q + [e.name]);
        WalkCount(nodes, q + [e.name], x);
      } else {
        var i :| 0 <= i < |nodes| && nodes[i].path == q + [e.name] && nodes[i].size == e.size;
        assert nodes[i] == Node(q + [e.name], e.size);
      }
    }
  }

  function TotalSize(nodes: seq<Node>): nat {
    if nodes == [] then 0 else nodes[0].size + TotalSize(nodes[1..])
  }

  lemma {:induction false} TotalSizeWithout(nodes: seq<Node>, i: nat)
    requires i < |nodes|
    ensures TotalSize(nodes) == nodes[i].size + TotalSize(nodes[..i] + nodes[i + 1..])
  {
    if i == 0 {
      assert nodes[..0] + nodes[1..] == nodes[1..];
    } else {
      TotalSizeWithout(nodes[1..], i - 1);
      var rest := nodes[..i] + nodes[i + 1..];
      assert rest[1..] == nodes[1..][..i - 1] + nodes[1..][i..];
    }
  }

  lemma Without<T>(s: seq<T>, k: nat)
    requires k < |s|
    ensures multiset(s) == multiset{s[k]} + multiset(s[..k] + s[k + 1..])
    ensures s == s[..k] + [s[k]] + s[k + 1..]
  {
    assert s == s[..k] + [s[k]] + s[k + 1..];
  }

  lemma SameRest<T>(x: T, a: multiset<T>, b: multiset<T>)
    requires multiset{x} + a == multiset{x} + b
    ensures a == b
  {
    assert a == multiset{x} + a - multiset{x};
    assert b == multiset{x} + b - multiset{x};
  }

  lemma SameTail<T>(a: seq<T>, b: seq<T>, k: nat)
    requires multiset(a) == multiset(b) && a != [] && k < |b| && b[k] == a[0]
    ensures multiset(a[1..]) == multiset(b[..k] + b[k + 1..])
  {
    Without(b, k);
    Without(a, 0);
    assert a[..0] + a[1..] == a[1..];
    SameRest(a[0], multiset(a[1..]), multiset(b[..k] + b[k + 1..]));
  }

  lemma {:induction false} TotalSizeIgnoresOrder(a: seq<Node>, b: seq<Node>)
    requires multiset(a) == multiset(b)
    ensures TotalSize(a) == TotalSize(b)
    decreases |a|
  {
    if a == [] {
      assert |multiset(b)| == 0;
    } else {
      assert a[0] in multiset(b);
      var i :| 0 <= i < |b| && b[i] == a[0];
      SameTail(a, b, i);
      TotalSizeIgnoresOrder(a[1..], b[..i] + b[i + 1..]);
      TotalSizeWithout(b, i);
    }
  }

  lemma WalkIsWholeBag(nodes: seq<Node>)
    requires WellFormed(nodes)
    ensures multiset(Walk(nodes, [])) == multiset(nodes)
  {
    var met := Walk(nodes, []);
    forall x: Node ensures multiset(met)[x] == multiset(nodes)[x] {
      WalkCount(nodes, [], x);
      NodeOnce(nodes, x);
      assert x in nodes <==> x in multiset(nodes);
      assert x in nodes ==> x.path != [];
    }
  }

  /** Opening every folder from the root meets each file of a well-formed bag exactly once,
      under its full name and with its size, so that counts and sizes agree with the bag. */
  lemma {:induction false} WalkMeetsEveryFileOnce(files: seq<File>)
    requires WellFormed(Places(files))
    ensures var met := Walk(Places(files), []);
            && multiset(met) == multiset(Places(files))
            && |met| == |files|
            && TotalSize(met) == TotalSize(Places(files))
    ensures forall i | 0 <= i < |files| ::
              Join(Place(files[i]).path) == Trim(files[i].name)
  {
    var nodes := Places(files);
    var met := Walk(nodes, []);
    WalkIsWholeBag(nodes);
    assert |multiset(met)| == |met| && |multiset(nodes)| == |nodes|;
    TotalSizeIgnoresOrder(met, nodes);
    forall i | 0 <= i < |files| ensures Join(Place(files[i]).path) == Trim(files[i].name) {
      JoinSplit(Trim(files[i].name));
    }
  }
}
