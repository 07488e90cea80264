/** When the order of a bag's file list can show in its listing. */
module ListingOrder {
  import opened Text
  import opened DirectoryTree
  import opened Listing
  import opened Browsing

  /** No file lies below another file, and what is listed twice has one size. */
  ghost predicate Tame(nodes: seq<Node>) {
    && (forall i, j | 0 <= i < |nodes| && 0 <= j < |nodes| :: !(nodes[i].path < nodes[j].path))
    && (forall i, j | 0 <= i < |nodes| && 0 <= j < |nodes| && nodes[i].path == nodes[j].path :: nodes[i].size == nodes[j].size)
  }

  /** Two results of `ls` on one bag, for one path, are the same whatever the order of the bag's
      file list and whatever the sort does with ties. */
  ghost predicate OrderFree(files: seq<File>) {
    forall files', path, r, r' |
      multiset(files') == multiset(files)
      && Ordered(r, Scan(files, Trim(path), {})) && Ordered(r', Scan(files', Trim(path), {})) ::
      r == r'
  }

  // ---- Sorted sequences ---------------------------------------------------------------------------------

  lemma InsertionPoint(r: seq<Entry>, e: Entry) returns (k: nat)
    requires Sorted(r)
    ensures k <= |r| && Sorted(r[..k] + [e] + r[k..])
  {
    k := |r|;
    while k > 0 && Before(e, r[k - 1])
      invariant 0 <= k <= |r|
      invariant forall j | k <= j < |r| :: Before(e, r[j])
    {
      k := k - 1;
    }
    forall j | 0 <= j < k ensures !Before(e, r[j]) {
      if j < k - 1 {
        BeforeExtends(e, r[j], r[k - 1]);
      }
    }
    forall j | k <= j < |r| ensures !Before(r[j], e) {
      BeforeAsymmetric(r[j], e);
    }
    SortedWith(r, k, e);
  }

  lemma {:induction false} SortedExists(s: seq<Entry>) returns (r: seq<Entry>)
    ensures Ordered(r, s)
  {
    if s == [] {
      r := [];
    } else {
      var rest := SortedExists(s[1..]);
      var k := InsertionPoint(rest, s[0]);
      r := rest[..k] + [s[0]] + rest[k..];
      assert rest == rest[..k] + rest[k..] && s == [s[0]] + s[1..];
    }
  }

  lemma HeadAndTail<T>(s: seq<T>)
    requires s != []
    ensures multiset(s) == multiset{s[0]} + multiset(s[1..])
  {
    assert s == [s[0]] + s[1..];
  }

  /** Where equal keys mean equal entries, a sorted arrangement is unique. */
  lemma {:induction false} SortedIsUnique(a: seq<Entry>, b: seq<Entry>)
    requires Sorted(a) && Sorted(b) && multiset(a) == multiset(b)
    requires forall x, y | x in a && y in a && SameKey(x, y) :: x == y
    ensures a == b
  {
    assert |multiset(a)| == |a| && |multiset(b)| == |b|;
    if a != [] {
      assert a[0] in multiset(b) && b[0] in multiset(a);
      var i :| 0 <= i < |b| && b[i] == a[0];
      var j :| 0 <= j < |a| && a[j] == b[0];
      BeforeTotal(a[0], b[0]);
      BeforeAsymmetric(a[0], a[0]);
      assert a[0] == b[0];
      HeadAndTail(a);
      HeadAndTail(b);
      SameRest(a[0], multiset(a[1..]), multiset(b[1..]));
      assert forall x | x in a[1..] :: x in a;
      SortedIsUnique(a[1..], b[1..]);
    }
  }

  // ---- What a scan counts ---------------------------------------------------------------------------------

  lemma {:induction false} FoldersOnce(nodes: seq<Node>, q: Path, found: set<string>, e: Entry)
    requires Proper(nodes) && NoneAt(nodes, q) && e.isFolder
    ensures multiset(ScanNodes(nodes, q, found))[e] <= if e.name in found then 0 else 1
  {
    if nodes != [] {
      var visit := VisitNode(nodes[0], q);
      FoldersOnce(nodes[1..], q, Marked(visit, found), e);
    }
  }

  lemma ItemAppended(n: Node, q: Path, found: set<string>, e: Entry)
    requires n.path != [] && n.path != q && !e.isFolder
    ensures multiset(Appended(VisitNode(n, q), found))[e] == if n == Node(q + [e.name], e.size) then 1 else 0
  {
    StepBelow(n.path, q, e.name);
  }

  lemma {:induction false} ItemsCounted(nodes: seq<Node>, q: Path, found: set<string>, e: Entry)
    requires Proper(nodes) && NoneAt(nodes, q) && !e.isFolder
    ensures multiset(ScanNodes(nodes, q, found))[e] == multiset(nodes)[Node(q + [e.name], e.size)]
  {
    if nodes != [] {
      var visit, rest := VisitNode(nodes[0], q), nodes[1..];
      ItemsCounted(rest, q, Marked(visit, found), e);
      ItemAppended(nodes[0], q, found, e);
      HeadAndTail(nodes);
      assert !visit.Exact?;
    }
  }

  lemma SameNodes(a: seq<Node>, b: seq<Node>)
    requires multiset(a) == multiset(b)
    ensures forall x :: x in a <==> x in b
  {
    forall x ensures x in a <==> x in b {
      assert x in a <==> x in multiset(a);
      assert x in b <==> x in multiset(b);
    }
  }

  lemma SameFolders(a: seq<Node>, b: seq<Node>, p: Path)
    requires multiset(a) == multiset(b)
    ensures IsFolder(a, p) ==> IsFolder(b, p)
  {
    SameNodes(a, b);
    if IsFolder(a, p) && p != [] {
      var i :| 0 <= i < |a| && p < a[i].path;
      assert a[i] in b;
      var j :| 0 <= j < |b| && b[j] == a[i];
    }
  }

  /** Away from files the scan of a rearranged list appends the same entries equally often. */
  lemma {:induction false} ScanCountsSame(a: seq<Node>, b: seq<Node>, q: Path)
    requires Proper(a) && Proper(b) && multiset(a) == multiset(b) && NoneAt(a, q)
    ensures multiset(ScanNodes(a, q, {})) == multiset(ScanNodes(b, q, {}))
  {
    SameNodes(a, b);
    assert NoneAt(b, q) by {
      forall j | 0 <= j < |b| ensures b[j].path != q {
        assert b[j] in a;
      }
    }
    forall e: Entry ensures multiset(ScanNodes(a, q, {}))[e] == multiset(ScanNodes(b, q, {}))[e] {
      if e.isFolder {
        FoldersOnce(a, q, {}, e);
        FoldersOnce(b, q, {}, e);
        ScanLists(a, q, {});
        ScanLists(b, q, {});
        SameFolders(a, b, q + [e.name]);
        SameFolders(b, a, q + [e.name]);
        assert e in ScanNodes(a, q, {}) <==> e in multiset(ScanNodes(a, q, {}));
        assert e in ScanNodes(b, q, {}) <==> e in multiset(ScanNodes(b, q, {}));
      } else {
        ItemsCounted(a, q, {}, e);
        ItemsCounted(b, q, {}, e);
      }
    }
  }

  lemma KeysAreEntries(nodes: seq<Node>, q: Path)
    requires Proper(nodes) && Tame(nodes) && NoneAt(nodes, q)
    ensures var scan := ScanNodes(nodes, q, {}); forall x, y | x in scan && y in scan && SameKey(x, y) :: x == y
  {
    ScanLists(nodes, q, {});
    var scan := ScanNodes(nodes, q, {});
    forall x, y | x in scan && y in scan && SameKey(x, y) ensures x == y {
      if !x.isFolder {
        assert IsFile(nodes, q + [x.name], x.size) && IsFile(nodes, q + [y.name], y.size);
      }
    }
  }

  /** At a file of a tame list the scan is that one file. */
  lemma {:induction false} ScanAtTame(nodes: seq<Node>, q: Path, found: set<string>, size: nat)
    requires Proper(nodes) && q != [] && IsFile(nodes, q, size)
    requires forall i | 0 <= i < |nodes| :: !(q < nodes[i].path) && (nodes[i].path == q ==> nodes[i].size == size)
    ensures ScanNodes(nodes, q, found) == [Entry(q[|q| - 1], size, false)]
  {
    if nodes[0].path != q {
      var k :| 0 <= k < |nodes| && nodes[k].path == q && nodes[k].size == size;
      assert nodes[1..][k - 1] == nodes[k];
      ScanAtTame(nodes[1..], q, found, size);
    }
  }

  lemma ProperNode(nodes: seq<Node>, i: nat)
    requires Proper(nodes) && i < |nodes|
    ensures ProperPath(nodes[i].path) && nodes[i].path != []
  {
  }

  lemma {:induction false} TameNodesShowSame(a: seq<Node>, b: seq<Node>, q: Path, r: seq<Entry>, r': seq<Entry>)
    requires Proper(a) && Proper(b) && Tame(a) && multiset(a) == multiset(b)
    requires Ordered(r, ScanNodes(a, q, {})) && Ordered(r', ScanNodes(b, q, {}))
    ensures r == r'
  {
    if k :| 0 <= k < |a| && a[k].path == q {
      ProperNode(a, k);
      SameNodes(a, b);
      var size := a[k].size;
      assert IsFile(a, q, size);
      assert a[k] in b;
      var j :| 0 <= j < |b| && b[j] == a[k];
      assert IsFile(b, q, size);
      forall i | 0 <= i < |b| ensures !(q < b[i].path) && (b[i].path == q ==> b[i].size == size) {
        assert b[i] in a;
      }
      ScanAtTame(a, q, {}, size);
      ScanAtTame(b, q, {}, size);
      SingletonOrdered(r, ScanNodes(a, q, {}));
      SingletonOrdered(r', ScanNodes(b, q, {}));
    } else {
      var scan := ScanNodes(a, q, {});
      ScanCountsSame(a, b, q);
      KeysAreEntries(a, q);
      forall x, y | x in r && y in r && SameKey(x, y) ensures x == y {
        assert x in multiset(r) && y in multiset(r);
        assert x in multiset(scan) && y in multiset(scan);
        assert x in scan && y in scan;
      }
      SortedIsUnique(r, r');
    }
  }

  // ---- A file list that is not tame -----------------------------------------------------------------------

  /** The list with its `i`-th item moved to the front. */
  function MovedUp<T>(s: seq<T>, i: nat): (r: seq<T>)
    requires i < |s|
  {
    [s[i]] + s[..i] + s[i + 1..]
  }

  lemma MovedUpIsRearranged<T>(s: seq<T>, i: nat)
    requires i < |s|
    ensures multiset(MovedUp(s, i)) == multiset(s) && |MovedUp(s, i)| == |s| && MovedUp(s, i)[0] == s[i]
    ensures forall x :: x in MovedUp(s, i) <==> x in s
  {
    assert s == s[..i] + [s[i]] + s[i + 1..];
  }

  lemma PlacesConcat(a: seq<File>, b: seq<File>)
    ensures Places(a + b) == Places(a) + Places(b)
  {
  }

  lemma {:induction false} PlacesOfMovedUp(files: seq<File>, i: nat)
    requires i < |files|
    ensures Places(MovedUp(files, i)) == MovedUp(Places(files), i)
  {
    var nodes := Places(files);
    PlacesConcat([files[i]], files[..i]);
    PlacesConcat([files[i]] + files[..i], files[i + 1..]);
    assert Places(files[..i]) == nodes[..i] && Places(files[i + 1..]) == nodes[i + 1..];
    assert Places([files[i]]) == [nodes[i]];
  }

  lemma ScanFromFile(nodes: seq<Node>, q: Path)
    requires Proper(nodes) && nodes != [] && nodes[0].path == q
    ensures q != [] && ScanNodes(nodes, q, {}) == [Entry(q[|q| - 1], nodes[0].size, false)]
  {
  }

  lemma {:induction false} ScanSeesFile(nodes: seq<Node>, q: Path, found: set<string>)
    requires Proper(nodes) && exists i :: 0 <= i < |nodes| && nodes[i].path == q
    ensures ScanNodes(nodes, q, found) != []
  {
    if nodes[0].path != q {
      var i :| 0 <= i < |nodes| && nodes[i].path == q;
      assert nodes[1..][i - 1].path == q;
      ScanSeesFile(nodes[1..], q, Marked(VisitNode(nodes[0], q), found));
    }
  }

  lemma ScanFromBelow(nodes: seq<Node>, q: Path)
    requires Proper(nodes) && nodes != [] && q < nodes[0].path && exists i :: 0 <= i < |nodes| && nodes[i].path == q
    ensures |ScanNodes(nodes, q, {})| > 1
  {
    var i :| 0 <= i < |nodes| && nodes[i].path == q;
    assert nodes[1..][i - 1].path == q;
    ScanSeesFile(nodes[1..], q, Marked(VisitNode(nodes[0], q), {}));
  }

  /** With another file moved to the front, the listing at the path of a file changes. */
  lemma FrontsShow(nodes: seq<Node>, i: nat, j: nat)
    requires Proper(nodes) && i < |nodes| && j < |nodes|
    requires nodes[i].path < nodes[j].path || (nodes[i].path == nodes[j].path && nodes[i].size != nodes[j].size)
    ensures Proper(MovedUp(nodes, i)) && Proper(MovedUp(nodes, j))
    ensures var q := nodes[i].path;
            multiset(ScanNodes(MovedUp(nodes, i), q, {})) != multiset(ScanNodes(MovedUp(nodes, j), q, {}))
  {
    var q := nodes[i].path;
    MovedUpIsRearranged(nodes, i);
    MovedUpIsRearranged(nodes, j);
    var a, b := MovedUp(nodes, i), MovedUp(nodes, j);
    assert forall k | 0 <= k < |a| :: a[k] in nodes;
    assert forall k | 0 <= k < |b| :: b[k] in nodes;
    ScanFromFile(a, q);
    var first, second := ScanNodes(a, q, {}), ScanNodes(b, q, {});
    assert |multiset(first)| == |first| && |multiset(second)| == |second|;
    if nodes[i].path < nodes[j].path {
      assert nodes[i] in b;
      ScanFromBelow(b, q);
    } else {
      ScanFromFile(b, q);
      assert first[0] in multiset(first) && first[0] !in multiset(second);
    }
  }

  lemma {:induction false} NotTameShows(files: seq<File>, nodes: seq<Node>, i: nat, j: nat)
    requires nodes == Places(files) && Proper(nodes) && i < |nodes| && j < |nodes|
    requires nodes[i].path < nodes[j].path || (nodes[i].path == nodes[j].path && nodes[i].size != nodes[j].size)
    ensures !OrderFree(files)
  {
    var q := nodes[i].path;
    FrontsShow(nodes, i, j);
    MovedUpIsRearranged(files, i);
    MovedUpIsRearranged(files, j);
    PlacesOfMovedUp(files, i);
    PlacesOfMovedUp(files, j);
    var path := Join(q);
    NameOfPath(q);
    var a, b := MovedUp(files, i), MovedUp(files, j);
    ScanReadsSegments(a, path, {});
    ScanReadsSegments(b, path, {});
    if OrderFree(files) {
      OrderFreeAgrees(files, a, b, path);
    }
  }

  lemma {:induction false} OrderFreeAgrees(files: seq<File>, a: seq<File>, b: seq<File>, path: string)
    requires OrderFree(files) && multiset(a) == multiset(files) && multiset(b) == multiset(files)
    ensures multiset(Scan(a, Trim(path), {})) == multiset(Scan(b, Trim(path), {}))
  {
    var r := SortedExists(Scan(files, Trim(path), {}));
    var r1 := SortedExists(Scan(a, Trim(path), {}));
    var r2 := SortedExists(Scan(b, Trim(path), {}));
    assert r == r1 && r == r2;
  }

  lemma {:induction false} PlacesOfTail(files: seq<File>)
    requires files != []
    ensures multiset(Places(files)) == multiset{Place(files[0])} + multiset(Places(files[1..]))
  {
    assert Places(files)[1..] == Places(files[1..]);
    HeadAndTail(Places(files));
  }

  lemma {:induction false} RearrangedPlaces(files: seq<File>, files': seq<File>)
    requires multiset(files) == multiset(files')
    ensures multiset(Places(files)) == multiset(Places(files'))
    decreases |files|
  {
    if files == [] {
      assert |multiset(files')| == 0;
      assert files' == [];
    } else {
      assert files[0] in multiset(files');
      var k :| 0 <= k < |files'| && files'[k] == files[0];
      SameTail(files, files', k);
      RearrangedPlaces(files[1..], files'[..k] + files'[k + 1..]);
      PlacesAround(files', k);
      PlacesOfTail(files);
    }
  }

  lemma {:induction false} PlacesAround(files: seq<File>, k: nat)
    requires k < |files|
    ensures multiset(Places(files)) == multiset{Place(files[k])} + multiset(Places(files[..k] + files[k + 1..]))
  {
    var nodes := Places(files);
    PlacesConcat(files[..k], files[k + 1..]);
    assert Places(files[..k]) == nodes[..k] && Places(files[k + 1..]) == nodes[k + 1..];
    Without(nodes, k);
  }

  lemma RearrangedProper(a: seq<Node>, b: seq<Node>)
    requires multiset(a) == multiset(b) && Proper(a)
    ensures Proper(b)
  {
    SameNodes(a, b);
    forall k | 0 <= k < |b| ensures ProperPath(b[k].path) {
      assert b[k] in a;
    }
  }

  lemma {:induction false} RearrangedShowsSame(files: seq<File>, files': seq<File>, path: string, r: seq<Entry>, r': seq<Entry>,
                                               a: seq<Node>, b: seq<Node>, q: Path)
    requires a == Places(files) && b == Places(files') && q == PathSegments(path)
    requires Proper(a) && Tame(a) && multiset(a) == multiset(b)
    requires Ordered(r, Scan(files, Trim(path), {})) && Ordered(r', Scan(files', Trim(path), {}))
    ensures r == r'
  {
    RearrangedProper(a, b);
    ScanReadsSegments(files, path, {});
    ScanReadsSegments(files', path, {});
    TameNodesShowSame(a, b, q, r, r');
  }

  lemma {:induction false} TameIsOrderFree(files: seq<File>)
    requires Proper(Places(files)) && Tame(Places(files))
    ensures OrderFree(files)
  {
    forall files', path, r, r' |
      multiset(files') == multiset(files)
      && Ordered(r, Scan(files, Trim(path), {})) && Ordered(r', Scan(files', Trim(path), {}))
      ensures r == r'
    {
      RearrangedPlaces(files, files');
      RearrangedShowsSame(files, files', path, r, r', Places(files), Places(files'), PathSegments(path));
    }
  }

  /** A bag that is not tame has a file below another, or one name with two sizes. */
  lemma UntamePair(nodes: seq<Node>) returns (i: nat, j: nat)
    requires !Tame(nodes)
    ensures i < |nodes| && j < |nodes|
    ensures nodes[i].path < nodes[j].path || (nodes[i].path == nodes[j].path && nodes[i].size != nodes[j].size)
  {
    if a, b :| 0 <= a < |nodes| && 0 <= b < |nodes| && nodes[a].path < nodes[b].path {
      i, j := a, b;
    } else {
      i, j :| 0 <= i < |nodes| && 0 <= j < |nodes| && nodes[i].path == nodes[j].path && nodes[i].size != nodes[j].size;
    }
  }

  /** For a bag with proper names, the order of the file list never shows exactly when no file
      lies below another file and no name is listed with two sizes. */
  lemma {:induction false} OrderShowsExactly(files: seq<File>)
    requires Proper(Places(files))
    ensures OrderFree(files) <==> Tame(Places(files))
  {
    var nodes := Places(files);
    if Tame(nodes) {
      TameIsOrderFree(files);
    } else {
      var i, j := UntamePair(nodes);
      NotTameShows(files, nodes, i, j);
    }
  }
}
