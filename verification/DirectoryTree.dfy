/** The directory tree a bag's flat file list stands for: the reference that the listing
    scan is proved against. */
module DirectoryTree {
  import opened Text
  import opened Wrappers

  /** The segments of a slash-separated path; the root is []. */
  type Path = seq<string>

  /** A file of a bag placed at its segments. */
  datatype Node = Node(path: Path, size: nat)

  predicate ProperSegment(s: string) {
    s != "" && s != "." && s != ".." && SEP !in s
  }

  predicate ProperPath(p: Path) {
    p != [] && forall s | s in p :: ProperSegment(s)
  }

  /** A bag that a directory on disk can produce: proper names, none equal to another
      and none lying below another file. */
  predicate WellFormed(nodes: seq<Node>) {
    && (forall i | 0 <= i < |nodes| :: ProperPath(nodes[i].path))
    && (forall i, j | 0 <= i < |nodes| && 0 <= j < |nodes| && i != j ::
          !(nodes[i].path <= nodes[j].path))
  }

  // ---- The tree ------------------------------------------------------------------------

  datatype Tree = Leaf(size: nat) | Branch(children: map<string, Tree>)

  function Insert(t: Tree, p: Path, size: nat): Tree
    decreases |p|
  {
    if p == [] then Leaf(size)
    else
      var children := if t.Branch? then t.children else map[];
      var sub := if p[0] in children then children[p[0]] else Branch(map[]);
      Branch(children[p[0] := Insert(sub, p[1..], size)])
  }

  function Lookup(t: Tree, p: Path): Option<Tree> {
    if p == [] then Some(t)
    else if t.Branch? && p[0] in t.children then Lookup(t.children[p[0]], p[1..])
    else None
  }

  function Build(nodes: seq<Node>): Tree {
    if nodes == [] then Branch(map[])
    else
      var last := nodes[|nodes| - 1];
      Insert(Build(nodes[..|nodes| - 1]), last.path, last.size)
  }

  /** `p` can be added to `t` as a new file. */
  predicate Fits(t: Tree, p: Path) {
    && Lookup(t, p) == None
    && forall k | 0 <= k < |p| :: Lookup(t, p[..k]) == None || Lookup(t, p[..k]).value.Branch?
  }

  lemma {:induction false} InsertLookup(t: Tree, p: Path, size: nat, q: Path)
    requires Fits(t, p)
    ensures q == p ==> Lookup(Insert(t, p, size), q) == Some(Leaf(size))
    ensures q < p ==> Lookup(Insert(t, p, size), q).Some? && Lookup(Insert(t, p, size), q).value.Branch?
    ensures p < q ==> Lookup(Insert(t, p, size), q) == None
    ensures !(p <= q) && !(q <= p) ==> Lookup(Insert(t, p, size), q) == Lookup(t, q)
    decreases |p|
  {
    if p != [] {
      assert p[..0] == [];
      assert Lookup(t, p[..0]) == Some(t);
      var sub := if p[0] in t.children then t.children[p[0]] else Branch(map[]);
      if q != [] && q[0] == p[0] {
        assert q == [p[0]] + q[1..] && p == [p[0]] + p[1..];
        if |p| > 1 {
          FitsBelow(t, p);
          InsertLookup(sub, p[1..], size, q[1..]);
        }
      }
    }
  }

  lemma FitsBelow(t: Tree, p: Path)
    requires Fits(t, p) && |p| > 1 && t.Branch?
    ensures Fits(if p[0] in t.children then t.children[p[0]] else Branch(map[]), p[1..])
  {
    if p[0] in t.children {
      forall k | 0 <= k < |p| - 1
        ensures Lookup(t.children[p[0]], p[1..][..k]) == Lookup(t, p[..k + 1])
      {
        assert p[..k + 1][1..] == p[1..][..k];
      }
    }
  }

  // ---- What the tree of a bag holds ------------------------------------------------------

  ghost predicate IsFile(nodes: seq<Node>, p: Path, size: nat) {
    exists i | 0 <= i < |nodes| :: nodes[i].path == p && nodes[i].size == size
  }

  /** `p` is the root or lies properly above a file. */
  ghost predicate IsFolder(nodes: seq<Node>, p: Path) {
    p == [] || exists i | 0 <= i < |nodes| :: p < nodes[i].path
  }

  ghost predicate Holds(t: Tree, nodes: seq<Node>, p: Path) {
    && (forall size: nat :: Lookup(t, p) == Some(Leaf(size)) <==> IsFile(nodes, p, size))
    && (Lookup(t, p).Some? && Lookup(t, p).value.Branch? <==> IsFolder(nodes, p))
  }

  lemma IsFileSnoc(nodes: seq<Node>, f: Node, p: Path, size: nat)
    ensures IsFile(nodes + [f], p, size) <==>
            IsFile(nodes, p, size) || (f.path == p && f.size == size)
  {
    var all := nodes + [f];
    assert all[|nodes|] == f;
    if IsFile(nodes, p, size) {
      var i :| 0 <= i < |nodes| && nodes[i].path == p && nodes[i].size == size;
      assert all[i] == nodes[i];
    }
  }

  lemma IsFolderSnoc(nodes: seq<Node>, f: Node, p: Path)
    ensures IsFolder(nodes + [f], p) <==> IsFolder(nodes, p) || p < f.path
  {
    var all := nodes + [f];
    assert all[|nodes|] == f;
    if p != [] && IsFolder(nodes, p) {
      var i :| 0 <= i < |nodes| && p < nodes[i].path;
      assert all[i] == nodes[i];
    }
  }

  lemma NoLeafWithoutFile(t: Tree, nodes: seq<Node>, p: Path)
    requires Holds(t, nodes, p)
    requires forall i | 0 <= i < |nodes| :: nodes[i].path != p
    ensures Lookup(t, p) == None || Lookup(t, p).value.Branch?
  {
    assert forall size: nat :: !IsFile(nodes, p, size);
  }

  /** The next file of a well-formed bag fits into the tree of the files before it. */
  lemma NextFits(nodes: seq<Node>, f: Node)
    requires WellFormed(nodes + [f])
    requires forall p :: Holds(Build(nodes), nodes, p)
    ensures Fits(Build(nodes), f.path)
  {
    var all := nodes + [f];
    var t, p := Build(nodes), f.path;
    assert all[|nodes|] == f;
    forall i | 0 <= i < |nodes|
      ensures !(nodes[i].path <= p) && !(p <= nodes[i].path)
    {
      assert all[i] == nodes[i];
    }
    NoLeafWithoutFile(t, nodes, p);
    forall k | 0 <= k < |p|
      ensures Lookup(t, p[..k]) == None || Lookup(t, p[..k]).value.Branch?
    {
      NoLeafWithoutFile(t, nodes, p[..k]);
    }
  }

  lemma HoldsAfterInsert(nodes: seq<Node>, f: Node, p: Path)
    requires WellFormed(nodes + [f])
    requires Holds(Build(nodes), nodes, p)
    requires Fits(Build(nodes), f.path)
    ensures Holds(Insert(Build(nodes), f.path, f.size), nodes + [f], p)
  {
    var t, g := Build(nodes), f.path;
    var t' := Insert(t, g, f.size);
    InsertLookup(t, g, f.size, p);
    IsFolderSnoc(nodes, f, p);
    var all := nodes + [f];
    assert all[|nodes|] == f;
    forall i | 0 <= i < |nodes|
      ensures !(nodes[i].path <= g) && !(g <= nodes[i].path)
    {
      assert all[i] == nodes[i];
    }
    forall size: nat
      ensures Lookup(t', p) == Some(Leaf(size)) <==> IsFile(all, p, size)
    {
      IsFileSnoc(nodes, f, p, size);
    }
  }

  /** The tree of a well-formed bag has a leaf exactly at each file, with that file's size,
      and a folder exactly at the root and above each file. */
  lemma {:induction false} BuildHolds(nodes: seq<Node>)
    requires WellFormed(nodes)
    ensures forall p :: Holds(Build(nodes), nodes, p)
  {
    if nodes == [] {
      forall p ensures Holds(Build(nodes), nodes, p) {}
    } else {
      var front, last := nodes[..|nodes| - 1], nodes[|nodes| - 1];
      assert nodes == front + [last];
      BuildHolds(front);
      NextFits(front, last);
      forall p ensures Holds(Build(nodes), nodes, p) {
        HoldsAfterInsert(front, last, p);
      }
    }
  }

  lemma {:induction false} LookupChild(t: Tree, p: Path, name: string)
    ensures Lookup(t, p + [name])
            == match Lookup(t, p)
               case Some(Branch(children)) => if name in children then Some(children[name]) else None
               case _ => None
  {
    if p == [] {
      assert p + [name] == [name];
    } else {
      assert (p + [name])[1..] == p[1..] + [name];
      if t.Branch? && p[0] in t.children {
        LookupChild(t.children[p[0]], p[1..], name);
      }
    }
  }
}
