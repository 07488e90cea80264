/** The file service: how a bag and a path become a listing, a single file, or an error, from
    the local daemon or from the remote network. */
module FileService {
  import opened Text
  import opened DirectoryTree
  import opened Paths
  import opened Requests
  import opened Listing
  import opened Links
  import opened Wrappers

  const MAX_FILE_SERVE_SIZE: nat := 52428800  // 50 << 20

  datatype AppError = Unavailable | NoFiles | PathNotFound | Banned | TimedOut | TooLarge | Internal

  /** A bag as the local daemon reports it. */
  datatype Bag = Bag(path: string, dirName: string, files: seq<File>, size: nat, peers: nat, description: string)

  datatype StreamFile = StreamFile(size: nat, peers: nat)

  datatype FolderInfo = FolderInfo(
    bagId: string, files: seq<Entry>, filesCount: nat, totalSize: nat, peersCount: nat, description: string,
    singleFilePath: string, stream: Option<StreamFile>)

  const NO_INFO := FolderInfo("", [], 0, 0, 0, "", "", None)

  /** An answer comes with its error, as both are returned. */
  datatype Answer = Answer(info: FolderInfo, error: Option<AppError>)

  /** The file part of `filepath.Split`. */
  function LastName(path: string): string {
    var parts := Split(path);
    parts[|parts| - 1]
  }

  predicate HasSuffix(s: string, suffix: string) {
    |suffix| <= |s| && s[|s| - |suffix|..] == suffix
  }

  // ---- What a path means in the tree -----------------------------------------------------------

  ghost predicate FileAt(t: Tree, q: Path) {
    Lookup(t, q).Some? && Lookup(t, q).value.Leaf?
  }

  ghost predicate FolderAt(t: Tree, q: Path) {
    Lookup(t, q).Some? && Lookup(t, q).value.Branch?
  }

  /** The folder at `q` holds nothing but one file of that name. */
  ghost predicate OnlyChild(t: Tree, q: Path, name: string) {
    FolderAt(t, q) && Lookup(t, q).value.children.Keys == {name} && FileAt(t, q + [name])
  }

  lemma OneKid(children: map<string, Tree>, e: Entry)
    requires !e.isFolder
    ensures SortedListing(ChildEntries(children)) == [e] <==> children == map[e.name := Leaf(e.size)]
  {
    var kids := ChildEntries(children);
    if SortedListing(kids) == [e] {
      assert forall x :: x in kids <==> x in [e];
      assert forall n | n in children :: ChildEntry(n, children[n]) in kids;
    }
    if children == map[e.name := Leaf(e.size)] {
      assert forall x :: x in kids <==> x == e;
      ListingUnique(SortedListing(kids), [e], kids);
    }
  }

  lemma ShowsOneFile(t: Tree, q: Path, name: string, size: nat)
    requires FileAt(t, q) || FolderAt(t, q)
    requires q == [] ==> FolderAt(t, q)
    ensures Show(t, q) == [Entry(name, size, false)] <==>
            || (Lookup(t, q) == Some(Leaf(size)) && name == q[|q| - 1])
            || (OnlyChild(t, q, name) && Lookup(t, q + [name]) == Some(Leaf(size)))
  {
    LookupChild(t, q, name);
    if FolderAt(t, q) {
      var children := Lookup(t, q).value.children;
      OneKid(children, Entry(name, size, false));
      if OnlyChild(t, q, name) && Lookup(t, q + [name]) == Some(Leaf(size)) {
        assert children == map[name := Leaf(size)];
      }
    }
  }

  /** `path` names a file of the bag, or a folder holding one file that carries its name. */
  ghost predicate LocalServes(t: Tree, path: string) {
    var q := PathSegments(path);
    FileAt(t, q) || OnlyChild(t, q, LastName(path))
  }

  /** The same with the remote test: some suffix of the path names the only file. */
  ghost predicate RemoteServes(t: Tree, path: string) {
    var q := PathSegments(path);
    FileAt(t, q) || exists name :: OnlyChild(t, q, name) && HasSuffix(path, name)
  }

  lemma OnlyChildIsUnique(t: Tree, q: Path, a: string, b: string)
    requires OnlyChild(t, q, a) && OnlyChild(t, q, b)
    ensures a == b
  {
    assert a in {b};
  }

  lemma LastNameOfRendered(path: string, rooted: bool, stack: Path)
    requires ProperPath(stack) && path == Render(rooted, stack)
    ensures LastName(path) == stack[|stack| - 1] && HasSuffix(path, stack[|stack| - 1])
  {
    assert Plain(stack);
    if rooted {
      SplitOfSlashed(stack, path);
    } else {
      SplitJoin(stack);
    }
    LastNameIsSuffix(path);
  }

  lemma {:induction false} JoinEndsWithLast(stack: Path)
    requires stack != []
    ensures HasSuffix(Join(stack), stack[|stack| - 1])
  {
    if |stack| > 1 {
      JoinEndsWithLast(stack[1..]);
    }
  }

  lemma LastSegmentIsSuffix(path: string)
    requires Accepted(path) && PathSegments(path) != []
    ensures var q := PathSegments(path);
            LastName(path) == q[|q| - 1] && HasSuffix(path, q[|q| - 1])
  {
    AcceptedStack(path);
    AcceptedSegments(path);
    LastNameOfRendered(path, Rooted(path), Stack(path));
  }

  lemma LastNameAtRoot(path: string)
    requires path == "." || path == "/"
    ensures LastName(path) == "." || LastName(path) == ""
  {
    if path == "/" {
      LastOfSlashed(path);
    } else {
      assert Split(path) == [path];
    }
  }

  lemma RootPaths(path: string)
    requires Accepted(path) && PathSegments(path) == []
    ensures path == "." || path == "/"
  {
    AcceptedStack(path);
    AcceptedSegments(path);
  }

  lemma ChildNamesAreProper(nodes: seq<Node>, q: Path, name: string)
    requires WellFormed(nodes) && OnlyChild(Build(nodes), q, name)
    ensures ProperSegment(name)
  {
    BuildHolds(nodes);
    var size := Lookup(Build(nodes), q + [name]).value.size;
    assert Holds(Build(nodes), nodes, q + [name]);
    assert IsFile(nodes, q + [name], size);
    var i :| 0 <= i < |nodes| && nodes[i].path == q + [name];
    assert nodes[i].path[|q|] == name;
  }

  lemma RootIsFolder(nodes: seq<Node>)
    requires WellFormed(nodes)
    ensures FolderAt(Build(nodes), [])
  {
    BuildHolds(nodes);
    assert Holds(Build(nodes), nodes, []);
  }

  /** Local classification is right exactly when the path is not a folder whose only child is
      a file with the folder's own name. */
  lemma LocalServesFilesExactly(nodes: seq<Node>, path: string)
    requires WellFormed(nodes) && Accepted(path)
    ensures var t, q := Build(nodes), PathSegments(path);
            (LocalServes(t, path) <==> FileAt(t, q))
            <==> !(q != [] && OnlyChild(t, q, q[|q| - 1]))
  {
    var t, q := Build(nodes), PathSegments(path);
    if q == [] {
      RootPaths(path);
      LastNameAtRoot(path);
      if OnlyChild(t, q, LastName(path)) {
        ChildNamesAreProper(nodes, q, LastName(path));
      }
    } else {
      LastSegmentIsSuffix(path);
    }
  }

  /** No folder's only child is a file named by a suffix of the path. */
  ghost predicate NoSuffixChild(t: Tree, path: string) {
    forall name | OnlyChild(t, PathSegments(path), name) :: !HasSuffix(path, name)
  }

  /** Remote classification is right exactly when no only child of the path is named by a suffix
      of the path. */
  lemma RemoteServesFilesExactly(t: Tree, path: string)
    ensures (RemoteServes(t, path) <==> FileAt(t, PathSegments(path))) <==> NoSuffixChild(t, path)
  {
  }

  /** The two sources agree on what is a file exactly when the path is not a folder whose only
      child is a file named by a suffix of the path other than its last segment. */
  lemma SourcesAgreeExactly(nodes: seq<Node>, path: string)
    requires WellFormed(nodes) && Accepted(path)
    ensures var t, q := Build(nodes), PathSegments(path);
            (LocalServes(t, path) <==> RemoteServes(t, path))
            <==> !exists name :: OnlyChild(t, q, name) && HasSuffix(path, name) && name != LastName(path)
  {
    var t, q := Build(nodes), PathSegments(path);
    if OnlyChild(t, q, LastName(path)) {
      LastNameIsSuffix(path);
      forall name | OnlyChild(t, q, name) ensures name == LastName(path) {
        OnlyChildIsUnique(t, q, name, LastName(path));
      }
    }
  }

  lemma LastNameIsSuffix(path: string)
    ensures HasSuffix(path, LastName(path))
  {
    SplitEndsWithLast(path, Split(path));
  }

  lemma SplitEndsWithLast(path: string, parts: seq<string>)
    requires parts == Split(path)
    ensures parts != [] && HasSuffix(path, parts[|parts| - 1])
  {
    JoinSplit(path);
    LastPartIsSuffix(path, parts);
  }

  lemma LastPartIsSuffix(path: string, parts: seq<string>)
    requires parts != [] && Join(parts) == path
    ensures HasSuffix(path, parts[|parts| - 1])
  {
    JoinEndsWithLast(parts);
  }

  /** The bag with the one file folder/name holds the folder with that one child. */
  lemma FolderOfOne(folder: string, name: string, size: nat)
    requires ProperSegment(folder) && ProperSegment(name)
    ensures var nodes := [Node([folder, name], size)];
            && WellFormed(nodes) && FolderAt(Build(nodes), [folder])
            && Lookup(Build(nodes), [folder]) == Some(Branch(map[name := Leaf(size)]))
            && OnlyChild(Build(nodes), [folder], name)
  {
    var p := [folder, name];
    var nodes := [Node(p, size)];
    var inner := Branch(map[name := Leaf(size)]);
    assert nodes[..0] == [];
    assert p[1..] == [name] && [name][1..] == [];
    assert Insert(Branch(map[]), [name], size) == inner;
    assert Build(nodes) == Branch(map[folder := inner]);
    assert Lookup(inner, []) == Some(inner);
    assert Lookup(Build(nodes), [folder]) == Some(inner);
    LookupChild(Build(nodes), [folder], name);
  }

  // ---- One file shown ------------------------------------------------------------------------------

  ghost predicate OneFile(r: seq<Entry>) {
    |r| == 1 && !r[0].isFolder
  }

  /** A listing is one file exactly at a file or at a folder with one file. */
  lemma {:induction false} OneFileShown(nodes: seq<Node>, q: Path, r: seq<Entry>)
    requires WellFormed(nodes) && r == Directory(nodes, q)
    ensures OneFile(r) ==>
              var t := Build(nodes);
              || (Lookup(t, q) == Some(Leaf(r[0].size)) && q != [] && r[0].name == q[|q| - 1])
              || (OnlyChild(t, q, r[0].name) && Lookup(t, q + [r[0].name]) == Some(Leaf(r[0].size)))
    ensures FileAt(Build(nodes), q) ==> OneFile(r)
    ensures (exists name :: OnlyChild(Build(nodes), q, name)) ==> OneFile(r)
    ensures r == [] && Lookup(Build(nodes), q) != None ==> FolderAt(Build(nodes), q)
  {
    var t := Build(nodes);
    RootIsFolder(nodes);
    if Lookup(t, q) != None {
      if OneFile(r) {
        ShowsOneFile(t, q, r[0].name, r[0].size);
      }
      if name :| OnlyChild(t, q, name) {
        ShowsOneFile(t, q, name, Lookup(t, q + [name]).value.size);
      }
    }
  }

  /** No folder of a well-formed bag with files is empty. */
  lemma FoldersShowSomething(nodes: seq<Node>, q: Path)
    requires WellFormed(nodes) && nodes != []
    ensures Directory(nodes, q) == [] <==> Lookup(Build(nodes), q) == None
  {
    BuildHolds(nodes);
    assert Holds(Build(nodes), nodes, q);
    if FolderAt(Build(nodes), q) {
      var i :| 0 <= i < |nodes| && (q < nodes[i].path || (q == [] && i == 0));
      assert nodes[i].path != [];
      assert q < nodes[i].path;
      DirectoryHasGate(nodes, q, nodes[i]);
    }
  }

  lemma DirectoryHasGate(nodes: seq<Node>, q: Path, x: Node)
    requires WellFormed(nodes) && x in nodes && q < x.path
    ensures Directory(nodes, q) != []
  {
    var name := x.path[|q|];
    StepBelow(x.path, q, name);
    var i :| 0 <= i < |nodes| && nodes[i] == x;
    var e := if |x.path| == |q| + 1 then Entry(name, x.size, false) else Entry(name, 0, true);
    assert Listed(nodes, q, {}, e);
    ChildrenListed(nodes, q, e);
    var children := Lookup(Build(nodes), q).value.children;
    assert e in ChildEntries(children);
    assert e in SortedListing(ChildEntries(children));
  }

  // ---- getFromLocalStorage -----------------------------------------------------------------------

  lemma {:induction false} LocalTest(nodes: seq<Node>, path: string, r: seq<Entry>)
    requires WellFormed(nodes) && Accepted(path)
    requires r == Directory(nodes, PathSegments(path))
    ensures OneFile(r) && r[0].name == LastName(path) <==> LocalServes(Build(nodes), path)
  {
    var q := PathSegments(path);
    OneFileShown(nodes, q, r);
    if q != [] {
      LastSegmentIsSuffix(path);
    } else {
      RootIsFolder(nodes);
    }
    if OneFile(r) && OnlyChild(Build(nodes), q, LastName(path)) && OnlyChild(Build(nodes), q, r[0].name) {
      OnlyChildIsUnique(Build(nodes), q, LastName(path), r[0].name);
    }
  }

  ghost predicate SoundLocal(bag: Option<Bag>) {
    bag.Some? ==> WellFormed(Places(bag.value.files))
  }

  /** What the local branch answers, read on the directory tree. */
  ghost function LocalAnswer(bagId: string, bag: Option<Bag>, path: string): Answer {
    if bag == None then Answer(NO_INFO, Some(Unavailable))
    else if bag.value.files == [] then Answer(NO_INFO, Some(NoFiles))
    else
      var b, q := bag.value, PathSegments(path);
      var t := Build(Places(b.files));
      var served := if LocalServes(t, path) then JoinPath([b.path, b.dirName, path]) else "";
      Answer(FolderInfo(bagId, Show(t, q), |b.files|, b.size, b.peers, b.description, served, None),
             if Lookup(t, q) == None then Some(PathNotFound) else None)
  }

  /** What the local branch makes of a listing. */
  function Served(info: FolderInfo, b: Bag, path: string): Answer {
    if |info.files| == 1 && !info.files[0].isFolder && info.files[0].name == LastName(path) then
      Answer(info.(singleFilePath := JoinPath([b.path, b.dirName, path])), None)
    else if info.files == [] then Answer(info, Some(PathNotFound))
    else Answer(info, None)
  }

  /** The end of the local branch, from the listing on. */
  method ServeLocal(info: FolderInfo, b: Bag, path: string) returns (a: Answer)
    ensures a == Served(info, b, path)
  {
    var files, fileName := info.files, LastName(path);
    a := Answer(info, None);
    if exists i | 0 <= i < |files| :: !files[i].isFolder && files[i].name == fileName {
      if |files| == 1 && !files[0].isFolder {
        a := Answer(info.(singleFilePath := JoinPath([b.path, b.dirName, path])), None);
      }
    } else if |files| == 0 {
      a := Answer(info, Some(PathNotFound));
    }
  }

  /** The bag's own folder on disk. */
  function Home(bagPath: string, dirName: string): string {
    if bagPath == "" then dirName else bagPath + [SEP] + dirName
  }

  /** The bag is there, with files, and the path is one of its files or folders. */
  ghost predicate HasPath(bag: Option<Bag>, path: string) {
    bag.Some? && bag.value.files != [] && Lookup(Build(Places(bag.value.files)), PathSegments(path)) != None
  }

  /** The answer says of the bag what the daemon says of it. */
  ghost predicate Describes(info: FolderInfo, bagId: string, b: Bag) {
    && info.bagId == bagId && info.filesCount == |b.files| && info.totalSize == b.size
    && info.peersCount == b.peers && info.description == b.description && info.stream == None
  }

  /** `served` is spelled cleanly and leads from the folder `home` down the segments of `path`;
      below a folder without a name it is `path` itself. */
  ghost predicate LeadsTo(served: string, home: string, path: string) {
    && Clean(served) == served
    && (home != "" ==> Stack(served) == Stack(home) + PathSegments(path) && Rooted(served) == Rooted(home))
    && (home == "" ==> served == path)
  }

  /** The answer hands out the local bag at the path: its listing there and, for what is taken
      for a file, the place of that file below the bag's own folder. */
  ghost predicate HandsOut(a: Answer, bagId: string, b: Bag, path: string) {
    var t, q := Build(Places(b.files)), PathSegments(path);
    && a.error == None
    && Describes(a.info, bagId, b)
    && a.info.files == Show(t, q)
    && (a.info.singleFilePath != "" <==> FileAt(t, q) || OnlyChild(t, q, LastName(path)))
    && (a.info.singleFilePath != "" ==> LeadsTo(a.info.singleFilePath, Home(b.path, b.dirName), path))
  }

  lemma {:induction false} LocalHandsOut(bagId: string, b: Bag, path: string)
    requires Accepted(path) && HasPath(Some(b), path)
    ensures HandsOut(LocalAnswer(bagId, Some(b), path), bagId, b, path)
  {
    ServedPath(b.path, b.dirName, path);
  }

  lemma JoinedHome(bagPath: string, dirName: string, path: string)
    requires path != ""
    ensures JoinPath([bagPath, dirName, path])
            == var home := Home(bagPath, dirName); Clean(if home == "" then path else home + [SEP] + path)
  {
    var all := [bagPath, dirName, path];
    var two := all[1..];
    var one := two[1..];
    assert two == [dirName, path] && one == [path];
    JoinOfThree(bagPath, dirName, path);
    assert Join(two) == dirName + [SEP] + Join(one) && Join(one) == path;
    assert JoinPath(one) == Clean(path);
  }

  lemma CleanLeadsTo(home: string, path: string)
    requires home != "" && Accepted(path)
    ensures LeadsTo(Clean(home + [SEP] + path), home, path)
  {
    AcceptedMeans(path);
    AcceptedSegments(path);
    StackBelow(home, path);
    CleanIsIdempotent(home + [SEP] + path);
  }

  /** The file served lies below the bag's own folder, at the requested segments. */
  lemma ServedPath(bagPath: string, dirName: string, path: string)
    requires Accepted(path)
    ensures var served := JoinPath([bagPath, dirName, path]);
            served != "" && LeadsTo(served, Home(bagPath, dirName), path)
  {
    var home := Home(bagPath, dirName);
    AcceptedMeans(path);
    CleanIsNotEmpty(path);
    JoinedHome(bagPath, dirName, path);
    CleanIsNotEmpty(if home == "" then path else home + [SEP] + path);
    if home != "" {
      CleanLeadsTo(home, path);
    }
  }

  lemma {:induction false} ServedIsAnswer(bagId: string, b: Bag, path: string, files: seq<Entry>)
    requires SoundLocal(Some(b)) && Accepted(path) && b.files != []
    requires files == Directory(Places(b.files), PathSegments(path))
    ensures LocalAnswer(bagId, Some(b), path)
            == Served(FolderInfo(bagId, files, |b.files|, b.size, b.peers, b.description, "", None), b, path)
  {
    LocalTest(Places(b.files), path, files);
    FoldersShowSomething(Places(b.files), PathSegments(path));
  }

  /** The local answer, in terms of the bag: unavailable without a bag, "no files" for an empty
      one, the bag's path handed out when it is there, and "path not found" otherwise. */
  method GetFromLocalStorage(bagId: string, bag: Option<Bag>, path: string) returns (a: Answer)
    ensures bag == None ==> a == Answer(NO_INFO, Some(Unavailable))
    ensures bag.Some? && bag.value.files == [] ==> a == Answer(NO_INFO, Some(NoFiles))
    ensures bag.Some? && bag.value.files != [] ==> Describes(a.info, bagId, bag.value)
    ensures SoundLocal(bag) && Accepted(path) && HasPath(bag, path) ==> HandsOut(a, bagId, bag.value, path)
    ensures SoundLocal(bag) && Accepted(path) && bag.Some? && bag.value.files != [] && !HasPath(bag, path) ==>
              a.error == Some(PathNotFound) && a.info.files == [] && a.info.singleFilePath == ""
    ensures SoundLocal(bag) && Accepted(path) ==> a == LocalAnswer(bagId, bag, path)
  {
    if bag == None {
      return Answer(NO_INFO, Some(Unavailable));
    }
    var b := bag.value;
    if b.files == [] {
      return Answer(NO_INFO, Some(NoFiles));
    }
    var files := Ls(b.files, path);
    a := ServeLocal(FolderInfo(bagId, files, |b.files|, b.size, b.peers, b.description, "", None), b, path);
    if WellFormed(Places(b.files)) && Accepted(path) {
      ServedIsAnswer(bagId, b, path, files);
      if HasPath(bag, path) {
        LocalHandsOut(bagId, b, path);
      }
    }
  }

  // ---- getFromRemoteStorage ----------------------------------------------------------------------

  datatype RemoteListing =
    | RemoteFiles(files: seq<File>, totalSize: nat, peers: nat, description: string)
    | ListTimedOut(peersSeen: nat)
    | ListFailed

  /** What opening the file over the network comes to. */
  datatype RemoteStream = Streamed(stream: StreamFile) | StreamTimedOut(peersSeen: nat) | StreamFailed

  method StreamRemoteFile(outcome: RemoteStream) returns (stream: Option<StreamFile>, error: Option<AppError>)
    ensures outcome.Streamed? ==> stream == Some(outcome.stream) && error == None
    ensures outcome.StreamTimedOut? ==> stream == Some(StreamFile(0, outcome.peersSeen)) && error == Some(TimedOut)
    ensures outcome.StreamFailed? ==> stream == None && error == Some(Internal)
  {
    match outcome {
      case Streamed(s) => stream, error := Some(s), None;
      case StreamTimedOut(peers) => stream, error := Some(StreamFile(0, peers)), Some(TimedOut);
      case StreamFailed => stream, error := None, Some(Internal);
    }
  }

  lemma {:induction false} RemoteTest(nodes: seq<Node>, path: string, r: seq<Entry>)
    requires WellFormed(nodes) && Accepted(path)
    requires r == Directory(nodes, PathSegments(path))
    ensures OneFile(r) && HasSuffix(path, r[0].name) <==> RemoteServes(Build(nodes), path)
  {
    var q := PathSegments(path);
    OneFileShown(nodes, q, r);
    if q != [] {
      LastSegmentIsSuffix(path);
    } else {
      RootIsFolder(nodes);
    }
    if OneFile(r) {
      forall name | OnlyChild(Build(nodes), q, name) && OnlyChild(Build(nodes), q, r[0].name)
        ensures name == r[0].name
      {
        OnlyChildIsUnique(Build(nodes), q, name, r[0].name);
      }
    }
  }

  /** The answer once the file is to be streamed. */
  function Streaming(info: FolderInfo, size: nat, outcome: RemoteStream): (a: Answer)
    ensures a.error == None <==> size <= MAX_FILE_SERVE_SIZE && outcome.Streamed?
    ensures a.error == None ==> a.info == info.(stream := Some(outcome.stream))
  {
    if size > MAX_FILE_SERVE_SIZE then Answer(NO_INFO, Some(TooLarge))
    else
      match outcome
      case Streamed(s) => Answer(info.(stream := Some(s)), None)
      case StreamTimedOut(peers) => Answer(info.(stream := Some(StreamFile(0, peers))), Some(TimedOut))
      case StreamFailed => Answer(info, Some(Internal))
  }

  datatype Remote = Remote(configured: bool, bag: RemoteListing, outcome: RemoteStream)

  ghost predicate SoundRemote(r: Remote) {
    r.bag.RemoteFiles? ==> WellFormed(Places(r.bag.files))
  }

  /** What the remote branch says of a bag before it looks for the file. */
  function RemoteInfo(bagId: string, bag: RemoteListing, shown: seq<Entry>): FolderInfo
    requires bag.RemoteFiles?
  {
    FolderInfo(bagId, shown, |bag.files|, bag.totalSize, bag.peers, bag.description, "", None)
  }

  /** The answer for a listed path: absent, a folder, or taken for a file. */
  ghost function RemoteFound(info: FolderInfo, absent: bool, served: bool, outcome: RemoteStream): Answer {
    if absent then Answer(info, Some(PathNotFound))
    else if !served || info.files == [] then Answer(info, None)
    else Streaming(info, info.files[0].size, outcome)
  }

  /** A stream is opened for what is taken for a file, is small enough and can be opened. */
  lemma FoundStreams(info: FolderInfo, absent: bool, served: bool, outcome: RemoteStream)
    requires (served ==> info.files != []) && (absent ==> !served) && info.stream == None
    ensures var a := RemoteFound(info, absent, served, outcome);
            && (a.info.stream.Some? <==> served && info.files[0].size <= MAX_FILE_SERVE_SIZE && !outcome.StreamFailed?)
            && (served && info.files[0].size <= MAX_FILE_SERVE_SIZE && outcome.Streamed? ==>
                  a.error == None && a.info.stream == Some(outcome.stream))
  {
  }

  /** What the remote branch answers for what the tree has at the path. */
  ghost function RemoteAnswerFor(bagId: string, r: Remote, shown: seq<Entry>, absent: bool, served: bool): Answer {
    if !r.configured || r.bag.ListFailed? then Answer(NO_INFO, Some(Unavailable))
    else if r.bag.ListTimedOut? then
      Answer(NO_INFO.(bagId := bagId, peersCount := r.bag.peersSeen), Some(TimedOut))
    else if r.bag.files == [] then Answer(NO_INFO, Some(NoFiles))
    else RemoteFound(RemoteInfo(bagId, r.bag, shown), absent, served, r.outcome)
  }

  ghost function RemoteTree(r: Remote): Tree {
    if r.bag.RemoteFiles? then Build(Places(r.bag.files)) else Branch(map[])
  }

  /** What the remote branch answers, read on the directory tree. */
  ghost function RemoteAnswer(bagId: string, r: Remote, path: string): Answer {
    var t, q := RemoteTree(r), PathSegments(path);
    RemoteAnswerFor(bagId, r, Show(t, q), Lookup(t, q) == None, RemoteServes(t, path))
  }

  /** What the remote branch makes of a listing. */
  function ServedRemotely(info: FolderInfo, outcome: RemoteStream, path: string): Answer {
    if |info.files| == 1 && !info.files[0].isFolder && HasSuffix(path, info.files[0].name) then
      Streaming(info, info.files[0].size, outcome)
    else if info.files == [] then Answer(info, Some(PathNotFound))
    else Answer(info, None)
  }

  /** The end of the remote branch, from the listing on. */
  method ServeRemote(info: FolderInfo, outcome: RemoteStream, path: string) returns (a: Answer)
    requires info.stream == None
    ensures a == ServedRemotely(info, outcome, path)
  {
    var files := info.files;
    a := Answer(info, None);
    if exists i | 0 <= i < |files| :: !files[i].isFolder && HasSuffix(path, files[i].name) {
      if |files| == 1 && !files[0].isFolder {
        if files[0].size > MAX_FILE_SERVE_SIZE {
          return Answer(NO_INFO, Some(TooLarge));
        }
        var stream, error := StreamRemoteFile(outcome);
        a := Answer(info.(stream := stream), error);
      }
    } else if |files| == 0 {
      a := Answer(info, Some(PathNotFound));
    }
  }

  /** The answer says of the bag what the network says of it. */
  ghost predicate DescribesRemote(info: FolderInfo, bagId: string, bag: RemoteListing)
    requires bag.RemoteFiles?
  {
    && info.bagId == bagId && info.filesCount == |bag.files| && info.totalSize == bag.totalSize
    && info.peersCount == bag.peers && info.description == bag.description && info.singleFilePath == ""
  }

  /** The answer that opens the file shown. */
  ghost predicate OpensFile(a: Answer, bagId: string, r: Remote, shown: seq<Entry>)
    requires r.bag.RemoteFiles?
  {
    && |shown| == 1
    && if shown[0].size > 52_428_800 then a == Answer(NO_INFO, Some(TooLarge))
       else
         && DescribesRemote(a.info, bagId, r.bag) && a.info.files == shown
         && match r.outcome
            case Streamed(s) => a.error == None && a.info.stream == Some(s)
            case StreamTimedOut(peers) => a.error == Some(TimedOut) && a.info.stream == Some(StreamFile(0, peers))
            case StreamFailed => a.error == Some(Internal) && a.info.stream == None
  }

  /** The answer for a bag listed with files: "path not found", a folder, or a file, which is
      what is one or is the only child of a folder and named by a suffix of the path. */
  ghost predicate AnswersListed(a: Answer, bagId: string, r: Remote, path: string)
    requires r.bag.RemoteFiles?
  {
    var t, q := Build(Places(r.bag.files)), PathSegments(path);
    if FileAt(t, q) || exists name :: OnlyChild(t, q, name) && HasSuffix(path, name) then
      OpensFile(a, bagId, r, Show(t, q))
    else
      && DescribesRemote(a.info, bagId, r.bag) && a.info.files == Show(t, q) && a.info.stream == None
      && a.error == if Lookup(t, q) == None then Some(PathNotFound) else None
  }

  lemma {:induction false} ListedIsAnswered(bagId: string, r: Remote, path: string)
    requires SoundRemote(r) && Accepted(path) && r.configured && r.bag.RemoteFiles? && r.bag.files != []
    ensures AnswersListed(RemoteAnswer(bagId, r, path), bagId, r, path)
  {
    var t, q := Build(Places(r.bag.files)), PathSegments(path);
    RemoteAnswerFound(bagId, r, path, t, q, Show(t, q));
    OneFileShown(Places(r.bag.files), q, Show(t, q));
    if Lookup(t, q) == None {
      AbsentIsNotServed(t, path);
    }
  }

  lemma FoundIsServed(info: FolderInfo, absent: bool, served: bool, outcome: RemoteStream, path: string)
    requires served <==> OneFile(info.files) && HasSuffix(path, info.files[0].name)
    requires absent <==> info.files == []
    ensures RemoteFound(info, absent, served, outcome) == ServedRemotely(info, outcome, path)
  {
  }

  lemma {:induction false} ListedIsRemoteAnswer(bagId: string, r: Remote, path: string, t: Tree, q: Path, shown: seq<Entry>)
    requires SoundRemote(r) && Accepted(path) && r.configured && r.bag.RemoteFiles? && r.bag.files != []
    requires t == Build(Places(r.bag.files)) && q == PathSegments(path) && shown == Show(t, q)
    ensures RemoteAnswer(bagId, r, path) == ServedRemotely(RemoteInfo(bagId, r.bag, shown), r.outcome, path)
  {
    RemoteTest(Places(r.bag.files), path, shown);
    FoldersShowSomething(Places(r.bag.files), q);
    RemoteAnswerFound(bagId, r, path, t, q, shown);
    FoundIsServed(RemoteInfo(bagId, r.bag, shown), Lookup(t, q) == None, RemoteServes(t, path), r.outcome, path);
  }

  /** The remote answer: unavailable without a client or a listing, the peers seen before a
      time-out, "no files" for an empty bag, and otherwise what the bag has at the path. */
  method GetFromRemoteStorage(bagId: string, r: Remote, path: string) returns (a: Answer)
    ensures !r.configured || r.bag.ListFailed? ==> a == Answer(NO_INFO, Some(Unavailable))
    ensures r.configured && r.bag.ListTimedOut? ==>
              a == Answer(FolderInfo(bagId, [], 0, 0, r.bag.peersSeen, "", "", None), Some(TimedOut))
    ensures r.configured && r.bag.RemoteFiles? && r.bag.files == [] ==> a == Answer(NO_INFO, Some(NoFiles))
    ensures r.configured && r.bag.RemoteFiles? && r.bag.files != [] && SoundRemote(r) && Accepted(path) ==>
              AnswersListed(a, bagId, r, path)
    ensures SoundRemote(r) && Accepted(path) ==> a == RemoteAnswer(bagId, r, path)
  {
    if !r.configured {
      return Answer(NO_INFO, Some(Unavailable));
    }
    var bag := r.bag;
    if !bag.RemoteFiles? {
      if bag.ListTimedOut? {
        return Answer(NO_INFO.(bagId := bagId, peersCount := bag.peersSeen), Some(TimedOut));
      }
      return Answer(NO_INFO, Some(Unavailable));
    }
    if bag.files == [] {
      return Answer(NO_INFO, Some(NoFiles));
    }
    var files := Ls(bag.files, path);
    var info := RemoteInfo(bagId, bag, files);
    a := ServeRemote(info, r.outcome, path);
    if WellFormed(Places(bag.files)) && Accepted(path) {
      ListedIsRemoteAnswer(bagId, r, path, Build(Places(bag.files)), PathSegments(path), files);
      ListedIsAnswered(bagId, r, path);
    }
  }

  // ---- GetPathInfo ---------------------------------------------------------------------------------

  /** What the world answers during one request: the ban check, the local daemon before and
      after the bag was added to it, and the network. */
  datatype World = World(banned: Option<bool>, before: Option<Bag>, added: bool, after: Option<Bag>, remote: Remote)

  ghost predicate Sound(w: World) {
    SoundLocal(w.before) && SoundLocal(w.after) && SoundRemote(w.remote)
  }

  /** The answer of `GetPathInfo`, read on the directory trees of its sources. */
  ghost function PathInfo(bagId: string, w: World, path: string): Answer
    requires Sound(w) && Accepted(path)
  {
    if w.banned == None then Answer(NO_INFO, Some(Internal))
    else if w.banned.value then Answer(NO_INFO, Some(Banned))
    else
      var first, second := LocalAnswer(bagId, w.before, path), LocalAnswer(bagId, w.after, path);
      if first.error == None then first
      else if w.added && second.error == None then second
      else RemoteAnswer(bagId, w.remote, path)
  }

  /** The answer is the network's. */
  ghost predicate Fetched(a: Answer, bagId: string, r: Remote, path: string) {
    if !r.configured || r.bag.ListFailed? then a == Answer(NO_INFO, Some(Unavailable))
    else
      match r.bag
      case ListTimedOut(peers) => a == Answer(FolderInfo(bagId, [], 0, 0, peers, "", "", None), Some(TimedOut))
      case RemoteFiles(files, _, _, _) =>
        if files == [] then a == Answer(NO_INFO, Some(NoFiles)) else AnswersListed(a, bagId, r, path)
      case ListFailed => false
  }

  /** The ban check first; then the bag of the local daemon if it has the path; then the bag
      once it has been added, if it has the path then; and the network only after both. */
  method GetPathInfo(bagId: string, w: World, path: string) returns (a: Answer)
    ensures w.banned == None ==> a == Answer(NO_INFO, Some(Internal))
    ensures w.banned == Some(true) ==> a == Answer(NO_INFO, Some(Banned))
    ensures Sound(w) && Accepted(path) && w.banned == Some(false) ==>
              && (HasPath(w.before, path) ==> HandsOut(a, bagId, w.before.value, path))
              && (!HasPath(w.before, path) && w.added && HasPath(w.after, path) ==>
                    HandsOut(a, bagId, w.after.value, path))
              && (!HasPath(w.before, path) && !(w.added && HasPath(w.after, path)) ==>
                    a == RemoteAnswer(bagId, w.remote, path) && Fetched(a, bagId, w.remote, path))
    ensures Sound(w) && Accepted(path) ==> a == PathInfo(bagId, w, path)
  {
    if w.banned == None {
      return Answer(NO_INFO, Some(Internal));
    }
    if w.banned.value {
      return Answer(NO_INFO, Some(Banned));
    }
    a := GetFromLocalStorage(bagId, w.before, path);
    if a.error == None {
      return;
    }
    if w.added {
      a := GetFromLocalStorage(bagId, w.after, path);
      if a.error == None {
        return;
      }
    }
    a := GetFromRemoteStorage(bagId, w.remote, path);
  }

  /** What the local bag says leaves nothing open: whatever the second look or the network would
      say, there is one answer that hands the bag out. */
  lemma HandsOutOneAnswer(a: Answer, a': Answer, bagId: string, b: Bag, path: string)
    requires HandsOut(a, bagId, b, path) && HandsOut(a', bagId, b, path)
    ensures a == a'
  {
    var served, served' := a.info.singleFilePath, a'.info.singleFilePath;
    if served != "" {
      assert LeadsTo(served, Home(b.path, b.dirName), path) && LeadsTo(served', Home(b.path, b.dirName), path);
      assert served == Clean(served) && served' == Clean(served');
    }
  }

  /** The answer carries the listing of the tree, and content exactly for a file. */
  ghost predicate Means(a: Answer, t: Tree, q: Path) {
    && Lookup(t, q) != None
    && a.info.files == Show(t, q)
    && (a.info.singleFilePath != "" || a.info.stream.Some? <==> FileAt(t, q))
  }

  /** The local branch sets a file path for exactly the bag's files, if and only if the path is
      not a folder whose only child is a file with the folder's own name. */
  lemma LocalAnswersFilesExactly(bagId: string, b: Bag, path: string)
    requires SoundLocal(Some(b)) && b.files != [] && Accepted(path)
    ensures var t, q := Build(Places(b.files)), PathSegments(path);
            (LocalAnswer(bagId, Some(b), path).info.singleFilePath != "" <==> FileAt(t, q))
            <==> !(q != [] && OnlyChild(t, q, q[|q| - 1]))
  {
    ServedPath(b.path, b.dirName, path);
    LocalServesFilesExactly(Places(b.files), path);
  }

  /** What the remote branch would serve is small enough, and a stream can be opened. */
  predicate CanStream(r: Remote, shown: seq<Entry>) {
    shown != [] && shown[0].size <= MAX_FILE_SERVE_SIZE && !r.outcome.StreamFailed?
  }

  lemma {:induction false} RemoteAnswerFound(bagId: string, r: Remote, path: string, t: Tree, q: Path, shown: seq<Entry>)
    requires SoundRemote(r) && Accepted(path) && r.configured && r.bag.RemoteFiles? && r.bag.files != []
    requires t == Build(Places(r.bag.files)) && q == PathSegments(path) && shown == Show(t, q)
    ensures RemoteServes(t, path) ==> shown != []
    ensures RemoteAnswer(bagId, r, path)
            == RemoteFound(RemoteInfo(bagId, r.bag, shown), Lookup(t, q) == None, RemoteServes(t, path), r.outcome)
  {
    ServedIsShown(Places(r.bag.files), path, shown);
    OnListedBag(bagId, r, shown, Lookup(t, q) == None, RemoteServes(t, path));
  }

  lemma OnListedBag(bagId: string, r: Remote, shown: seq<Entry>, absent: bool, served: bool)
    requires r.configured && r.bag.RemoteFiles? && r.bag.files != []
    ensures RemoteTree(r) == Build(Places(r.bag.files))
    ensures RemoteAnswerFor(bagId, r, shown, absent, served)
            == RemoteFound(RemoteInfo(bagId, r.bag, shown), absent, served, r.outcome)
  {
  }

  lemma {:induction false} ServedIsShown(nodes: seq<Node>, path: string, shown: seq<Entry>)
    requires WellFormed(nodes) && Accepted(path)
    requires shown == Directory(nodes, PathSegments(path))
    ensures RemoteServes(Build(nodes), path) ==> shown != []
  {
    RemoteTest(nodes, path, shown);
  }

  lemma AbsentIsNotServed(t: Tree, path: string)
    requires Lookup(t, PathSegments(path)) == None
    ensures !RemoteServes(t, path)
  {
  }

  /** A stream is there exactly for what is taken for a file and can be streamed. */
  lemma {:induction false} RemoteStreamExactly(bagId: string, r: Remote, path: string, t: Tree, q: Path, shown: seq<Entry>)
    requires SoundRemote(r) && Accepted(path) && r.configured && r.bag.RemoteFiles? && r.bag.files != []
    requires t == Build(Places(r.bag.files)) && q == PathSegments(path) && shown == Show(t, q)
    ensures var a := RemoteAnswer(bagId, r, path);
            && (a.info.stream.Some? <==> RemoteServes(t, path) && CanStream(r, shown))
            && (RemoteServes(t, path) && CanStream(r, shown) && r.outcome.Streamed? ==>
                  a.error == None && a.info.stream == Some(r.outcome.stream))
  {
    RemoteAnswerFound(bagId, r, path, t, q, shown);
    if Lookup(t, q) == None {
      AbsentIsNotServed(t, path);
    }
    FoundStreams(RemoteInfo(bagId, r.bag, shown), Lookup(t, q) == None, RemoteServes(t, path), r.outcome);
  }

  /** The remote branch opens a stream for exactly the bag's files, if and only if no only child
      of the path is named by a suffix of the path; where what it would serve is too large, or
      no stream can be opened, there is none for anything. */
  lemma {:induction false} RemoteAnswersFilesExactly(bagId: string, r: Remote, path: string)
    requires SoundRemote(r) && Accepted(path) && r.configured && r.bag.RemoteFiles? && r.bag.files != []
    ensures var t, q := Build(Places(r.bag.files)), PathSegments(path);
            (RemoteAnswer(bagId, r, path).info.stream.Some? <==> FileAt(t, q) && CanStream(r, Show(t, q)))
            <==> NoSuffixChild(t, path) || !CanStream(r, Show(t, q))
  {
    var t, q := Build(Places(r.bag.files)), PathSegments(path);
    RemoteStreamExactly(bagId, r, path, t, q, Show(t, q));
    RemoteServesFilesExactly(t, path);
  }

  /** The bag with the one file folder/name, read back from its file list. */
  lemma {:induction false} OneFileBag(folder: string, name: string, size: nat)
    requires ProperSegment(folder) && ProperSegment(name)
    ensures var nodes := [Node([folder, name], size)];
            && Places(FilesOf(nodes)) == nodes && WellFormed(nodes)
            && FolderAt(Build(nodes), [folder]) && OnlyChild(Build(nodes), [folder], name)
            && Show(Build(nodes), [folder]) == [Entry(name, size, false)]
  {
    var nodes := [Node([folder, name], size)];
    FolderOfOne(folder, name, size);
    PlacesOfSpelled(nodes);
    OneKid(map[name := Leaf(size)], Entry(name, size, false));
  }

  lemma FolderPath(folder: string, p: Path)
    requires p == [folder] && ProperSegment(folder)
    ensures PathSegments(folder) == p && LastName(folder) == folder
  {
    assert Join(p) == folder;
    NameOfPath(p);
  }

  /** The failing input of the local branch: the bag with the one file n/n, asked for n. The
      answer sets a file path, and n is a folder. */
  lemma {:induction false} FolderAnsweredAsFile(bagId: string, b: Bag, n: string, size: nat)
    requires ProperSegment(n) && Accepted(n) && b.files == FilesOf([Node([n, n], size)])
    ensures var a := LocalAnswer(bagId, Some(b), n);
            && a.error == None && a.info.singleFilePath != ""
            && FolderAt(Build(Places(b.files)), PathSegments(n))
  {
    OneFileBag(n, n, size);
    FolderPath(n, [n]);
    ServedPath(b.path, b.dirName, n);
  }

  /** The failing inputs of the remote branch: the bag with the one file d/f, asked for d, where
      d ends in f. The answer has a stream, and d is a folder. */
  lemma FolderStreamedAsFile(bagId: string, r: Remote, d: string, f: string, size: nat)
    requires ProperSegment(d) && ProperSegment(f) && Accepted(d) && HasSuffix(d, f)
    requires r.configured && r.bag.RemoteFiles? && r.bag.files == FilesOf([Node([d, f], size)])
    requires size <= MAX_FILE_SERVE_SIZE && r.outcome.Streamed?
    ensures SoundRemote(r)
    ensures var a := RemoteAnswer(bagId, r, d);
            && a.error == None && a.info.stream == Some(r.outcome.stream)
            && FolderAt(Build(Places(r.bag.files)), PathSegments(d))
  {
    OneFileBag(d, f, size);
    FolderPath(d, [d]);
    var nodes := [Node([d, f], size)];
    assert Places(r.bag.files) == nodes;
    OnlyChildServes(Build(nodes), d, [d], f);
    ServedStreams(bagId, r, d, Build(nodes), [d], [Entry(f, size, false)]);
  }

  lemma TwoLetters(d: string, f: string)
    requires d == "ab" && f == "b"
    ensures ProperSegment(d) && ProperSegment(f) && HasSuffix(d, f) && Accepted(d)
  {
    assert d[2..] == "" && d[1..] == f && f[1..] == "";
    assert ByteLen(f[1..]) == 0 && ByteLen(d[1..]) == 1;
    SegmentIsAccepted(d, [d]);
  }

  /** One such bag: {ab/b}, asked for ab. */
  lemma AbStreamedAsFile(bagId: string, r: Remote, d: string, f: string, size: nat)
    requires d == "ab" && f == "b"
    requires r.configured && r.bag.RemoteFiles? && r.bag.files == FilesOf([Node([d, f], size)])
    requires size <= MAX_FILE_SERVE_SIZE && r.outcome.Streamed?
    ensures SoundRemote(r) && Accepted(d)
    ensures RemoteAnswer(bagId, r, d).info.stream.Some? && FolderAt(Build(Places(r.bag.files)), PathSegments(d))
  {
    TwoLetters(d, f);
    FolderStreamedAsFile(bagId, r, d, f, size);
  }

  lemma OnlyChildServes(t: Tree, path: string, q: Path, f: string)
    requires q == PathSegments(path) && OnlyChild(t, q, f) && HasSuffix(path, f)
    ensures RemoteServes(t, path)
  {
  }

  lemma ServedStreams(bagId: string, r: Remote, path: string, t: Tree, q: Path, shown: seq<Entry>)
    requires SoundRemote(r) && Accepted(path) && r.configured && r.bag.RemoteFiles? && r.bag.files != []
    requires t == Build(Places(r.bag.files)) && q == PathSegments(path) && shown == Show(t, q)
    requires RemoteServes(t, path) && CanStream(r, shown) && r.outcome.Streamed?
    ensures RemoteAnswer(bagId, r, path).error == None
    ensures RemoteAnswer(bagId, r, path).info.stream == Some(r.outcome.stream)
  {
    RemoteStreamExactly(bagId, r, path, t, q, shown);
  }

  lemma {:induction false} LocalMeans(bagId: string, bag: Option<Bag>, path: string)
    requires SoundLocal(bag) && Accepted(path) && LocalAnswer(bagId, bag, path).error == None
    requires NoSuffixChild(Build(Places(bag.value.files)), path)
    ensures Means(LocalAnswer(bagId, bag, path), Build(Places(bag.value.files)), PathSegments(path))
  {
    LastNameIsSuffix(path);
    ServedPath(bag.value.path, bag.value.dirName, path);
  }

  lemma {:induction false} RemoteMeans(bagId: string, r: Remote, path: string)
    requires SoundRemote(r) && Accepted(path) && RemoteAnswer(bagId, r, path).error == None
    requires NoSuffixChild(Build(Places(r.bag.files)), path)
    ensures Means(RemoteAnswer(bagId, r, path), Build(Places(r.bag.files)), PathSegments(path))
  {
    var t, q := Build(Places(r.bag.files)), PathSegments(path);
    RemoteServesFilesExactly(t, path);
    RemoteAnswerFound(bagId, r, path, t, q, Show(t, q));
    if Lookup(t, q) == None {
      AbsentIsNotServed(t, path);
    }
    FoundStreams(RemoteInfo(bagId, r.bag, Show(t, q)), Lookup(t, q) == None, RemoteServes(t, path), r.outcome);
  }

  /** Whichever source ends up answering, the listing is the tree's and content is served
      exactly for files, when the sources hold the same files. */
  lemma {:induction false} AnySourceMeansTheSame(bagId: string, w: World, path: string, t: Tree)
    requires Sound(w) && Accepted(path) && NoSuffixChild(t, path)
    requires w.before.Some? ==> Build(Places(w.before.value.files)) == t
    requires w.after.Some? ==> Build(Places(w.after.value.files)) == t
    requires w.remote.bag.RemoteFiles? ==> Build(Places(w.remote.bag.files)) == t
    requires PathInfo(bagId, w, path).error == None
    ensures w.banned == Some(false) && Means(PathInfo(bagId, w, path), t, PathSegments(path))
  {
    if LocalAnswer(bagId, w.before, path).error == None {
      LocalMeans(bagId, w.before, path);
    } else if w.added && LocalAnswer(bagId, w.after, path).error == None {
      LocalMeans(bagId, w.after, path);
    } else {
      RemoteMeans(bagId, w.remote, path);
    }
  }

  // ---- The file that is opened ---------------------------------------------------------------------

  /** The handler sanitises the file path of the answer before it opens it. For a bag with an
      absolute home it opens the file that was meant exactly when the path has no outer white
      space, is at most 4096 bytes long and holds no NUL. */
  lemma {:induction false} ServedIsOpenedExactly(b: Bag, path: string)
    requires Rooted(Home(b.path, b.dirName)) && Accepted(path) && PathSegments(path) != []
    ensures var served := JoinPath([b.path, b.dirName, path]);
            SanitizePath(served) == Ok(served) <==>
            Tight(served) && ByteLen(served) <= MAX_PATH_LENGTH && '\0' !in served
  {
    var served := JoinPath([b.path, b.dirName, path]);
    ServedPath(b.path, b.dirName, path);
    if served == [SEP] {
      SlashStack(served);
    }
    AbsoluteStays(served);
  }

  /** The failing input: a file whose name ends in white space. It can be asked for, with a slash
      behind the name, but the path that is opened is not the one that was meant. */
  lemma {:induction false} SpacedNameIsNotOpened(b: Bag, n: string, asked: string)
    requires Rooted(Home(b.path, b.dirName))
    requires ProperSegment(n) && !IsSpace(n[0]) && IsSpace(n[|n| - 1]) && '\0' !in n && ByteLen(n) <= MAX_PATH_LENGTH
    requires asked == n + [SEP]
    ensures SanitizePath(asked) == Ok(n) && PathSegments(n) == [n]
    ensures var served := JoinPath([b.path, b.dirName, n]); SanitizePath(served) != Ok(served)
  {
    SegmentIsAccepted(n, [n]);
    FolderPath(n, [n]);
    SlashBehind(n, asked);
    ServedIsOpenedExactly(b, n);
    ServedEndsInName(b, n);
  }

  lemma SlashBehind(n: string, asked: string)
    requires ProperSegment(n) && !IsSpace(n[0]) && Accepted(n) && asked == n + [SEP]
    ensures SanitizePath(asked) == Ok(n)
  {
    var nothing := "";
    TightStays(asked);
    OneSegment(nothing);
    NoPath(nothing);
    assert asked == n + [SEP] + nothing;
    StackBelow(n, nothing);
    assert Stack(n) + [] == Stack(n);
    AcceptedStack(n);
    AcceptedMeans(n);
    CheckedKeeps(n);
  }

  lemma ServedEndsInName(b: Bag, n: string)
    requires Rooted(Home(b.path, b.dirName)) && ProperSegment(n) && Accepted(n) && PathSegments(n) == [n]
    ensures var served := JoinPath([b.path, b.dirName, n]); HasSuffix(served, n)
  {
    var served := JoinPath([b.path, b.dirName, n]);
    ServedPath(b.path, b.dirName, n);
    var stack := Stack(served);
    assert stack[|stack| - 1] == n;
    JoinEndsWithLast(stack);
    assert served == [SEP] + Join(stack);
  }
}
