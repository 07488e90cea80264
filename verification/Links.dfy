/** The links of a listing page and the routes that read them back. */
module Links {
  import opened Text
  import opened DirectoryTree
  import opened Paths
  import opened Requests
  import opened Listing
  import opened Wrappers
  import Hex

  const API_BASE: string := "/api/v1/gateway"

  // ---- The links of HtmlFilesListWithTemplate ------------------------------------------------

  function ChildHref(api: string, bagId: string, path: string, name: string): string {
    if path == "" then JoinPath([api, ToUpper(bagId), name])
    else JoinPath([api, ToUpper(bagId), path, name])
  }

  function ParentHref(api: string, bagId: string, path: string): string {
    var parent := Dir(path);
    if parent == "." || parent == "" then JoinPath([api, ToUpper(bagId)])
    else JoinPath([api, ToUpper(bagId), parent])
  }

  /** The loop over the listed files. */
  method FileLinks(bagId: string, path: string, entries: seq<Entry>) returns (hrefs: seq<string>)
    ensures |hrefs| == |entries|
    ensures forall i | 0 <= i < |entries| :: hrefs[i] == ChildHref(API_BASE, bagId, path, entries[i].name)
  {
    hrefs := [];
    for i := 0 to |entries|
      invariant |hrefs| == i
      invariant forall k | 0 <= k < i :: hrefs[k] == ChildHref(API_BASE, bagId, path, entries[k].name)
    {
      var href;
      if path == "" {
        href := JoinPath([API_BASE, ToUpper(bagId), entries[i].name]);
      } else {
        href := JoinPath([API_BASE, ToUpper(bagId), path, entries[i].name]);
      }
      hrefs := hrefs + [href];
    }
  }

  // ---- The routes "/:bagid" and "/:bagid/*" ----------------------------------------------------

  datatype Page = BagPage(bag: string) | PathPage(bag: string, rest: string) | NoPage

  function FirstSep(s: string): nat
    ensures FirstSep(s) <= |s|
    ensures FirstSep(s) < |s| ==> s[FirstSep(s)] == SEP
  {
    if s == "" || s[0] == SEP then 0 else 1 + FirstSep(s[1..])
  }

  function Route(api: string, url: string): Page {
    if api + [SEP] <= url then
      var s := url[|api| + 1..];
      var k := FirstSep(s);
      if k == |s| then BagPage(s) else PathPage(s[..k], s[k + 1..])
    else NoPage
  }

  /** The bag id and the path that `getBag` and `getPath` hand on, for paths that need no
      percent-decoding. */
  function BagOf(page: Page): string
    requires !page.NoPage?
  {
    ToLower(page.bag)
  }

  function PathOf(page: Page): Result<string, PathError>
    requires !page.NoPage?
  {
    match page
    case BagPage(_) => SanitizePath("")
    case PathPage(_, rest) => SanitizePath(rest)
  }

  predicate HexDigit(c: char) {
    '0' <= c <= '9' || 'a' <= c <= 'f'
  }

  /** `validateBagID`. */
  predicate ValidBagId(bag: string) {
    |bag| == 64 && forall i | 0 <= i < 64 :: HexDigit(ToLower(bag)[i])
  }

  /** The valid ids are those that spell 32 bytes. */
  lemma ValidBagIdExactly(bag: string)
    ensures ValidBagId(bag) <==> |bag| == 64 && Hex.Decode(bag).Some?
  {
    Hex.DecodesExactly(bag);
    if |bag| == 64 {
      forall i | 0 <= i < 64 ensures HexDigit(ToLower(bag)[i]) <==> Hex.Digit(bag[i]).Some? {
        LowerHexDigit(bag[i]);
      }
    }
  }

  lemma LowerHexDigit(c: char)
    ensures HexDigit(LowerChar(c)) <==> Hex.Digit(c).Some?
  {
  }

  // ---- What the links spell ----------------------------------------------------------------------

  /** A cleaned absolute path other than "/": what is needed of `API_BASE`. */
  ghost predicate BaseUrl(api: string) {
    Rooted(api) && Clean(api) == api && ProperPath(Stack(api))
  }

  lemma {:induction false} ApiBaseIsBaseUrl(stack: Path)
    requires stack == ["api", "v1", "gateway"]
    ensures BaseUrl(API_BASE)
  {
    ApiBaseSpelled(stack);
    StackOfRender(true, stack);
  }

  lemma ApiBaseSpelled(stack: Path)
    requires stack == ["api", "v1", "gateway"]
    ensures ProperPath(stack) && Render(true, stack) == API_BASE
  {
    var tail := stack[1..];
    assert tail[1..] == ["gateway"];
    assert Join(tail[1..]) == "gateway";
    assert Join(tail) == "v1" + [SEP] + "gateway";
  }

  lemma UpperBagIsSegment(bag: string)
    requires ValidBagId(bag)
    ensures ProperSegment(ToUpper(bag)) && Split(ToUpper(bag)) == [ToUpper(bag)]
    ensures ToLower(ToUpper(bag)) == ToLower(bag)
  {
    LowerOfUpper(bag);
    var b := ToUpper(bag);
    forall i | 0 <= i < |b| ensures b[i] != SEP {
      assert HexDigit(ToLower(bag)[i]);
      assert LowerChar(b[i]) == LowerChar(bag[i]);
    }
  }

  lemma SegmentStack(name: string)
    requires ProperSegment(name)
    ensures Split(name) == [name] && NoDotDot(Split(name)) && Stack(name) == [name]
  {
    FoldWithoutDotDot(Rooted(name), [], [name]);
    assert Visible([name]) == [name] + Visible([]);
  }

  lemma JoinPathOfTwo(a: string, b: string)
    requires a != "" && NoDotDot(Split(b))
    ensures JoinPath([a, b]) == Render(Rooted(a), Stack(a) + Stack(b))
  {
    JoinPathBelow(a, b);
  }

  lemma JoinOfThree(a: string, b: string, c: string)
    ensures Join([a, b, c]) == a + [SEP] + b + [SEP] + c
  {
    assert [a, b, c][1..] == [b, c] && [b, c][1..] == [c];
    assert Join([b, c]) == b + [SEP] + c;
  }

  lemma {:induction false} JoinPathOfThree(a: string, b: string, c: string)
    requires a != "" && NoDotDot(Split(b)) && NoDotDot(Split(c))
    ensures JoinPath([a, b, c]) == Render(Rooted(a), Stack(a) + Stack(b) + Stack(c))
  {
    JoinOfThree(a, b, c);
    StackBelow(a, b);
    StackBelow(a + [SEP] + b, c);
  }

  lemma {:induction false} JoinPathOfFour(a: string, b: string, c: string, d: string)
    requires a != "" && NoDotDot(Split(b)) && NoDotDot(Split(c)) && NoDotDot(Split(d))
    ensures JoinPath([a, b, c, d]) == Render(Rooted(a), Stack(a) + Stack(b) + Stack(c) + Stack(d))
  {
    assert [a, b, c, d][1..] == [b, c, d];
    JoinOfThree(b, c, d);
    assert Join([a, b, c, d]) == a + [SEP] + b + [SEP] + c + [SEP] + d;
    StackBelow(a, b);
    StackBelow(a + [SEP] + b, c);
    StackBelow(a + [SEP] + b + [SEP] + c, d);
  }

  /** The url of a bag, or of a path in it. */
  function Url(api: string, bag: string, p: Path): string {
    api + [SEP] + bag + if p == [] then "" else [SEP] + Join(p)
  }

  lemma RenderIsUrl(api: string, bag: string, p: Path)
    requires BaseUrl(api)
    ensures Render(true, Stack(api) + [bag] + p) == Url(api, bag, p)
  {
    RenderBelow(Stack(api), bag, p);
  }

  lemma SlashOver(a: string, b: string)
    ensures [SEP] + (a + [SEP] + b) == [SEP] + a + [SEP] + b
  {
  }

  lemma RenderBelow(base: Path, bag: string, p: Path)
    requires base != []
    ensures Render(true, base + [bag] + p) == Url(Render(true, base), bag, p)
  {
    var head := base + [bag];
    JoinConcat(base, [bag]);
    assert Join([bag]) == bag;
    SlashOver(Join(base), bag);
    if p == [] {
      assert head + p == head;
    } else {
      JoinConcat(head, p);
      SlashOver(Join(head), Join(p));
    }
  }

  lemma {:induction false} FirstSepAfter(bag: string, rest: string)
    requires SEP !in bag
    ensures FirstSep(bag) == |bag|
    ensures FirstSep(bag + [SEP] + rest) == |bag|
  {
    if bag != "" {
      assert (bag + [SEP] + rest)[1..] == bag[1..] + [SEP] + rest;
      FirstSepAfter(bag[1..], rest);
    }
  }

  lemma RouteOfUrl(api: string, bag: string, p: Path)
    requires SEP !in bag
    ensures Route(api, Url(api, bag, p)) == if p == [] then BagPage(bag) else PathPage(bag, Join(p))
  {
    var url := Url(api, bag, p);
    FirstSepAfter(bag, Join(p));
    if p == [] {
      assert url[|api| + 1..] == bag;
    } else {
      var s := bag + [SEP] + Join(p);
      assert url == api + [SEP] + s;
      assert url[|api| + 1..] == s;
      assert s[..|bag|] == bag && s[|bag| + 1..] == Join(p);
    }
  }

  lemma AcceptedStack(q: string)
    requires Accepted(q)
    ensures Stack(q) == [] || ProperPath(Stack(q))
    ensures q == Render(Rooted(q), Stack(q))
  {
    AcceptedMeans(q);
    StackIsNormal(q);
    SplitOfRender(Rooted(q), Stack(q));
    assert forall i | 0 <= i < |Stack(q)| :: Stack(q)[i] in Stack(q);
  }

  lemma {:induction false} HrefUrl(api: string, bagId: string, p: string, name: string)
    requires BaseUrl(api) && ValidBagId(bagId) && NoDotDot(Split(p)) && p != "" && ProperSegment(name)
    ensures ChildHref(api, bagId, p, name) == Url(api, ToUpper(bagId), Stack(p) + [name])
  {
    var bag, base := ToUpper(bagId), Stack(api);
    UpperBagIsSegment(bagId);
    SegmentStack(bag);
    SegmentStack(name);
    JoinPathOfFour(api, bag, p, name);
    assert base + [bag] + Stack(p) + [name] == base + [bag] + (Stack(p) + [name]);
    RenderIsUrl(api, bag, Stack(p) + [name]);
  }

  /** The child link of the entry `name` at the path `p` routes to the same bag and to the
      segments of `p` followed by `name`. */
  lemma ChildLinkRoutes(api: string, bagId: string, p: string, name: string)
    requires BaseUrl(api) && ValidBagId(bagId) && IsLower(bagId) && Accepted(p) && ProperSegment(name)
    ensures var page := Route(api, ChildHref(api, bagId, p, name));
            page == PathPage(ToUpper(bagId), Join(Stack(p) + [name])) && BagOf(page) == bagId
  {
    AcceptedMeans(p);
    CleanIsNotEmpty(p);
    HrefUrl(api, bagId, p, name);
    UpperBagIsSegment(bagId);
    ToLowerFixesLower(bagId);
    RouteOfUrl(api, ToUpper(bagId), Stack(p) + [name]);
  }

  lemma DecideSpelled(c: string)
    requires c != "" && c != "." && c[0] != SEP && NoDotDot(Split(c)) && '\0' !in c
    ensures Decide(c, c) == if ByteLen(c) <= MAX_PATH_LENGTH then Ok(c) else Err(PathTooLong)
  {
  }

  lemma SpelledIsClean(stack: Path)
    requires ProperPath(stack)
    ensures var c := Join(stack);
            c != "" && c != "." && c[0] != SEP && Clean(c) == c && Stack(c) == stack && !Rooted(c)
    ensures NoDotDot(Split(Join(stack)))
  {
    assert Climbing(stack, 0);
    StackOfRender(false, stack);
    SplitOfRender(false, stack);
    ProperJoinEnds(stack);
    SpelledIsNotDot(stack);
  }

  lemma SpelledIsNotDot(stack: Path)
    requires ProperPath(stack)
    ensures Join(stack) != "."
  {
    NameOfPath(stack);
    assert stack[0] in stack;
    if |stack| == 1 {
      assert Join(stack) == stack[0];
    } else {
      assert |Join(stack)| > 1;
    }
  }

  lemma {:induction false} SanitizeSpelled(stack: Path)
    requires ProperPath(stack) && Tight(Join(stack))
    requires '\0' !in Join(stack)
    ensures SanitizePath(Join(stack))
            == if ByteLen(Join(stack)) <= MAX_PATH_LENGTH then Ok(Join(stack)) else Err(PathTooLong)
  {
    SpelledIsClean(stack);
    SanitizeClean(Join(stack));
  }

  lemma SanitizeClean(c: string)
    requires c != "" && c != "." && c[0] != SEP && NoDotDot(Split(c)) && '\0' !in c && Clean(c) == c && Tight(c)
    ensures SanitizePath(c) == if ByteLen(c) <= MAX_PATH_LENGTH then Ok(c) else Err(PathTooLong)
  {
    TightStays(c);
    DecideSpelled(c);
  }

  lemma RootSegments(p: string)
    requires p == "." || p == "/"
    ensures PathSegments(p) == []
  {
    TrimKeeps(".", Slashes);
    if p == "/" {
      assert p[1..] == "";
      assert TrimLeft(p, Slashes) == "";
    }
  }

  lemma TrimOneSlash(s: string)
    requires s != "" && s[0] != SEP && s[|s| - 1] != SEP
    ensures Trim([SEP] + s) == s
  {
    assert ([SEP] + s)[1..] == s;
    assert TrimLeft([SEP] + s, Slashes) == s;
  }

  lemma {:induction false} SlashInFront(s: string, slashed: string)
    requires s != "" && s[0] != SEP && s[|s| - 1] != SEP && slashed == [SEP] + s
    ensures PathSegments(slashed) == PathSegments(s)
  {
    TrimOneSlash(s);
    TrimKeeps(s, Slashes);
  }

  lemma SegmentsOfSlashed(stack: Path, spelled: string, p: string)
    requires ProperPath(stack) && spelled == Join(stack) && p == [SEP] + spelled
    ensures PathSegments(p) == stack
  {
    ProperJoinEnds(stack);
    SlashInFront(spelled, p);
    NameOfPath(stack);
  }

  /** The listing reads an accepted path as its cleaned segments. */
  lemma AcceptedSegments(p: string)
    requires Accepted(p)
    ensures PathSegments(p) == Stack(p)
  {
    AcceptedStack(p);
    if Stack(p) == [] {
      RootSegments(p);
    } else if Rooted(p) {
      SegmentsOfSlashed(Stack(p), Join(Stack(p)), p);
    } else {
      NameOfPath(Stack(p));
    }
  }

  /** The segments of an accepted request: the names that no ".." cancels. */
  lemma SanitizedSegments(path: string)
    requires SanitizePath(path).Ok?
    ensures PathSegments(SanitizePath(path).value) == Kept(Split(TrimSpace(path)), 0)
  {
    SanitizedIsAccepted(path);
    SanitizedMeans(path);
    AcceptedSegments(SanitizePath(path).value);
  }

  lemma SegmentIsAccepted(s: string, p: Path)
    requires ProperSegment(s) && p == [s] && '\0' !in s && ByteLen(s) <= MAX_PATH_LENGTH
    ensures Accepted(s)
  {
    assert Join(p) == s;
    SpelledIsClean(p);
    OneSegment(s);
  }

  /** Following a child link and sanitising gives p/name in the same bag. The one way it can
      fail is that p/name is longer than 4096 bytes. */
  lemma ChildLinkOpens(api: string, bagId: string, p: string, name: string)
    requires BaseUrl(api) && ValidBagId(bagId) && IsLower(bagId) && Accepted(p) && ProperSegment(name)
    requires var c := Join(Stack(p) + [name]); Tight(c) && '\0' !in c
    ensures var page, c := Route(api, ChildHref(api, bagId, p, name)), Join(Stack(p) + [name]);
            && !page.NoPage? && page.bag == ToUpper(bagId) && BagOf(page) == bagId
            && PathOf(page) == (if ByteLen(c) <= MAX_PATH_LENGTH then Ok(c) else Err(PathTooLong))
            && PathSegments(c) == PathSegments(p) + [name]
  {
    ChildLinkRoutes(api, bagId, p, name);
    AcceptedStack(p);
    AcceptedSegments(p);
    ProperSnoc(Stack(p), name);
    OpenSpelled(ToUpper(bagId), Stack(p) + [name]);
  }

  /** Printable ASCII characters other than the slash and the full stop. */
  ghost predicate PlainText(s: string) {
    forall i | 0 <= i < |s| :: '!' <= s[i] <= '~' && s[i] != SEP && s[i] != '.'
  }

  ghost predicate Printable(s: string) {
    forall i | 0 <= i < |s| :: '!' <= s[i] <= '~'
  }

  lemma {:induction false} PrintableBytes(s: string)
    requires Printable(s)
    ensures ByteLen(s) == |s|
  {
    if s != "" {
      PrintableBytes(s[1..]);
    }
  }

  lemma PrintableStays(s: string)
    requires Printable(s) && s != ""
    ensures '\0' !in s && Tight(s)
  {
    assert !IsSpace(s[0]) && !IsSpace(s[|s| - 1]);
  }

  lemma PlainTextIsProper(s: string)
    requires PlainText(s) && s != ""
    ensures ProperSegment(s) && Printable(s)
  {
    assert s[0] != '.';
  }

  lemma PrintablePair(p: string, name: string, c: string)
    requires Printable(p) && Printable(name) && c == p + [SEP] + name
    ensures Printable(c) && |c| == |p| + 1 + |name|
  {
  }

  /** The refusal happens: on the page of a folder whose name has 4096 characters, every child
      link is refused. */
  lemma LongChildIsRefused(api: string, bagId: string, p: string, name: string)
    requires BaseUrl(api) && ValidBagId(bagId) && IsLower(bagId)
    requires PlainText(p) && |p| == MAX_PATH_LENGTH && PlainText(name) && name != ""
    ensures Accepted(p) && ProperSegment(name)
    ensures var page := Route(api, ChildHref(api, bagId, p, name));
            !page.NoPage? && PathOf(page) == Err(PathTooLong)
  {
    PlainTextIsProper(p);
    PlainTextIsProper(name);
    PrintableBytes(p);
    PrintableStays(p);
    SegmentIsAccepted(p, [p]);
    SegmentStack(p);
    var c := p + [SEP] + name;
    PrintablePair(p, name, c);
    PrintableBytes(c);
    PrintableStays(c);
    JoinOfPair(p, name);
    ChildLinkOpens(api, bagId, p, name);
  }

  lemma JoinOfPair(p: string, name: string)
    ensures Join([p] + [name]) == p + [SEP] + name
  {
    JoinConcat([p], [name]);
    assert Join([p]) == p && Join([name]) == name;
  }

  lemma ProperSnoc(stack: Path, name: string)
    requires (stack == [] || ProperPath(stack)) && ProperSegment(name)
    ensures ProperPath(stack + [name])
  {
  }

  lemma {:induction false} OpenSpelled(bag: string, stack: Path)
    requires ProperPath(stack) && Tight(Join(stack)) && '\0' !in Join(stack)
    ensures PathOf(PathPage(bag, Join(stack)))
            == if ByteLen(Join(stack)) <= MAX_PATH_LENGTH then Ok(Join(stack)) else Err(PathTooLong)
    ensures PathSegments(Join(stack)) == stack
  {
    SanitizeSpelled(stack);
    NameOfPath(stack);
  }

  lemma OpenRoot(bag: string)
    ensures PathOf(BagPage(bag)) == Ok(".") && PathSegments(".") == []
  {
    RootSegments(".");
  }

  lemma LeadingSlashOnly(p: string)
    requires Accepted(p) && Stack(p) != []
    ensures ByteLen(Join(Stack(p))) <= MAX_PATH_LENGTH && '\0' !in Join(Stack(p))
  {
    AcceptedMeans(p);
    AcceptedStack(p);
    if Rooted(p) {
      assert p[1..] == Join(Stack(p));
    }
  }

  /** The directory of an accepted path is the path without its last segment. */
  lemma DirOfAccepted(q: string, stack: Path, front: Path)
    requires Accepted(q) && stack == Stack(q) && front == if stack == [] then [] else stack[..|stack| - 1]
    ensures Dir(q) == Render(Rooted(q), front)
  {
    AcceptedStack(q);
    if stack == [] {
      DirOfRoot(q);
    } else {
      var name := stack[|stack| - 1];
      assert stack == front + [name] && name in stack;
      assert Climbing(front, 0);
      if Rooted(q) {
        DirOfRooted(q, front, name);
      } else {
        DirOfChild(front, name);
      }
    }
  }

  lemma DirOfRoot(q: string)
    requires q == Render(Rooted(q), [])
    ensures Dir(q) == q
  {
    if Rooted(q) {
      assert q[..1] == q;
      SlashIsClean(q);
    } else {
      var nothing := q[..0];
      LastSepOfName(q);
      NoPath(nothing);
    }
  }

  lemma DirOfRooted(q: string, front: Path, name: string)
    requires Normal(true, front) && ProperSegment(name) && q == Render(true, front + [name])
    ensures Dir(q) == Render(true, front)
  {
    var folder, nothing := Render(true, front), "";
    NoPath(nothing);
    OneSegment(nothing);
    StackOfRender(true, front);
    if front == [] {
      assert front + [name] == [name] && q == nothing + [SEP] + name;
      LastSepOfChild(nothing, name);
      assert q[..1] == [SEP];
    } else {
      JoinConcat(front, [name]);
      assert Join([name]) == name;
      SlashOver(Join(front), name);
      assert q == folder + [SEP] + name;
      LastSepOfChild(folder, name);
      assert q[..|folder| + 1] == folder + [SEP] + nothing;
      StackBelow(folder, nothing);
      assert front + [] == front;
    }
  }

  lemma {:induction false} ParentHrefUrl(api: string, bagId: string, q: string, front: Path)
    requires BaseUrl(api) && ValidBagId(bagId) && Accepted(q)
    requires front == if Stack(q) == [] then [] else Stack(q)[..|Stack(q)| - 1]
    ensures ParentHref(api, bagId, q) == Url(api, ToUpper(bagId), front)
  {
    DirOfAccepted(q, Stack(q), front);
    AcceptedStack(q);
    assert Climbing(front, 0);
    StackOfRender(Rooted(q), front);
    SplitOfRender(Rooted(q), front);
    CleanIsNotEmpty(q[..LastSep(q) + 1]);
    JoinedUrl(api, bagId, Dir(q), front);
  }

  lemma JoinedUrl(api: string, bagId: string, parent: string, front: Path)
    requires BaseUrl(api) && ValidBagId(bagId) && NoDotDot(Split(parent)) && parent != "" && Stack(parent) == front
    ensures (if parent == "." then JoinPath([api, ToUpper(bagId)]) else JoinPath([api, ToUpper(bagId), parent]))
            == Url(api, ToUpper(bagId), front)
  {
    var bag, base := ToUpper(bagId), Stack(api);
    UpperBagIsSegment(bagId);
    SegmentStack(bag);
    RenderIsUrl(api, bag, front);
    if parent == "." {
      DotStack(parent);
      JoinPathOfTwo(api, bag);
      assert base + [bag] + [] == base + [bag];
    } else {
      JoinPathOfThree(api, bag, parent);
    }
  }

  /** The parent link on the page of any accepted path opens the same bag at the path without
      its last segment; the root page links to itself. */
  lemma {:induction false} ParentLinkOpens(api: string, bagId: string, q: string, front: Path)
    requires BaseUrl(api) && ValidBagId(bagId) && IsLower(bagId) && Accepted(q)
    requires front == if PathSegments(q) == [] then [] else PathSegments(q)[..|PathSegments(q)| - 1]
    requires Tight(Join(front))
    ensures var page := Route(api, ParentHref(api, bagId, q));
            && !page.NoPage? && BagOf(page) == bagId
            && PathOf(page) == Ok(if front == [] then "." else Join(front))
            && PathSegments(PathOf(page).value) == front
  {
    AcceptedSegments(q);
    AcceptedStack(q);
    ParentHrefUrl(api, bagId, q, front);
    UpperBagIsSegment(bagId);
    ToLowerFixesLower(bagId);
    RouteOfUrl(api, ToUpper(bagId), front);
    FrontIsShort(q, front);
    StackOpens(ToUpper(bagId), front, Join(front));
  }

  lemma {:induction false} ByteLenConcat(a: string, b: string)
    ensures ByteLen(a + b) == ByteLen(a) + ByteLen(b)
  {
    if a == "" {
      assert a + b == b;
    } else {
      assert (a + b)[1..] == a[1..] + b;
      ByteLenConcat(a[1..], b);
    }
  }

  lemma FrontIsShort(q: string, front: Path)
    requires Accepted(q) && front == if Stack(q) == [] then [] else Stack(q)[..|Stack(q)| - 1]
    ensures front == [] || (ProperPath(front) && ByteLen(Join(front)) <= MAX_PATH_LENGTH && '\0' !in Join(front))
  {
    AcceptedStack(q);
    if front != [] {
      LeadingSlashOnly(q);
      var name := Stack(q)[|Stack(q)| - 1];
      assert Stack(q) == front + [name];
      JoinConcat(front, [name]);
      assert Join([name]) == name;
      ByteLenConcat(Join(front), [SEP] + name);
      assert Join(front) + ([SEP] + name) == Join(front) + [SEP] + name;
    }
  }

  lemma {:induction false} ParentUrl(api: string, bagId: string, stack: Path, name: string)
    requires BaseUrl(api) && ValidBagId(bagId) && ProperSegment(name)
    requires stack == [] || ProperPath(stack)
    ensures ParentHref(api, bagId, Join(stack + [name])) == Url(api, ToUpper(bagId), stack)
  {
    var bag, base := ToUpper(bagId), Stack(api);
    UpperBagIsSegment(bagId);
    SegmentStack(bag);
    assert Climbing(stack, 0);
    DirOfChild(stack, name);
    RenderIsUrl(api, bag, stack);
    if stack == [] {
      JoinPathOfTwo(api, bag);
      assert base + [bag] + [] == base + [bag];
    } else {
      SpelledIsClean(stack);
      JoinPathOfThree(api, bag, Join(stack));
    }
  }

  /** The parent link on the page of p/name leads back to p, without a leading slash. */
  lemma {:induction false} ParentLinkReturns(api: string, bagId: string, p: string, name: string)
    requires BaseUrl(api) && ValidBagId(bagId) && IsLower(bagId) && Accepted(p) && ProperSegment(name)
    requires Tight(Join(Stack(p)))
    ensures var page := Route(api, ParentHref(api, bagId, Join(Stack(p) + [name])));
            && !page.NoPage? && BagOf(page) == bagId
            && PathOf(page) == Ok(if Stack(p) == [] then "." else Join(Stack(p)))
            && PathSegments(PathOf(page).value) == PathSegments(p)
  {
    ParentLinkRoutes(api, bagId, p, name);
    AcceptedOpens(ToUpper(bagId), p);
  }

  /** The page of a stack of segments opens at them. */
  lemma {:induction false} StackOpens(bag: string, stack: Path, spelled: string)
    requires spelled == Join(stack) && Tight(spelled)
    requires stack == [] || (ProperPath(stack) && ByteLen(spelled) <= MAX_PATH_LENGTH && '\0' !in spelled)
    ensures var page := if stack == [] then BagPage(bag) else PathPage(bag, spelled);
            && PathOf(page) == Ok(if stack == [] then "." else spelled)
            && PathSegments(PathOf(page).value) == stack
  {
    if stack == [] {
      OpenRoot(bag);
    } else {
      OpenSpelled(bag, stack);
    }
  }

  lemma {:induction false} AcceptedOpens(bag: string, p: string)
    requires Accepted(p) && Tight(Join(Stack(p)))
    ensures var page := if Stack(p) == [] then BagPage(bag) else PathPage(bag, Join(Stack(p)));
            && PathOf(page) == Ok(if Stack(p) == [] then "." else Join(Stack(p)))
            && PathSegments(PathOf(page).value) == PathSegments(p)
  {
    AcceptedStack(p);
    AcceptedSegments(p);
    if Stack(p) != [] {
      LeadingSlashOnly(p);
    }
    StackOpens(bag, Stack(p), Join(Stack(p)));
  }

  lemma {:induction false} ParentLinkRoutes(api: string, bagId: string, p: string, name: string)
    requires BaseUrl(api) && ValidBagId(bagId) && IsLower(bagId) && Accepted(p) && ProperSegment(name)
    ensures var page := Route(api, ParentHref(api, bagId, Join(Stack(p) + [name])));
            && page == (if Stack(p) == [] then BagPage(ToUpper(bagId)) else PathPage(ToUpper(bagId), Join(Stack(p))))
            && BagOf(page) == bagId
  {
    UpperBagIsSegment(bagId);
    ToLowerFixesLower(bagId);
    AcceptedStack(p);
    ParentUrl(api, bagId, Stack(p), name);
    RouteOfUrl(api, ToUpper(bagId), Stack(p));
  }
}
