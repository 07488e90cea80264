/** From the path a client asks for to a path the file service may use: `sanitizePath`. */
module Requests {
  import opened Text
  import opened DirectoryTree
  import opened Paths
  import opened Wrappers

  const MAX_PATH_LENGTH: nat := 4096

  datatype PathError = PathTooLong | InvalidSegment | InvalidPath

  // ---- sanitizePath ------------------------------------------------------------------------

  function Checked(cleaned: string): Result<string, PathError> {
    if ByteLen(cleaned) > MAX_PATH_LENGTH then Err(PathTooLong)
    else if ".." in Split(cleaned) then Err(InvalidSegment)
    else if '\0' in cleaned then Err(InvalidPath)
    else Ok(cleaned)
  }

  function Decide(p: string, cleaned: string): Result<string, PathError> {
    if p == "" || p == "." || p == "/" || cleaned == "." then Ok(".") else Checked(cleaned)
  }

  function SanitizePath(path: string): Result<string, PathError> {
    var p := TrimSpace(path);
    Decide(p, Clean(p))
  }

  /** What an accepted path has to be: in normal form, without "..", without NUL, at most 4096
      bytes long. */
  datatype Rule = IsClean | HasNoParent | HasNoNul | IsShort

  predicate Obeys(q: string, rule: Rule) {
    match rule
    case IsClean => Clean(q) == q
    case HasNoParent => NoDotDot(Split(q))
    case HasNoNul => '\0' !in q
    case IsShort => ByteLen(q) <= MAX_PATH_LENGTH
  }

  ghost predicate Accepted(q: string) {
    forall rule :: Obeys(q, rule)
  }

  lemma AcceptedMeans(q: string)
    ensures Accepted(q) <==> Clean(q) == q && NoDotDot(Split(q)) && '\0' !in q && ByteLen(q) <= MAX_PATH_LENGTH
  {
    if Accepted(q) {
      assert Obeys(q, IsClean) && Obeys(q, HasNoParent) && Obeys(q, HasNoNul) && Obeys(q, IsShort);
    }
  }

  lemma DotIsAccepted()
    ensures Accepted(".") && Stack(".") == []
  {
    var dot := ".";
    OneSegment(dot);
    DotStack(dot);
  }

  /** Only cleaned paths of at most 4096 bytes without ".." come out. */
  lemma {:induction false} SanitizedIsAccepted(path: string)
    requires SanitizePath(path).Ok?
    ensures Accepted(SanitizePath(path).value)
  {
    DotIsAccepted();
    CleanIsIdempotent(TrimSpace(path));
  }

  /** A relative path climbs when some prefix of it steps above where it starts. */
  predicate Climbs(segments: seq<string>, depth: nat) {
    if segments == [] then false
    else if segments[0] == "" || segments[0] == "." then Climbs(segments[1..], depth)
    else if segments[0] != ".." then Climbs(segments[1..], depth + 1)
    else depth == 0 || Climbs(segments[1..], depth - 1)
  }

  lemma {:induction false} BottomStays(stack: Path, segments: seq<string>)
    requires stack != [] && stack[0] == ".."
    ensures Fold(false, stack, segments) != [] && Fold(false, stack, segments)[0] == ".."
    decreases |segments|
  {
    if segments != [] {
      BottomStays(Push(false, stack, segments[0]), segments[1..]);
    }
  }

  lemma {:induction false} ClimbingLeavesDotDot(stack: Path, segments: seq<string>)
    requires NoDotDot(stack)
    ensures NoDotDot(Fold(false, stack, segments)) <==> !Climbs(segments, |stack|)
    decreases |segments|
  {
    if segments != [] {
      var next := Push(false, stack, segments[0]);
      assert stack != [] ==> stack[|stack| - 1] in stack;
      if segments[0] == ".." && stack == [] {
        BottomStays(next, segments[1..]);
        assert Fold(false, next, segments[1..])[0] in Fold(false, next, segments[1..]);
      } else {
        assert segments[0] == ".." ==> forall s | s in next :: s in stack;
        assert segments[0] != ".." ==> forall s | s in next :: s in stack || s == segments[0];
        ClimbingLeavesDotDot(next, segments[1..]);
      }
    }
  }

  lemma RootedHasNoDotDot(p: string)
    requires Rooted(p)
    ensures NoDotDot(Stack(p))
  {
    StackIsNormal(p);
  }

  lemma SplitOfRender(rooted: bool, stack: Path)
    requires Normal(rooted, stack)
    ensures NoDotDot(Split(Render(rooted, stack))) <==> NoDotDot(stack)
  {
    NormalIsPlain(rooted, stack);
    var s := Render(rooted, stack);
    if stack != [] {
      SplitJoin(stack);
      if rooted {
        assert s[1..] == Join(stack);
        assert Split(s) == [""] + stack;
      }
    } else if rooted {
      OnlySlash(s);
    } else {
      OneSegment(s);
    }
  }

  lemma CleanedClimbsExactly(p: string)
    ensures NoDotDot(Split(Clean(p))) <==> Rooted(p) || !Climbs(Split(p), 0)
  {
    StackIsNormal(p);
    SplitOfRender(Rooted(p), Stack(p));
    if Rooted(p) {
      RootedHasNoDotDot(p);
    } else {
      ClimbingLeavesDotDot([], Split(p));
    }
  }

  lemma NoPath(p: string)
    requires p == ""
    ensures Stack(p) == [] && !Rooted(p)
  {
    OneSegment(p);
    assert [p][1..] == [];
    assert Push(false, [], p) == [];
  }

  lemma SlashIsClean(p: string)
    requires p == [SEP]
    ensures Clean(p) == p && Checked(p) == Ok(p)
  {
    SlashStack(p);
    SlashIsChecked(p);
  }

  lemma CheckedExactly(c: string)
    ensures Checked(c).Ok? <==> ByteLen(c) <= MAX_PATH_LENGTH && NoDotDot(Split(c)) && '\0' !in c
  {
  }

  /** A path is refused for its ".." exactly when it is relative and climbs above its start;
      it is accepted exactly when it does not, fits in 4096 bytes once cleaned, and holds no NUL. */
  lemma {:induction false} AcceptedExactly(path: string)
    ensures var p := TrimSpace(path);
            SanitizePath(path).Ok? <==>
            || Clean(p) == "."
            || (&& ByteLen(Clean(p)) <= MAX_PATH_LENGTH
                && (Rooted(p) || !Climbs(Split(p), 0))
                && '\0' !in Clean(p))
  {
    var p := TrimSpace(path);
    CleanedClimbsExactly(p);
    CheckedExactly(Clean(p));
    if p == "" {
      NoPath(p);
    } else if p == "." {
      DotStack(p);
    } else if p == [SEP] {
      SlashIsClean(p);
    }
  }

  /** The paths that `sanitizePath` answers without looking at their segments. */
  predicate IsRoot(p: string) {
    p == "" || p == "." || p == "/" || Clean(p) == "."
  }

  lemma {:induction false} RootIsChecked(p: string)
    requires IsRoot(p)
    ensures Checked(Clean(p)).Ok? && Stack(p) == [] && (Rooted(p) ==> p == "/")
  {
    CleanIsIdempotent(p);
    if p == [SEP] {
      SlashIsClean(p);
      SlashStack(p);
    } else {
      if p == "" {
        NoPath(p);
      } else if p == "." {
        DotStack(p);
      }
      DotIsChecked(Clean(p));
    }
  }

  lemma DotIsChecked(c: string)
    requires c == "."
    ensures Checked(c).Ok? && Stack(c) == [] && !Rooted(c)
  {
    DotStack(c);
    OneSegment(c);
    assert ByteLen(c[1..]) == 0;
    CheckedExactly(c);
  }

  lemma DecideExactly(p: string)
    ensures Decide(p, Clean(p)) == if IsRoot(p) then Ok(".") else Checked(Clean(p))
    ensures Decide(p, Clean(p)).Err? ==> Decide(p, Clean(p)) == Checked(Clean(p))
  {
  }

  lemma NothingClimbs(stack: Path, climb: nat, kept: Path)
    requires Parts(stack, climb, kept) && NoDotDot(stack)
    ensures stack == kept
  {
    assert stack != [] ==> stack[0] in stack;
  }

  lemma TameIsKept(p: string)
    requires NoDotDot(Split(Clean(p)))
    ensures Stack(p) == Kept(Split(p), 0)
  {
    StackIsNormal(p);
    SplitOfRender(Rooted(p), Stack(p));
    StackIsKept(p);
    if !Rooted(p) {
      NothingClimbs(Stack(p), Climb(Split(p), 0), Kept(Split(p), 0));
    }
  }

  /** What comes out of an accepted path: the names that no ".." cancels, from the root if the
      path is rooted. */
  lemma {:induction false} SanitizedMeans(path: string)
    requires SanitizePath(path).Ok?
    ensures var p, q := TrimSpace(path), SanitizePath(path).value;
            && Stack(q) == Kept(Split(p), 0)
            && (Rooted(q) <==> Rooted(p) && p != "/")
            && q == Render(Rooted(q), Stack(q))
  {
    var p := TrimSpace(path);
    DecideExactly(p);
    if IsRoot(p) {
      RootIsChecked(p);
      var dot := ".";
      DotIsChecked(dot);
    } else {
      CleanIsIdempotent(p);
    }
    CheckedExactly(Clean(p));
    TameIsKept(p);
  }

  /** A name and the ".." after it may be left out of a request. */
  lemma SanitizeCancels(p: string, s: string, b: string)
    requires p != "" && ProperSegment(s) && Tight(p + [SEP] + b)
    ensures SanitizePath(p + [SEP] + s + [SEP] + ".." + [SEP] + b) == SanitizePath(p + [SEP] + b)
  {
    var long, short := p + [SEP] + s + [SEP] + ".." + [SEP] + b, p + [SEP] + b;
    ParentCancels(p, s, b);
    SameEnds(p, s + [SEP] + "..", b, long, short);
    TightStays(short);
    TightStays(long);
    SameCleaned(long, short);
  }

  lemma SameEnds(p: string, middle: string, b: string, long: string, short: string)
    requires p != "" && long == p + [SEP] + middle + [SEP] + b && short == p + [SEP] + b
    ensures Tight(long) <==> Tight(short)
  {
    assert long[0] == short[0];
    assert long[|long| - 1] == short[|short| - 1];
  }

  lemma SameCleaned(a: string, b: string)
    requires Clean(a) == Clean(b) && |a| > 1 && |b| > 1
    ensures Decide(a, Clean(a)) == Decide(b, Clean(b))
  {
  }

  /** Which refusal: too long once cleaned, else climbing, else a NUL. */
  lemma {:induction false} RefusedExactly(path: string)
    ensures var p := TrimSpace(path);
            var long, climbs, nul := ByteLen(Clean(p)) > 4096, !Rooted(p) && Climbs(Split(p), 0), '\0' in Clean(p);
            && (SanitizePath(path) == Err(PathTooLong) <==> long)
            && (SanitizePath(path) == Err(InvalidSegment) <==> !long && climbs)
            && (SanitizePath(path) == Err(InvalidPath) <==> !long && !climbs && nul)
  {
    var p := TrimSpace(path);
    CleanedClimbsExactly(p);
    DecideExactly(p);
    if IsRoot(p) {
      RootIsChecked(p);
    }
  }

  // ---- Sanitising twice ------------------------------------------------------------------------

  function Cost(segments: seq<string>): nat {
    if segments == [] then 0 else |segments[0]| + 1 + Cost(segments[1..])
  }

  lemma {:induction false} CostOfSplit(s: string)
    ensures Cost(Split(s)) == |s| + 1
  {
    if s != "" {
      CostOfSplit(s[1..]);
      var rest := Split(s[1..]);
      if s[0] == SEP {
        assert Split(s)[1..] == rest;
      } else {
        assert Split(s)[1..] == rest[1..];
      }
    }
  }

  lemma {:induction false} CostConcat(a: seq<string>, b: seq<string>)
    ensures Cost(a + b) == Cost(a) + Cost(b)
  {
    if a == [] {
      assert a + b == b;
    } else {
      assert (a + b)[1..] == a[1..] + b;
      CostConcat(a[1..], b);
    }
  }

  lemma {:induction false} CostOfJoin(stack: Path)
    requires stack != []
    ensures |Join(stack)| + 1 == Cost(stack)
  {
    if |stack| > 1 {
      CostOfJoin(stack[1..]);
    } else {
      assert stack[1..] == [];
    }
  }

  lemma {:induction false} FoldNeverGrows(rooted: bool, stack: Path, segments: seq<string>)
    ensures Cost(Fold(rooted, stack, segments)) <= Cost(stack) + Cost(segments)
    decreases |segments|
  {
    if segments != [] {
      var next := Push(rooted, stack, segments[0]);
      if stack != [] {
        CostConcat(stack[..|stack| - 1], [stack[|stack| - 1]]);
        assert stack == stack[..|stack| - 1] + [stack[|stack| - 1]];
      }
      CostConcat(stack, [segments[0]]);
      FoldNeverGrows(rooted, next, segments[1..]);
    }
  }

  lemma FoldRootedNeverGrows(segments: seq<string>)
    requires segments != [] && segments[0] == ""
    ensures Cost(Fold(true, [], segments)) < Cost(segments)
  {
    FoldNeverGrows(true, [], segments[1..]);
  }

  /** Cleaning a non-empty path never makes it longer. */
  lemma CleanNeverGrows(p: string)
    requires p != ""
    ensures |Clean(p)| <= |p|
  {
    CostOfSplit(p);
    FoldNeverGrows(Rooted(p), [], Split(p));
    if Rooted(p) {
      assert Split(p)[0] == "";
      FoldRootedNeverGrows(Split(p));
    }
    if Stack(p) != [] {
      CostOfJoin(Stack(p));
    }
  }

  lemma CheckedKeeps(q: string)
    requires Accepted(q)
    ensures Checked(q) == Ok(q)
  {
    AcceptedMeans(q);
  }

  lemma DecideKeeps(q: string, p: string, cleaned: string)
    requires Checked(q) == Ok(q) && q != ""
    requires if p == q then cleaned == q else q != "." && (p != "" ==> |cleaned| < |q|)
    ensures Decide(p, cleaned) == Ok(q) <==> p == q && q != "/"
  {
  }

  lemma {:induction false} AcceptedAgain(q: string)
    requires Accepted(q)
    ensures SanitizePath(q) == Ok(q) <==> TrimSpace(q) == q && q != "/"
  {
    AcceptedMeans(q);
    CheckedKeeps(q);
    var p := TrimSpace(q);
    if p != q {
      TrimmedIsNotDot(q, p);
    }
    if p != q && p != "" {
      CleanNeverGrows(p);
    }
    CleanIsNotEmpty(q);
    DecideKeeps(q, p, Clean(p));
  }

  /** Sanitising an accepted path again gives it back exactly when it has no outer white
      space and is not "/". */
  lemma SanitizeTwice(path: string)
    requires SanitizePath(path).Ok?
    ensures var q := SanitizePath(path).value;
            SanitizePath(q) == Ok(q) <==> TrimSpace(q) == q && q != "/"
  {
    SanitizedIsAccepted(path);
    AcceptedAgain(SanitizePath(path).value);
  }

  /** A cleaned absolute path other than "/" is kept exactly when it has no outer white space,
      fits and holds no NUL. */
  lemma {:induction false} AbsoluteStays(q: string)
    requires Clean(q) == q && Rooted(q) && q != "/"
    ensures SanitizePath(q) == Ok(q) <==> Tight(q) && ByteLen(q) <= MAX_PATH_LENGTH && '\0' !in q
  {
    CleanedClimbsExactly(q);
    AcceptedMeans(q);
    TightStays(q);
    if SanitizePath(q) == Ok(q) {
      SanitizedIsAccepted(q);
    }
    if Accepted(q) {
      AcceptedAgain(q);
    }
  }

  lemma TrimmedIsNotDot(q: string, p: string)
    requires p == TrimSpace(q) && p != q
    ensures q != "." && |p| < |q|
  {
    if |q| == 1 && !IsSpace(q[0]) {
      TrimKeeps(q, Spaces);
    }
  }

  lemma CleanIsNotEmpty(p: string)
    ensures Clean(p) != ""
  {
    StackIsNormal(p);
    NormalIsPlain(Rooted(p), Stack(p));
    if Stack(p) != [] {
      assert Stack(p)[0] in Stack(p);
      JoinStartsPlain(Stack(p));
    }
  }

  lemma SlashesAreOneSlash(p: string)
    requires p == "//"
    ensures Stack(p) == [] && Rooted(p)
  {
    var q, r := p[1..], p[2..];
    assert r == "" && q[1..] == r && q[0] == SEP;
    assert Split(r) == [""];
    assert Split(q) == [""] + Split(r);
    assert Split(p) == [""] + Split(q);
    FoldConcat(true, [], [""], Split(q));
    FoldConcat(true, [], [""], Split(r));
    assert Fold(true, [], [""]) == [];
  }

  lemma SlashIsChecked(q: string)
    requires q == Render(true, [])
    ensures q == "/" && Checked(q) == Ok(q)
  {
    SplitOfRender(true, []);
    assert q == [SEP] && q[1..] == "";
    assert ByteLen(q[1..]) == 0;
  }

  lemma SlashesAreNotSpace(p: string)
    requires p != "" && forall i | 0 <= i < |p| :: p[i] == SEP
    ensures TrimSpace(p) == p
  {
    TrimKeeps(p, Spaces);
  }

  lemma CleanOfSlashes(p: string)
    requires p == "//"
    ensures Clean(p) == Render(true, [])
  {
    SlashesAreOneSlash(p);
  }

  /** The exception is reached: "//" is accepted as "/", which is then read as ".". */
  lemma SlashIsNotStable(p: string, slash: string)
    requires p == "//" && slash == "/"
    ensures SanitizePath(p) == Ok(slash) && SanitizePath(slash) == Ok(".")
  {
    SlashesAreNotSpace(p);
    SlashesAreNotSpace(slash);
    CleanOfSlashes(p);
    SlashIsChecked(Clean(p));
    DecideSlashes(p, slash);
  }

  lemma DecideSlashes(p: string, slash: string)
    requires p == "//" && slash == "/" && Checked(slash) == Ok(slash)
    ensures Decide(p, slash) == Ok(slash)
    ensures forall cleaned :: Decide(slash, cleaned) == Ok(".")
  {
  }
}
