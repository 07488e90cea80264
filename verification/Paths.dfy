/** Go's `path/filepath` on slash-separated paths: `Clean` as a stack machine over segments,
    `Join` and `Dir` on top of it. */
module Paths {
  import opened Text
  import opened DirectoryTree

  /** One segment read with the segments kept so far. */
  function Push(rooted: bool, stack: Path, s: string): Path {
    if s == "" || s == "." then stack
    else if s != ".." then stack + [s]
    else if stack != [] && stack[|stack| - 1] != ".." then stack[..|stack| - 1]
    else if rooted then stack
    else stack + [".."]
  }

  function Fold(rooted: bool, stack: Path, segments: seq<string>): Path
    decreases |segments|
  {
    if segments == [] then stack
    else Fold(rooted, Push(rooted, stack, segments[0]), segments[1..])
  }

  predicate Rooted(p: string) {
    p != "" && p[0] == SEP
  }

  /** The segments a path comes down to. */
  function Stack(p: string): Path {
    Fold(Rooted(p), [], Split(p))
  }

  function Render(rooted: bool, stack: Path): string {
    if rooted then [SEP] + Join(stack) else if stack == [] then "." else Join(stack)
  }

  /** `filepath.Clean`. */
  function Clean(p: string): string {
    Render(Rooted(p), Stack(p))
  }

  /** `filepath.Join`: leading empty elements are dropped, the rest joined and cleaned. */
  function JoinPath(elements: seq<string>): string {
    if elements == [] then ""
    else if elements[0] == "" then JoinPath(elements[1..])
    else Clean(Join(elements))
  }

  function LastSep(p: string): int
    ensures -1 <= LastSep(p) < |p|
  {
    if p == "" || p[|p| - 1] == SEP then |p| - 1 else LastSep(p[..|p| - 1])
  }

  /** `filepath.Dir`. */
  function Dir(p: string): string {
    Clean(p[..LastSep(p) + 1])
  }

  // ---- Normal forms ------------------------------------------------------------------------

  /** Proper segments after a run of `k` leading "..". */
  ghost predicate Climbing(stack: Path, k: nat) {
    && k <= |stack|
    && (forall i | 0 <= i < k :: stack[i] == "..")
    && (forall i | k <= i < |stack| :: ProperSegment(stack[i]))
  }

  ghost predicate Normal(rooted: bool, stack: Path) {
    if rooted then Climbing(stack, 0) else exists k: nat :: Climbing(stack, k)
  }

  lemma PushKeepsNormal(rooted: bool, stack: Path, s: string)
    requires Normal(rooted, stack) && SEP !in s
    ensures Normal(rooted, Push(rooted, stack, s))
  {
    if !rooted {
      var k: nat :| Climbing(stack, k);
      var next := Push(rooted, stack, s);
      if s == ".." && (stack == [] || stack[|stack| - 1] == "..") {
        assert Climbing(next, |next|);
      } else {
        assert Climbing(next, k);
      }
    }
  }

  lemma {:induction false} FoldIsNormal(rooted: bool, stack: Path, segments: seq<string>)
    requires Normal(rooted, stack) && Plain(segments)
    ensures Normal(rooted, Fold(rooted, stack, segments))
    decreases |segments|
  {
    if segments != [] {
      assert segments[0] in segments;
      PushKeepsNormal(rooted, stack, segments[0]);
      FoldIsNormal(rooted, Push(rooted, stack, segments[0]), segments[1..]);
    }
  }

  lemma StackIsNormal(p: string)
    ensures Normal(Rooted(p), Stack(p))
  {
    assert Climbing([], 0);
    SplitIsPlain(p);
    FoldIsNormal(Rooted(p), [], Split(p));
  }

  lemma {:induction false} FoldConcat(rooted: bool, stack: Path, a: seq<string>, b: seq<string>)
    ensures Fold(rooted, stack, a + b) == Fold(rooted, Fold(rooted, stack, a), b)
    decreases |a|
  {
    if a == [] {
      assert a + b == b;
    } else {
      assert (a + b)[1..] == a[1..] + b;
      FoldConcat(rooted, Push(rooted, stack, a[0]), a[1..], b);
    }
  }

  /** Reading back a normal form changes nothing. */
  lemma {:induction false} FoldOfNormal(rooted: bool, done: Path, rest: Path)
    requires Normal(rooted, done + rest)
    ensures Fold(rooted, done, rest) == done + rest
    decreases |rest|
  {
    if rest == [] {
      assert done + rest == done;
    } else {
      var all := done + rest;
      assert all[|done|] == rest[0];
      assert done != [] ==> all[|done| - 1] == done[|done| - 1];
      assert Push(rooted, done, rest[0]) == done + [rest[0]] by {
        if !rooted {
          var k: nat :| Climbing(all, k);
        }
      }
      assert done + [rest[0]] + rest[1..] == all;
      FoldOfNormal(rooted, done + [rest[0]], rest[1..]);
    }
  }

  lemma NormalIsPlain(rooted: bool, stack: Path)
    requires Normal(rooted, stack)
    ensures Plain(stack) && forall s | s in stack :: s != "" && s != "."
  {
    if !rooted {
      var k: nat :| Climbing(stack, k);
    }
  }

  lemma JoinStartsPlain(stack: Path)
    requires Plain(stack) && stack != [] && stack[0] != ""
    ensures Join(stack) != "" && Join(stack)[0] != SEP
  {
    assert stack[0] in stack;
  }

  lemma SplitOfSlashed(stack: Path, s: string)
    requires Plain(stack) && stack != [] && s == [SEP] + Join(stack)
    ensures Split(s) == [""] + stack
  {
    SplitJoin(stack);
    assert s[1..] == Join(stack);
  }

  /** A string that splits into a normal form, under a slash or not, comes down to it. */
  lemma StackOfParts(rooted: bool, stack: Path, s: string)
    requires Normal(rooted, stack) && Rooted(s) == rooted
    requires Split(s) == if rooted then [""] + stack else stack
    ensures Stack(s) == stack
  {
    assert [] + stack == stack;
    FoldOfNormal(rooted, [], stack);
    if rooted {
      FoldConcat(true, [], [""], stack);
      assert Push(true, [], "") == [];
      assert [""][1..] == [];
    }
  }

  /** A rendered normal form is read back as itself. */
  lemma StackOfRender(rooted: bool, stack: Path)
    requires Normal(rooted, stack)
    ensures Rooted(Render(rooted, stack)) == rooted && Stack(Render(rooted, stack)) == stack
  {
    NormalIsPlain(rooted, stack);
    var s := Render(rooted, stack);
    if stack != [] {
      assert stack[0] in stack;
      JoinStartsPlain(stack);
      SplitJoin(stack);
      if rooted {
        SplitOfSlashed(stack, s);
      }
      StackOfParts(rooted, stack, s);
    } else if rooted {
      SlashStack(s);
    } else {
      DotStack(s);
    }
  }

  lemma DotStack(s: string)
    requires s == "."
    ensures Stack(s) == [] && !Rooted(s)
  {
    OneSegment(s);
    var parts := [s];
    assert parts[1..] == [] && parts[0] == s;
    assert Push(false, [], s) == [];
    assert Fold(false, [], parts) == Fold(false, [], []);
  }

  lemma SlashStack(s: string)
    requires s == [SEP]
    ensures Stack(s) == [] && Rooted(s)
  {
    OnlySlash(s);
    var parts := ["", ""];
    assert parts[1..] == [""] && [""][1..] == [];
    FoldConcat(true, [], [""], [""]);
    assert Fold(true, [], [""]) == [];
    assert parts == [""] + [""];
  }

  /** `Clean` is idempotent: its results are its fixed points. */
  lemma CleanIsIdempotent(p: string)
    ensures Clean(Clean(p)) == Clean(p)
    ensures Stack(Clean(p)) == Stack(p) && Rooted(Clean(p)) == Rooted(p)
  {
    StackIsNormal(p);
    StackOfRender(Rooted(p), Stack(p));
  }

  // ---- What ".." removes ---------------------------------------------------------------------

  /** The reference: read from the right, a ".." cancels the nearest name to its left that no
      other ".." cancels. `up` counts the ".." still to be cancelled. */
  function Kept(segments: seq<string>, up: nat): Path {
    if segments == [] then []
    else
      var front, last := segments[..|segments| - 1], segments[|segments| - 1];
      if last == "" || last == "." then Kept(front, up)
      else if last == ".." then Kept(front, up + 1)
      else if up > 0 then Kept(front, up - 1)
      else Kept(front, 0) + [last]
  }

  /** How many ".." find no name to cancel. */
  function Climb(segments: seq<string>, up: nat): nat {
    if segments == [] then up
    else
      var front, last := segments[..|segments| - 1], segments[|segments| - 1];
      if last == "" || last == "." then Climb(front, up)
      else if last == ".." then Climb(front, up + 1)
      else Climb(front, if up > 0 then up - 1 else 0)
  }

  /** `stack` is a run of `climb` ".." and then `kept`. */
  ghost predicate Parts(stack: Path, climb: nat, kept: Path) {
    && |stack| == climb + |kept|
    && (forall i | 0 <= i < climb :: stack[i] == "..")
    && (forall i | 0 <= i < |kept| :: stack[climb + i] == kept[i] != "..")
  }

  /** What `up` more ".." leave of the names, and how many find none. */
  function Shortened(names: Path, up: nat): Path {
    names[..if up < |names| then |names| - up else 0]
  }

  function Excess(names: Path, up: nat): nat {
    if up < |names| then 0 else up - |names|
  }

  ghost predicate LoweredTo(rooted: bool, stack: Path, segments: seq<string>, up: nat, climb: nat, names: Path) {
    && Parts(stack, climb, names) && (rooted ==> climb == 0)
    && Kept(segments, up) == Shortened(names, up)
    && (!rooted ==> Climb(segments, up) == climb + Excess(names, up))
  }

  /** The reference agrees with a stack of which `up` names are still to go. */
  ghost predicate Lowered(rooted: bool, stack: Path, segments: seq<string>, up: nat) {
    exists climb: nat, names: Path :: LoweredTo(rooted, stack, segments, up, climb, names)
  }

  lemma {:induction false} FoldSnoc(rooted: bool, stack: Path, front: seq<string>, last: string)
    ensures Fold(rooted, stack, front + [last]) == Push(rooted, Fold(rooted, stack, front), last)
  {
    FoldConcat(rooted, stack, front, [last]);
    assert [last][1..] == [];
  }

  lemma NoSegmentsLowered(rooted: bool, up: nat)
    ensures Lowered(rooted, [], [], up)
  {
    assert LoweredTo(rooted, [], [], up, 0, []);
  }

  lemma {:induction false} FoldIsLowered(rooted: bool, segments: seq<string>, up: nat)
    ensures Lowered(rooted, Fold(rooted, [], segments), segments, up)
  {
    if segments == [] {
      NoSegmentsLowered(rooted, up);
    } else {
      var front, last := segments[..|segments| - 1], segments[|segments| - 1];
      assert segments == front + [last];
      FoldSnoc(rooted, [], front, last);
      var before := Fold(rooted, [], front);
      if last == "" || last == "." {
        FoldIsLowered(rooted, front, up);
        var climb: nat, names: Path :| LoweredTo(rooted, before, front, up, climb, names);
        assert LoweredTo(rooted, before, segments, up, climb, names);
      } else if last == ".." {
        FoldIsLowered(rooted, front, up + 1);
        ParentIsLowered(rooted, before, front, up);
      } else {
        FoldIsLowered(rooted, front, if up > 0 then up - 1 else 0);
        NameIsLowered(rooted, before, front, last, up);
      }
    }
  }

  lemma ParentIsLowered(rooted: bool, before: Path, front: seq<string>, up: nat)
    requires Lowered(rooted, before, front, up + 1)
    ensures Lowered(rooted, Push(rooted, before, ".."), front + [".."], up)
  {
    var climb: nat, names: Path :| LoweredTo(rooted, before, front, up + 1, climb, names);
    var after := Push(rooted, before, "..");
    KeptSnoc(front, "..", up);
    if names == [] {
      assert LoweredTo(rooted, after, front + [".."], up, if rooted then 0 else climb + 1, []);
    } else {
      OneNameLess(rooted, before, climb, names, up);
      assert LoweredTo(rooted, after, front + [".."], up, climb, names[..|names| - 1]);
    }
  }

  lemma OneNameLess(rooted: bool, before: Path, climb: nat, names: Path, up: nat)
    requires Parts(before, climb, names) && names != []
    ensures var less := names[..|names| - 1];
            && Parts(Push(rooted, before, ".."), climb, less)
            && Shortened(names, up + 1) == Shortened(less, up) && Excess(names, up + 1) == Excess(less, up)
  {
    assert before[|before| - 1] == names[|names| - 1];
  }

  lemma KeptSnoc(front: seq<string>, last: string, up: nat)
    ensures Kept(front + [last], up)
            == if last == "" || last == "." then Kept(front, up)
               else if last == ".." then Kept(front, up + 1)
               else if up > 0 then Kept(front, up - 1)
               else Kept(front, 0) + [last]
    ensures Climb(front + [last], up)
            == if last == "" || last == "." then Climb(front, up)
               else if last == ".." then Climb(front, up + 1)
               else Climb(front, if up > 0 then up - 1 else 0)
  {
    var all := front + [last];
    assert all[..|all| - 1] == front && all[|all| - 1] == last;
  }

  lemma NameIsLowered(rooted: bool, before: Path, front: seq<string>, last: string, up: nat)
    requires Lowered(rooted, before, front, if up > 0 then up - 1 else 0)
    requires last != "" && last != "." && last != ".."
    ensures Lowered(rooted, before + [last], front + [last], up)
  {
    var down: nat := if up > 0 then up - 1 else 0;
    var climb: nat, names: Path :| LoweredTo(rooted, before, front, down, climb, names);
    KeptSnoc(front, last, up);
    OneNameMore(before, climb, names, last, up, down);
    assert LoweredTo(rooted, before + [last], front + [last], up, climb, names + [last]);
  }

  lemma OneNameMore(before: Path, climb: nat, names: Path, last: string, up: nat, down: nat)
    requires Parts(before, climb, names) && last != ".." && down == if up > 0 then up - 1 else 0
    ensures Parts(before + [last], climb, names + [last])
    ensures Excess(names + [last], up) == Excess(names, down)
    ensures Shortened(names + [last], up) == if up > 0 then Shortened(names, down) else Shortened(names, 0) + [last]
  {
    var more := names + [last];
    assert up > 0 ==> Shortened(more, up) == Shortened(names, down);
    assert Shortened(names, 0) == names && Shortened(more, 0) == more;
  }

  /** `Clean` by its meaning: the names that no ".." cancels, after the ".." that cancel none;
      below the root those are dropped. */
  lemma StackIsKept(p: string)
    ensures Rooted(p) ==> Stack(p) == Kept(Split(p), 0)
    ensures !Rooted(p) ==> Parts(Stack(p), Climb(Split(p), 0), Kept(Split(p), 0))
  {
    FoldIsLowered(Rooted(p), Split(p), 0);
  }

  /** A name and the ".." that follows it cancel each other. */
  lemma {:induction false} ParentCancels(p: string, s: string, b: string)
    requires p != "" && ProperSegment(s)
    ensures Stack(p + [SEP] + s + [SEP] + ".." + [SEP] + b) == Stack(p + [SEP] + b)
    ensures Clean(p + [SEP] + s + [SEP] + ".." + [SEP] + b) == Clean(p + [SEP] + b)
  {
    var dots := "..";
    OneSegment(s);
    OneSegment(dots);
    SplitConcat(p, s);
    SplitConcat(p + [SEP] + s, dots);
    SplitConcat(p + [SEP] + s + [SEP] + dots, b);
    SplitConcat(p, b);
    var r, parts := Rooted(p), Split(p);
    FoldConcat(r, [], parts + [s] + [dots], Split(b));
    FoldConcat(r, [], parts, Split(b));
    FoldSnoc(r, [], parts + [s], dots);
    FoldSnoc(r, [], parts, s);
    assert Fold(r, [], parts) + [s] != [];
  }

  // ---- Joining below a folder ------------------------------------------------------------------

  predicate NoDotDot(segments: seq<string>) {
    forall s | s in segments :: s != ".."
  }

  /** The segments that count. */
  function Visible(segments: seq<string>): Path {
    if segments == [] then []
    else (if segments[0] == "" || segments[0] == "." then [] else [segments[0]]) + Visible(segments[1..])
  }

  lemma {:induction false} FoldWithoutDotDot(rooted: bool, stack: Path, segments: seq<string>)
    requires NoDotDot(segments)
    ensures Fold(rooted, stack, segments) == stack + Visible(segments)
    decreases |segments|
  {
    if segments == [] {
      assert stack + [] == stack;
    } else {
      assert segments[0] in segments;
      assert forall s | s in segments[1..] :: s in segments;
      var next, rest := Push(rooted, stack, segments[0]), Visible(segments[1..]);
      FoldWithoutDotDot(rooted, next, segments[1..]);
      assert stack + ([segments[0]] + rest) == stack + [segments[0]] + rest;
      assert [] + rest == rest;
    }
  }

  /** Below any folder, a path without ".." adds exactly its own segments. */
  lemma StackBelow(folder: string, q: string)
    requires folder != "" && NoDotDot(Split(q))
    ensures Stack(folder + [SEP] + q) == Stack(folder) + Stack(q)
    ensures Rooted(folder + [SEP] + q) == Rooted(folder)
  {
    var r := Rooted(folder);
    SplitConcat(folder, q);
    FoldConcat(r, [], Split(folder), Split(q));
    FoldWithoutDotDot(r, Stack(folder), Split(q));
    FoldWithoutDotDot(Rooted(q), [], Split(q));
    assert [] + Visible(Split(q)) == Visible(Split(q));
  }

  lemma JoinPathBelow(folder: string, q: string)
    requires folder != "" && NoDotDot(Split(q))
    ensures JoinPath([folder, q]) == Render(Rooted(folder), Stack(folder) + Stack(q))
  {
    StackBelow(folder, q);
    assert [folder, q][1..] == [q];
    assert Join([folder, q]) == folder + [SEP] + q;
  }

  // ---- Dir -------------------------------------------------------------------------------------

  lemma {:induction false} LastSepOfChild(folder: string, name: string)
    requires SEP !in name
    ensures LastSep(folder + [SEP] + name) == |folder|
  {
    var p := folder + [SEP] + name;
    if name != "" {
      assert p[|p| - 1] == name[|name| - 1];
      assert p[..|p| - 1] == folder + [SEP] + name[..|name| - 1];
      LastSepOfChild(folder, name[..|name| - 1]);
    }
  }

  lemma {:induction false} LastSepOfName(name: string)
    requires SEP !in name
    ensures LastSep(name) == -1
  {
    if name != "" {
      LastSepOfName(name[..|name| - 1]);
    }
  }

  /** The parent of a name below a relative folder is that folder. */
  lemma {:induction false} DirOfChild(stack: Path, name: string)
    requires Normal(false, stack) && ProperSegment(name)
    ensures Dir(Join(stack + [name])) == Render(false, stack)
  {
    NormalIsPlain(false, stack);
    if stack == [] {
      assert stack + [name] == [name];
      LastSepOfName(name);
      assert Split("") == [""];
    } else {
      var folder := Join(stack);
      JoinConcat(stack, [name]);
      LastSepOfChild(folder, name);
      var p := folder + [SEP] + name;
      assert p[..LastSep(p) + 1] == folder + [SEP] + "";
      assert stack[0] in stack;
      JoinStartsPlain(stack);
      assert Split("") == [""];
      StackBelow(folder, "");
      StackOfRender(false, stack);
      assert Stack("") == [];
      assert stack + [] == stack;
    }
  }
}
