/** Strings as the gateway uses them: the separator '/', splitting and joining of
    slash-separated names, trimming, and Go's byte-wise order on strings. */
module Text {

  const SEP: char := '/'

  // ---- Order -------------------------------------------------------------------------

  /** Go's `a < b` on strings. */
  predicate Less(a: string, b: string) {
    if b == "" then false
    else if a == "" then true
    else if a[0] != b[0] then a[0] < b[0]
    else Less(a[1..], b[1..])
  }

  lemma {:induction false} LessTotal(a: string, b: string)
    ensures a == b || Less(a, b) || Less(b, a)
  {
    if a != "" && b != "" && a[0] == b[0] {
      LessTotal(a[1..], b[1..]);
      assert a == [a[0]] + a[1..] && b == [b[0]] + b[1..];
    }
  }

  lemma {:induction false} LessAsymmetric(a: string, b: string)
    ensures !(Less(a, b) && Less(b, a))
  {
    if a != "" && b != "" {
      LessAsymmetric(a[1..], b[1..]);
    }
  }

  lemma {:induction false} LessTransitive(a: string, b: string, c: string)
    requires Less(a, b) && Less(b, c)
    ensures Less(a, c)
  {
    if a != "" && a[0] == b[0] && b[0] == c[0] {
      LessTransitive(a[1..], b[1..], c[1..]);
    }
  }

  /** In words: at the first place where they part, `a` has ended or has the smaller character. */
  lemma {:induction false} LessExactly(a: string, b: string)
    ensures Less(a, b) <==>
            exists k :: 0 <= k <= |a| && k < |b| && a[..k] == b[..k] && (k == |a| || a[k] < b[k])
  {
    if a != "" && b != "" && a[0] == b[0] {
      LessExactly(a[1..], b[1..]);
      if k :| 0 <= k <= |a| - 1 && k < |b| - 1 && a[1..][..k] == b[1..][..k] && (k == |a| - 1 || a[1..][k] < b[1..][k]) {
        assert a[..k + 1] == [a[0]] + a[1..][..k] && b[..k + 1] == [b[0]] + b[1..][..k];
        assert k + 1 == |a| || a[k + 1] < b[k + 1];
      }
      if k :| 0 <= k <= |a| && k < |b| && a[..k] == b[..k] && (k == |a| || a[k] < b[k]) {
        assert k > 0;
        assert a[1..][..k - 1] == a[..k][1..] && b[1..][..k - 1] == b[..k][1..];
      }
    } else if b != "" {
      assert a[..0] == b[..0];
      if k :| 0 <= k <= |a| && k < |b| && a[..k] == b[..k] && (k == |a| || a[k] < b[k]) {
        assert a != "" && k > 0 ==> a[..k][0] == b[..k][0];
      }
    }
  }

  // ---- Splitting and joining -----------------------------------------------------------

  /** `strings.Split(s, "/")`. */
  function Split(s: string): (parts: seq<string>)
    ensures |parts| >= 1
    ensures |parts| == 1 ==> parts[0] == s
    ensures |parts| == 1 <==> SEP !in s
  {
    if s == "" then [""]
    else
      assert s == [s[0]] + s[1..];
      Prepend(s[0], Split(s[1..]))
  }

  lemma OneSegment(s: string)
    requires SEP !in s
    ensures Split(s) == [s]
  {
  }

  lemma OnlySlash(s: string)
    requires s == [SEP]
    ensures Split(s) == ["", ""]
  {
    var rest := s[1..];
    OneSegment(rest);
    assert Split(s) == Prepend(SEP, Split(rest));
  }

  /** The parts of a string with one more character in front. */
  function Prepend(c: char, parts: seq<string>): seq<string>
    requires parts != []
  {
    if c == SEP then [""] + parts else [[c] + parts[0]] + parts[1..]
  }

  /** `strings.Join(parts, "/")`. */
  function Join(parts: seq<string>): string {
    if parts == [] then ""
    else if |parts| == 1 then parts[0]
    else parts[0] + [SEP] + Join(parts[1..])
  }

  /** A segment holds no separator. */
  predicate Plain(parts: seq<string>) {
    forall part | part in parts :: SEP !in part
  }

  lemma {:induction false} SplitIsPlain(s: string)
    ensures Plain(Split(s))
  {
    if s != "" {
      SplitIsPlain(s[1..]);
      var rest := Split(s[1..]);
      assert rest[0] in rest;
      forall part | part in Split(s) ensures SEP !in part {
        if part !in rest[1..] {}
      }
    }
  }

  lemma PrependConcat(c: char, parts: seq<string>, more: seq<string>)
    requires parts != []
    ensures Prepend(c, parts + more) == Prepend(c, parts) + more
  {
    assert (parts + more)[1..] == parts[1..] + more;
  }

  /** Splitting a joined pair gives the parts of both. */
  lemma {:induction false} SplitConcat(a: string, b: string)
    ensures Split(a + [SEP] + b) == Split(a) + Split(b)
  {
    var s := a + [SEP] + b;
    if a == "" {
      assert s[1..] == b;
    } else {
      assert s[1..] == a[1..] + [SEP] + b;
      SplitConcat(a[1..], b);
      PrependConcat(a[0], Split(a[1..]), Split(b));
    }
  }

  lemma JoinPrepend(c: char, parts: seq<string>)
    requires parts != []
    ensures Join(Prepend(c, parts)) == [c] + Join(parts)
  {
    var p := Prepend(c, parts);
    if c == SEP {
      assert p[1..] == parts;
    } else {
      assert p[1..] == parts[1..];
    }
  }

  lemma {:induction false} JoinSplit(s: string)
    ensures Join(Split(s)) == s
  {
    if s != "" {
      JoinSplit(s[1..]);
      JoinPrepend(s[0], Split(s[1..]));
      assert s == [s[0]] + s[1..];
    }
  }

  lemma {:induction false} SplitJoin(parts: seq<string>)
    requires parts != [] && Plain(parts)
    ensures Split(Join(parts)) == parts
  {
    assert parts[0] in parts;
    if |parts| > 1 {
      assert Plain(parts[1..]);
      SplitConcat(parts[0], Join(parts[1..]));
      SplitJoin(parts[1..]);
    }
  }

  lemma {:induction false} JoinConcat(a: seq<string>, b: seq<string>)
    requires a != [] && b != []
    ensures Join(a + b) == Join(a) + [SEP] + Join(b)
  {
    if |a| == 1 {
      assert (a + b)[1..] == b;
    } else {
      assert (a + b)[1..] == a[1..] + b;
      JoinConcat(a[1..], b);
    }
  }

  lemma {:induction false} SplitAfterPrefix(path: string, name: string)
    requires path + [SEP] <= name
    ensures Split(name) == Split(path) + Split(name[|path| + 1..])
  {
    var rest := name[|path| + 1..];
    assert name == path + [SEP] + rest;
    SplitConcat(path, rest);
  }

  lemma JoinOfLongerSplit(path: string, name: string)
    requires Split(path) < Split(name)
    ensures path + [SEP] <= name
  {
    var tail := Split(name)[|Split(path)|..];
    assert Split(name) == Split(path) + tail;
    JoinConcat(Split(path), tail);
    JoinSplit(path);
    JoinSplit(name);
  }

  /** The string test "starts with `path` and a slash" is exactly the test that the
      segments of `path` are a proper prefix of the segments of `name`. */
  lemma PrefixIsSegmentPrefix(path: string, name: string)
    ensures path + [SEP] <= name <==> Split(path) < Split(name)
  {
    if path + [SEP] <= name {
      SplitAfterPrefix(path, name);
    }
    if Split(path) < Split(name) {
      JoinOfLongerSplit(path, name);
    }
  }

  /** `filepath.Base`. */
  function Base(s: string): string {
    if s == "" then "."
    else
      var t := TrimRight(s, Slashes);
      if t == "" then "/" else Split(t)[|Split(t)| - 1]
  }

  lemma {:induction false} LastOfSlashed(s: string)
    requires s != "" && s[|s| - 1] == SEP
    ensures Split(s)[|Split(s)| - 1] == ""
  {
    if |s| > 1 {
      LastOfSlashed(s[1..]);
    } else {
      assert s == [SEP];
      OnlySlash(s);
    }
  }

  lemma BaseIsLastSegment(s: string)
    requires Split(s)[|Split(s)| - 1] != ""
    ensures Base(s) == Split(s)[|Split(s)| - 1]
  {
    if s != "" && s[|s| - 1] == SEP {
      LastOfSlashed(s);
    }
  }

  lemma SplitInjective(a: string, b: string)
    requires Split(a) == Split(b)
    ensures a == b
  {
    JoinSplit(a);
    JoinSplit(b);
  }

  // ---- Trimming ------------------------------------------------------------------------

  /** The characters a trim removes. */
  datatype Cutset = Slashes | Spaces {
    predicate Has(c: char) {
      match this
      case Slashes => c == SEP
      case Spaces => IsSpace(c)
    }
  }

  function TrimLeft(s: string, drop: Cutset): (r: string)
    ensures r == "" || !drop.Has(r[0])
    ensures |r| <= |s| && r == s[|s| - |r|..]
  {
    if s != "" && drop.Has(s[0]) then TrimLeft(s[1..], drop) else s
  }

  function TrimRight(s: string, drop: Cutset): (r: string)
    ensures r == "" || !drop.Has(r[|r| - 1])
    ensures |r| <= |s| && r == s[..|r|]
  {
    if s != "" && drop.Has(s[|s| - 1]) then TrimRight(s[..|s| - 1], drop) else s
  }

  function TrimBy(s: string, drop: Cutset): (r: string)
    ensures r == "" || (!drop.Has(r[0]) && !drop.Has(r[|r| - 1]))
    ensures |r| <= |s|
    ensures |r| == |s| ==> r == s
  {
    TrimRight(TrimLeft(s, drop), drop)
  }

  /** Where a trim cuts. */
  function TrimFrom(s: string, drop: Cutset): (i: nat)
    ensures i <= |s|
  {
    |s| - |TrimLeft(s, drop)|
  }

  function TrimTo(s: string, drop: Cutset): (j: nat)
    ensures TrimFrom(s, drop) <= j <= |s|
  {
    TrimFrom(s, drop) + |TrimRight(TrimLeft(s, drop), drop)|
  }

  lemma TrimIsSlice(s: string, drop: Cutset)
    ensures TrimBy(s, drop) == s[TrimFrom(s, drop)..TrimTo(s, drop)]
  {
    var left := TrimLeft(s, drop);
    assert left == s[TrimFrom(s, drop)..];
    assert TrimRight(left, drop) == left[..|TrimRight(left, drop)|];
  }

  lemma CutIsDropped(s: string, drop: Cutset, k: nat)
    requires k < TrimFrom(s, drop) || TrimTo(s, drop) <= k < |s|
    ensures drop.Has(s[k])
  {
    if k < TrimFrom(s, drop) {
      LeftCut(s, drop, k);
    } else {
      RightCut(TrimLeft(s, drop), drop, k - TrimFrom(s, drop));
    }
  }

  /** A trim takes away only characters to be dropped, from the two ends. */
  lemma TrimCuts(s: string, drop: Cutset)
    ensures var i, j := TrimFrom(s, drop), TrimTo(s, drop);
            && TrimBy(s, drop) == s[i..j]
            && forall k | 0 <= k < i || j <= k < |s| :: drop.Has(s[k])
  {
    TrimIsSlice(s, drop);
    forall k | 0 <= k < TrimFrom(s, drop) || TrimTo(s, drop) <= k < |s| ensures drop.Has(s[k]) {
      CutIsDropped(s, drop, k);
    }
  }

  lemma {:induction false} LeftCut(s: string, drop: Cutset, k: nat)
    requires k < |s| - |TrimLeft(s, drop)|
    ensures drop.Has(s[k])
  {
    if k > 0 {
      LeftCut(s[1..], drop, k - 1);
    }
  }

  lemma {:induction false} RightCut(s: string, drop: Cutset, k: nat)
    requires |TrimRight(s, drop)| <= k < |s|
    ensures drop.Has(s[k])
  {
    if k < |s| - 1 {
      RightCut(s[..|s| - 1], drop, k);
    }
  }

  /** Trimming does nothing to a string whose first and last characters stay. */
  lemma TrimKeeps(s: string, drop: Cutset)
    requires s == "" || (!drop.Has(s[0]) && !drop.Has(s[|s| - 1]))
    ensures TrimBy(s, drop) == s
  {
  }

  /** `strings.Trim(s, "/")`. */
  function Trim(s: string): string {
    TrimBy(s, Slashes)
  }

  /** `strings.TrimSpace(s)`: the white space of unicode.IsSpace. */
  function TrimSpace(s: string): string {
    TrimBy(s, Spaces)
  }

  /** No white space at either end. */
  predicate Tight(s: string) {
    s == "" || (!IsSpace(s[0]) && !IsSpace(s[|s| - 1]))
  }

  lemma TightStays(s: string)
    ensures TrimSpace(s) == s <==> Tight(s)
  {
    if Tight(s) {
      TrimKeeps(s, Spaces);
    }
  }

  predicate IsSpace(c: char) {
    var n := c as int;
    0x09 <= n <= 0x0D || n == 0x20 || n == 0x85 || n == 0xA0 || n == 0x1680 || 0x2000 <= n <= 0x200A
    || n == 0x2028 || n == 0x2029 || n == 0x202F || n == 0x205F || n == 0x3000
  }

  // ---- Letter case and length ------------------------------------------------------------

  function LowerChar(c: char): (r: char)
    ensures r == c <==> !('A' <= c <= 'Z')
    ensures !('A' <= r <= 'Z')
    ensures 'A' <= c <= 'Z' ==> r as int == c as int + 32
  {
    if 'A' <= c <= 'Z' then (c as int + 32) as char else c
  }

  function UpperChar(c: char): (r: char)
    ensures LowerChar(r) == LowerChar(c) && !('a' <= r <= 'z')
  {
    if 'a' <= c <= 'z' then (c as int - 32) as char else c
  }

  /** `strings.ToLower`, on the letters A to Z that bag ids are made of. */
  function ToLower(s: string): string {
    seq(|s|, i requires 0 <= i < |s| => LowerChar(s[i]))
  }

  function ToUpper(s: string): string {
    seq(|s|, i requires 0 <= i < |s| => UpperChar(s[i]))
  }

  predicate IsLower(s: string) {
    forall i | 0 <= i < |s| :: !('A' <= s[i] <= 'Z')
  }

  lemma ToLowerFixesLower(s: string)
    ensures ToLower(s) == s <==> IsLower(s)
    ensures IsLower(ToLower(s))
  {
    if ToLower(s) == s {
      forall i | 0 <= i < |s| ensures !('A' <= s[i] <= 'Z') {
        assert ToLower(s)[i] == s[i];
      }
    }
  }

  lemma LowerOfUpper(s: string)
    ensures ToLower(ToUpper(s)) == ToLower(s)
  {
  }

  /** The number of bytes of the UTF-8 form of a string: Go's `len`. */
  function ByteLen(s: string): nat {
    if s == "" then 0
    else
      var n := s[0] as int;
      (if n < 0x80 then 1 else if n < 0x800 then 2 else if n < 0x1_0000 then 3 else 4) + ByteLen(s[1..])
  }
}
