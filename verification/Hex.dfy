/** Hexadecimal bag ids and the bytes they stand for. */
module Hex {
  import opened Text
  import opened Wrappers

  function Digit(c: char): (d: Option<nat>)
    ensures d.Some? ==> d.value < 16
    ensures d.Some? && !('A' <= c <= 'Z') ==> c == LowerDigit(d.value)
  {
    if '0' <= c <= '9' then Some(c as int - '0' as int)
    else if 'a' <= c <= 'f' then Some(c as int - 'a' as int + 10)
    else if 'A' <= c <= 'F' then Some(c as int - 'A' as int + 10)
    else None
  }

  function LowerDigit(d: nat): char
    requires d < 16
  {
    if d < 10 then ('0' as int + d) as char else ('a' as int + d - 10) as char
  }

  /** `hex.DecodeString`: pairs of digits of either case. */
  function Decode(s: string): Option<seq<int>> {
    if s == "" then Some([])
    else if |s| == 1 then None
    else
      var high, low, rest := Digit(s[0]), Digit(s[1]), Decode(s[2..]);
      if high.Some? && low.Some? && rest.Some? then Some([16 * high.value + low.value] + rest.value) else None
  }

  lemma LowerPairIsUnique(a: char, b: char, c: char, d: char)
    requires !('A' <= a <= 'Z') && !('A' <= b <= 'Z') && !('A' <= c <= 'Z') && !('A' <= d <= 'Z')
    requires Digit(a).Some? && Digit(b).Some? && Digit(c).Some? && Digit(d).Some?
    requires 16 * Digit(a).value + Digit(b).value == 16 * Digit(c).value + Digit(d).value
    ensures a == c && b == d
  {
    assert Digit(a).value == Digit(c).value;
  }

  /** Lower-case ids are spelled in only one way. */
  lemma {:induction false} LowerIsUnique(a: string, b: string)
    requires IsLower(a) && IsLower(b)
    requires Decode(a).Some? && Decode(a) == Decode(b)
    ensures a == b
  {
    if a != "" && b != "" {
      assert Decode(a).value[1..] == Decode(a[2..]).value && Decode(b).value[1..] == Decode(b[2..]).value;
      LowerIsUnique(a[2..], b[2..]);
      assert Decode(a).value[0] == Decode(b).value[0];
      LowerPairIsUnique(a[0], a[1], b[0], b[1]);
      assert a == [a[0], a[1]] + a[2..] && b == [b[0], b[1]] + b[2..];
    }
  }

  // ---- The inverse -----------------------------------------------------------------------------------

  predicate AreBytes(bytes: seq<int>) {
    forall i | 0 <= i < |bytes| :: 0 <= bytes[i] < 256
  }

  /** `hex.EncodeToString`. */
  function Encode(bytes: seq<int>): string
    requires AreBytes(bytes)
  {
    if bytes == [] then ""
    else [LowerDigit(bytes[0] / 16), LowerDigit(bytes[0] % 16)] + Encode(bytes[1..])
  }

  lemma DigitIsLower(c: char)
    requires Digit(c).Some?
    ensures LowerDigit(Digit(c).value) == LowerChar(c)
  {
  }

  /** What an id decodes to spells the id in lower case. */
  lemma {:induction false} EncodeDecode(s: string)
    requires Decode(s).Some?
    ensures AreBytes(Decode(s).value) && Encode(Decode(s).value) == ToLower(s)
    ensures 2 * |Decode(s).value| == |s|
  {
    if s != "" {
      EncodeDecode(s[2..]);
      var bytes := Decode(s).value;
      assert bytes[1..] == Decode(s[2..]).value;
      DigitIsLower(s[0]);
      DigitIsLower(s[1]);
      LowerTail(s, ToLower(s));
      var high, low := Digit(s[0]).value, Digit(s[1]).value;
      assert bytes[0] / 16 == high && bytes[0] % 16 == low;
      assert ToLower(s) == [LowerChar(s[0]), LowerChar(s[1])] + ToLower(s)[2..];
    }
  }

  lemma DigitOfLower(d: nat)
    requires d < 16
    ensures Digit(LowerDigit(d)) == Some(d)
  {
  }

  /** Every sequence of bytes has an id that decodes to it. */
  lemma {:induction false} DecodeEncode(bytes: seq<int>)
    requires AreBytes(bytes)
    ensures Decode(Encode(bytes)) == Some(bytes)
  {
    if bytes != [] {
      var s := Encode(bytes);
      assert s[2..] == Encode(bytes[1..]);
      DecodeEncode(bytes[1..]);
      DigitOfLower(bytes[0] / 16);
      DigitOfLower(bytes[0] % 16);
      assert bytes == [bytes[0]] + bytes[1..];
    }
  }

  /** An id decodes exactly when it has an even number of characters, all of them digits. */
  lemma {:induction false} DecodesExactly(s: string)
    ensures Decode(s).Some? <==> |s| % 2 == 0 && forall i | 0 <= i < |s| :: Digit(s[i]).Some?
  {
    if |s| > 1 {
      DecodesExactly(s[2..]);
      assert s == [s[0], s[1]] + s[2..];
    }
  }

  lemma DigitIgnoresCase(c: char)
    ensures Digit(LowerChar(c)) == Digit(c)
  {
  }

  lemma LowerTail(s: string, lower: string)
    requires lower == ToLower(s) && |s| > 1
    ensures |lower| == |s| && lower[0] == LowerChar(s[0]) && lower[1] == LowerChar(s[1]) && lower[2..] == ToLower(s[2..])
  {
  }

  lemma {:induction false} DecodeIgnoresCase(s: string)
    ensures Decode(ToLower(s)) == Decode(s)
  {
    var lower := ToLower(s);
    if |s| > 1 {
      LowerTail(s, lower);
      DecodeIgnoresCase(s[2..]);
      DigitIgnoresCase(s[0]);
      DigitIgnoresCase(s[1]);
    }
  }
}
