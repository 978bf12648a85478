/**
 * Character and string helpers the ledger relies on: JavaScript's `trim`,
 * ASCII case mapping, substring search, decimal digits and zero padding.
 */
module Text {

  /** The characters `String.prototype.trim` strips: ECMAScript WhiteSpace and LineTerminator. */
  predicate IsWhitespace(c: char) {
    var n := c as int;
    n == 0x09 || n == 0x0A || n == 0x0B || n == 0x0C || n == 0x0D || n == 0x20 || n == 0xA0
    || n == 0x1680 || (0x2000 <= n <= 0x200A) || n == 0x2028 || n == 0x2029 || n == 0x202F
    || n == 0x205F || n == 0x3000 || n == 0xFEFF
  }

  /** Drops leading whitespace. */
  function TrimStart(s: string): (r: string)
    ensures |r| <= |s| && r == s[|s| - |r|..]
    ensures r == [] || !IsWhitespace(r[0])
    ensures forall i :: 0 <= i < |s| - |r| ==> IsWhitespace(s[i])
  {
    if s != [] && IsWhitespace(s[0]) then TrimStart(s[1..]) else s
  }

  /** Drops trailing whitespace. */
  function TrimEnd(s: string): (r: string)
    ensures |r| <= |s| && r == s[..|r|]
    ensures r == [] || !IsWhitespace(r[|r| - 1])
    ensures forall i :: |r| <= i < |s| ==> IsWhitespace(s[i])
  {
    if s != [] && IsWhitespace(s[|s| - 1]) then TrimEnd(s[..|s| - 1]) else s
  }

  /** Non-empty, with no whitespace at either end. */
  predicate IsTrimmed(s: string) {
    s != [] && !IsWhitespace(s[0]) && !IsWhitespace(s[|s| - 1])
  }

  /** `s.trim()`: the result has no whitespace at either end, and it is empty
      exactly when `s` is whitespace only. */
  function Trim(s: string): (r: string)
    ensures |r| <= |s|
    ensures r == [] || IsTrimmed(r)
    ensures r == [] <==> forall i :: 0 <= i < |s| ==> IsWhitespace(s[i])
    ensures exists i :: CutOut(s, i, r)
  {
    StripIsCutOut(s);
    StripEnds(s);
    TrimStart(TrimEnd(s))
  }

  /** Dropping the trailing, then the leading whitespace leaves a part of `s`
      with only whitespace around it. */
  lemma StripIsCutOut(s: string)
    ensures var e := TrimEnd(s); CutOut(s, |e| - |TrimStart(e)|, TrimStart(e))
  {
    var e := TrimEnd(s);
    var r := TrimStart(e);
    var i := |e| - |r|;
    forall k | 0 <= k < |r|
      ensures s[i + k] == r[k]
    {
      assert r[k] == e[i + k];
    }
    assert s[i..i + |r|] == r;
    forall j | 0 <= j < i
      ensures IsWhitespace(s[j])
    {
      assert s[j] == e[j];
    }
  }

  /** What is left after stripping is empty exactly when `s` is whitespace
      only, and otherwise has no whitespace at either end. */
  lemma StripEnds(s: string)
    ensures var r := TrimStart(TrimEnd(s));
      && (r == [] || IsTrimmed(r))
      && (r == [] <==> forall i :: 0 <= i < |s| ==> IsWhitespace(s[i]))
  {
    var e := TrimEnd(s);
    var r := TrimStart(e);
    if r == [] {
      assert e == [];
    } else {
      assert r[|r| - 1] == e[|e| - 1];
      assert r[0] == e[|e| - |r|] == s[|e| - |r|];
    }
  }

  /** `r` is the part of `s` starting at index `i`, with only whitespace before and after it. */
  predicate CutOut(s: string, i: int, r: string) {
    && 0 <= i <= |s| - |r| && r == s[i..i + |r|]
    && (forall j :: 0 <= j < i ==> IsWhitespace(s[j]))
    && (forall j :: i + |r| <= j < |s| ==> IsWhitespace(s[j]))
  }

  /** Trimming twice is trimming once: a stored, already trimmed description
      is left alone by a later trim. */
  lemma TrimIdempotent(s: string)
    ensures Trim(Trim(s)) == Trim(s)
  {
    var t := Trim(s);
    assert TrimEnd(t) == t;
    assert TrimStart(t) == t;
  }

  /** An upper-case ASCII letter becomes its lower-case letter; every other character stays. */
  function LowerChar(c: char): (r: char)
    ensures !('A' <= r <= 'Z')
    ensures 'A' <= c <= 'Z' ==> 'a' <= r <= 'z'
    ensures !('A' <= c <= 'Z') ==> r == c
  {
    if 'A' <= c <= 'Z' then (c as int + 32) as char else c
  }

  /** A lower-case ASCII letter becomes its upper-case letter; every other character stays. */
  function UpperChar(c: char): (r: char)
    ensures !('a' <= r <= 'z')
    ensures 'a' <= c <= 'z' ==> 'A' <= r <= 'Z'
    ensures !('a' <= c <= 'z') ==> r == c
  {
    if 'a' <= c <= 'z' then (c as int - 32) as char else c
  }

  /** Upper-casing a character does not change its lower-case form. */
  lemma LowerUpperChar(c: char)
    ensures LowerChar(UpperChar(c)) == LowerChar(c)
  {
  }

  /** `a` and `b` are the same text up to the case of ASCII letters. */
  predicate SameUpToCase(a: string, b: string) {
    |a| == |b| && forall i :: 0 <= i < |a| ==> LowerChar(a[i]) == LowerChar(b[i])
  }

  /** `s.toLowerCase()` over ASCII letters. */
  function Lower(s: string): (r: string)
    ensures |r| == |s|
    ensures forall i :: 0 <= i < |s| ==> r[i] == LowerChar(s[i])
  {
    seq(|s|, i requires 0 <= i < |s| => LowerChar(s[i]))
  }

  /**
   * Lower-casing keeps a text the same up to case and leaves no upper-case
   * ASCII letter, so doing it twice is doing it once; and two texts lower-case
   * alike exactly when they are the same up to case.
   */
  lemma LowerCanonical(a: string, b: string)
    ensures SameUpToCase(Lower(a), a)
    ensures forall i :: 0 <= i < |a| ==> !('A' <= Lower(a)[i] <= 'Z')
    ensures Lower(Lower(a)) == Lower(a)
    ensures SameUpToCase(a, b) <==> Lower(a) == Lower(b)
  {
    if Lower(a) == Lower(b) {
      forall i | 0 <= i < |a|
        ensures LowerChar(a[i]) == LowerChar(b[i])
      {
        assert Lower(a)[i] == Lower(b)[i];
      }
    }
  }

  /** `s.charAt(0).toUpperCase() + s.slice(1)`: only the first character changes. */
  function Capitalize(s: string): (r: string)
    ensures SameUpToCase(r, s) && Lower(r) == Lower(s)
    ensures s != [] ==> !('a' <= r[0] <= 'z') && r[1..] == s[1..]
  {
    if s == [] then []
    else
      var r := [UpperChar(s[0])] + s[1..];
      LowerUpperChar(s[0]);
      assert forall i :: 1 <= i < |s| ==> r[i] == s[i];
      r
  }

  /** `needle` occurs in `hay` starting at index `i`. */
  predicate OccursAt(hay: string, needle: string, i: int) {
    0 <= i && i + |needle| <= |hay| && hay[i..i + |needle|] == needle
  }

  /** `hay.includes(needle)`. */
  predicate Contains(hay: string, needle: string) {
    exists i | 0 <= i <= |hay| - |needle| :: OccursAt(hay, needle, i)
  }

  lemma ContainsEmpty(hay: string)
    ensures Contains(hay, [])
  {
    assert OccursAt(hay, [], 0);
  }

  /** Index of the first `c` in `s`, or `|s|` when there is none. */
  function IndexOf(s: string, c: char): (i: nat)
    ensures i <= |s|
    ensures i < |s| ==> s[i] == c
    ensures forall j :: 0 <= j < i ==> s[j] != c
  {
    if s == [] then 0 else if s[0] == c then 0 else 1 + IndexOf(s[1..], c)
  }

  predicate IsDigit(c: char) {
    '0' <= c <= '9'
  }

  predicate AllDigits(s: string) {
    forall i :: 0 <= i < |s| ==> IsDigit(s[i])
  }

  function DigitChar(d: nat): char
    requires d < 10
  {
    (48 + d) as char
  }

  /** `String(n)` for a non-negative integer. */
  function NatToString(n: nat): (s: string)
    ensures |s| > 0 && AllDigits(s)
    decreases n
  {
    if n < 10 then [DigitChar(n)] else NatToString(n / 10) + [DigitChar(n % 10)]
  }

  /** `Number(s)` for a string of decimal digits. */
  function ParseNat(s: string): nat
    requires AllDigits(s)
  {
    if s == [] then 0 else ParseNat(s[..|s| - 1]) * 10 + (s[|s| - 1] as int - 48)
  }

  lemma {:induction false} ParseNatToString(n: nat)
    ensures ParseNat(NatToString(n)) == n
    decreases n
  {
    if n >= 10 {
      var s := NatToString(n);
      assert s[..|s| - 1] == NatToString(n / 10);
      ParseNatToString(n / 10);
    }
  }

  /** A leading zero does not change the value of a digit string. */
  lemma {:induction false} ParseNatLeadingZero(s: string)
    requires AllDigits(s)
    ensures AllDigits("0" + s) && ParseNat("0" + s) == ParseNat(s)
  {
    if s != [] {
      var z := "0" + s;
      assert z[..|z| - 1] == "0" + s[..|s| - 1];
      ParseNatLeadingZero(s[..|s| - 1]);
    }
  }

  /** `s.padStart(width, '0')`. */
  function PadZeros(s: string, width: nat): (r: string)
    ensures |r| == if |s| >= width then |s| else width
    ensures r[|r| - |s|..] == s
    decreases width - |s|
  {
    if |s| >= width then s
    else
      var r := PadZeros("0" + s, width);
      assert r[|r| - |s|..] == r[|r| - (|s| + 1)..][1..];
      r
  }

  /** In digits, then a separator that is not a digit, then any text, the first
      separator is the one right after the digits. */
  lemma {:induction false} SplitAfterDigits(a: string, sep: char, b: string)
    requires AllDigits(a) && !IsDigit(sep)
    ensures var s := a + [sep] + b;
      && IndexOf(s, sep) == |a| && s[..|a|] == a && s[|a| + 1..] == b
  {
    var s := a + [sep] + b;
    if a != [] {
      assert s[1..] == a[1..] + [sep] + b;
      assert s[0] == a[0];
      SplitAfterDigits(a[1..], sep, b);
    }
    assert s[..|a|] == a;
    assert s[|a| + 1..] == b;
  }

  lemma {:induction false} ParsePadZeros(s: string, width: nat)
    requires AllDigits(s)
    ensures AllDigits(PadZeros(s, width)) && ParseNat(PadZeros(s, width)) == ParseNat(s)
    decreases width - |s|
  {
    if |s| < width {
      ParseNatLeadingZero(s);
      ParsePadZeros("0" + s, width);
    }
  }

  /** `String(n).padStart(width, '0')`, read back by `Number`. */
  lemma PaddedRoundTrip(n: nat, width: nat)
    ensures AllDigits(PadZeros(NatToString(n), width))
    ensures ParseNat(PadZeros(NatToString(n), width)) == n
  {
    ParsePadZeros(NatToString(n), width);
    ParseNatToString(n);
  }
}
