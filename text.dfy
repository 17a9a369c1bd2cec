/**
 * Java string primitives the notifier relies on, over `seq<char>`.
 * Case mapping and digit recognition follow the ASCII range only.
 */
module Text {

  datatype Option<T> = None | Some(value: T)
  {
    function GetOr(default: T): T { if Some? then value else default }
  }

  // ---------------------------------------------------------------- trim

  /** `String.trim` strips characters whose code is at most U+0020. */
  predicate Trimmable(c: char) { c <= ' ' }

  predicate IsBlank(s: string) { forall i :: 0 <= i < |s| ==> Trimmable(s[i]) }

  function TrimStart(s: string): (r: string)
    ensures |r| <= |s| && r == s[|s| - |r|..]
    ensures r == [] || !Trimmable(r[0])
    ensures IsBlank(s[..|s| - |r|])
  {
    if s != [] && Trimmable(s[0]) then
      var r := TrimStart(s[1..]);
      assert s[..|s| - |r|] == [s[0]] + s[1..][..|s| - 1 - |r|];
      r
    else s
  }

  function TrimEnd(s: string): (r: string)
    ensures |r| <= |s| && r == s[..|r|]
    ensures r == [] || !Trimmable(r[|r| - 1])
    ensures IsBlank(s[|r|..])
  {
    if s != [] && Trimmable(s[|s| - 1]) then
      var r := TrimEnd(s[..|s| - 1]);
      assert s[|r|..] == s[..|s| - 1][|r|..] + [s[|s| - 1]];
      r
    else s
  }

  /** Java's `String.trim`: what is left of `s` after stripping both ends. */
  function Trim(s: string): (r: string)
    ensures |r| <= |s|
    ensures r != [] ==> !Trimmable(r[0]) && !Trimmable(r[|r| - 1])
  {
    TrimEnd(TrimStart(s))
  }

  /** Trimming leaves nothing exactly when every character is trimmable. */
  lemma TrimEmptyIffBlank(s: string)
    ensures Trim(s) == [] <==> IsBlank(s)
  {
    var a := TrimStart(s);
    var r := TrimEnd(a);
    var k := |s| - |a|;
    if r == [] {
      assert IsBlank(a) by {
        assert a[|r|..] == a;
      }
      forall i | 0 <= i < |s|
        ensures Trimmable(s[i])
      {
        assert s[i] == s[..k][i];
      }
    } else {
      assert r[|r| - 1] == a[|r| - 1];
      assert a[|r| - 1] == s[k + |r| - 1];
    }
  }

  // ---------------------------------------------------------------- case

  function LowerChar(c: char): char
  {
    if 'A' <= c <= 'Z' then (c as int + 32) as char else c
  }

  /** `String.toLowerCase` on the ASCII range. */
  function Lower(s: string): (r: string)
    ensures |r| == |s|
  {
    seq(|s|, i requires 0 <= i < |s| => LowerChar(s[i]))
  }

  /** `String.equalsIgnoreCase` on the ASCII range. */
  predicate EqualsIgnoreCase(a: string, b: string)
  {
    Lower(a) == Lower(b)
  }

  /** `Boolean.parseBoolean`: true exactly for "true" in any letter case. */
  predicate ParseBoolean(s: string)
  {
    EqualsIgnoreCase(s, "true")
  }

  // ---------------------------------------------------------------- search

  predicate OccursAt(hay: string, needle: string, i: int)
  {
    0 <= i && i + |needle| <= |hay| && hay[i..i + |needle|] == needle
  }

  /** `String.contains`. */
  function Contains(hay: string, needle: string): bool
    decreases |hay|
  {
    if |needle| > |hay| then false
    else if hay[..|needle|] == needle then true
    else Contains(hay[1..], needle)
  }

  lemma {:induction false} ContainsIff(hay: string, needle: string)
    ensures Contains(hay, needle) <==> exists i :: OccursAt(hay, needle, i)
    decreases |hay|
  {
    if |needle| > |hay| {
    } else if hay[..|needle|] == needle {
      assert OccursAt(hay, needle, 0);
    } else {
      ContainsIff(hay[1..], needle);
      if Contains(hay[1..], needle) {
        var i :| OccursAt(hay[1..], needle, i);
        assert hay[i + 1..i + 1 + |needle|] == hay[1..][i..i + |needle|];
        assert OccursAt(hay, needle, i + 1);
      }
      if exists i :: OccursAt(hay, needle, i) {
        var i :| OccursAt(hay, needle, i);
        assert i != 0;
        assert hay[1..][i - 1..i - 1 + |needle|] == hay[i..i + |needle|];
        assert OccursAt(hay[1..], needle, i - 1);
      }
    }
  }

  /** Index of the first occurrence of `c`, as `String.indexOf(char)` (absent: None). */
  function IndexOf(s: string, c: char): (r: Option<nat>)
    ensures r.None? <==> c !in s
    ensures r.Some? ==> r.value < |s| && s[r.value] == c && c !in s[..r.value]
  {
    if s == [] then None
    else if s[0] == c then Some(0)
    else
      match IndexOf(s[1..], c)
      case None => None
      case Some(k) =>
        assert s[..k + 1] == [s[0]] + s[1..][..k];
        Some(k + 1)
  }

  // ---------------------------------------------------------------- decimal text

  predicate IsDigit(c: char) { '0' <= c <= '9' }

  predicate AllDigits(s: string) { forall i :: 0 <= i < |s| ==> IsDigit(s[i]) }

  function DigitValue(c: char): nat
    requires IsDigit(c)
  {
    c as int - '0' as int
  }

  function DigitChar(d: nat): (c: char)
    requires d < 10
    ensures IsDigit(c) && DigitValue(c) == d
  {
    ('0' as int + d) as char
  }

  /** Value of a run of decimal digits, most significant first. */
  function DigitsValue(s: string): nat
    requires AllDigits(s)
  {
    if s == [] then 0 else DigitsValue(s[..|s| - 1]) * 10 + DigitValue(s[|s| - 1])
  }

  function Pow10(k: nat): (r: nat)
    ensures r > 0
  {
    if k == 0 then 1 else 10 * Pow10(k - 1)
  }

  /** Two digit runs written one after the other: the first is shifted by the length of the second. */
  lemma {:induction false} DigitsValueAppend(a: string, b: string)
    requires AllDigits(a) && AllDigits(b)
    ensures AllDigits(a + b)
    ensures DigitsValue(a + b) == DigitsValue(a) * Pow10(|b|) + DigitsValue(b)
    decreases |b|
  {
    if b == [] {
      assert a + b == a;
    } else {
      var front := b[..|b| - 1];
      var last := DigitValue(b[|b| - 1]);
      DigitsValueAppend(a, front);
      assert (a + b)[..|a + b| - 1] == a + front;
      assert DigitsValue(a + b) == DigitsValue(a + front) * 10 + last;
      ShiftByDigit(DigitsValue(a), Pow10(|front|), DigitsValue(front), last);
    }
  }

  /** One more digit after a shifted run: the shift grows tenfold. */
  lemma ShiftByDigit(x: int, p: int, f: int, d: int)
    ensures (x * p + f) * 10 + d == x * (p * 10) + (f * 10 + d)
  {
  }

  /** Decimal text of a natural number, without leading zeros. */
  function NatText(n: nat): (r: string)
    ensures |r| > 0 && AllDigits(r)
    ensures |r| > 1 ==> r[0] != '0'
  {
    if n < 10 then [DigitChar(n)] else NatText(n / 10) + [DigitChar(n % 10)]
  }

  /** `Long.toString` / `Integer.toString`. */
  function IntText(i: int): (r: string)
    ensures r != []
  {
    if i < 0 then "-" + NatText(-i) else NatText(i)
  }

  lemma {:induction false} NatTextValue(n: nat)
    ensures DigitsValue(NatText(n)) == n
  {
    if n >= 10 {
      NatTextValue(n / 10);
      var t := NatText(n);
      assert t[..|t| - 1] == NatText(n / 10);
    }
  }

  /** Distinct numbers have distinct decimal texts. */
  lemma NatTextInjective(m: nat, n: nat)
    requires NatText(m) == NatText(n)
    ensures m == n
  {
    NatTextValue(m);
    NatTextValue(n);
  }

  const LongMin: int := -0x8000_0000_0000_0000
  const LongMax: int := 0x7FFF_FFFF_FFFF_FFFF

  function Signed(negative: bool, magnitude: nat): int
  {
    if negative then -(magnitude as int) else magnitude
  }

  /**
   * `Long.parseLong`: an optional sign, then at least one decimal digit,
   * the value within the 64-bit range; anything else is a NumberFormatException (None).
   */
  function ParseLong(s: string): (r: Option<int>)
    ensures r.Some? ==> LongMin <= r.value <= LongMax
    ensures r.Some? ==> '.' !in s
  {
    if s == [] then None
    else
      var body := if s[0] == '-' || s[0] == '+' then s[1..] else s;
      if body == [] || !AllDigits(body) then None
      else
        assert s == [s[0]] + s[1..];
        var v := Signed(s[0] == '-', DigitsValue(body));
        if LongMin <= v <= LongMax then Some(v) else None
  }

  /** Every 64-bit integer reads back from its own decimal text. */
  lemma ParseLongOfIntText(n: int)
    requires LongMin <= n <= LongMax
    ensures ParseLong(IntText(n)) == Some(n)
  {
    var s := IntText(n);
    if n < 0 {
      var t := NatText(-n);
      assert s[0] == '-' && s[1..] == t;
      NatTextValue(-n);
      assert Signed(true, DigitsValue(t)) == n;
    } else {
      assert IsDigit(s[0]);
      NatTextValue(n);
      assert Signed(false, DigitsValue(s)) == n;
    }
  }

  /** The decimal text of an integer has nothing to trim. */
  lemma TrimIntText(n: int)
    ensures Trim(IntText(n)) == IntText(n)
  {
    var s := IntText(n);
    if n < 0 {
      var t := NatText(-n);
      assert s == "-" + t;
      assert s[|s| - 1] == t[|t| - 1];
      assert IsDigit(t[|t| - 1]);
    } else {
      assert IsDigit(s[0]) && IsDigit(s[|s| - 1]);
    }
    assert !Trimmable(s[0]) && !Trimmable(s[|s| - 1]);
    assert TrimStart(s) == s;
    assert TrimEnd(s) == s;
  }

  /** A text that starts and ends with a character above U+0020 has nothing to trim. */
  lemma TrimUnchanged(s: string)
    requires s != [] && !Trimmable(s[0]) && !Trimmable(s[|s| - 1])
    ensures Trim(s) == s
  {
    assert TrimStart(s) == s;
    assert TrimEnd(s) == s;
  }

  /**
   * The plain decimal forms `[+-]? digits ('.' digits)?` of `Double.parseDouble`
   * (after its own trim, with at least one digit), as an unscaled mantissa and
   * the number of fractional digits: "8.5" is (85, 1).
   */
  function ParseDecimal(s: string): (r: Option<(int, nat)>)
  {
    var t := Trim(s);
    var negative := |t| > 0 && t[0] == '-';
    UnsignedDecimal(negative, if |t| > 0 && (t[0] == '-' || t[0] == '+') then t[1..] else t)
  }

  /** The digits after the sign, with at most one '.', as a scaled value. */
  function UnsignedDecimal(negative: bool, body: string): (r: Option<(int, nat)>)
  {
    match IndexOf(body, '.')
    case None =>
      if body != [] && AllDigits(body) then Some((Signed(negative, DigitsValue(body)), 0)) else None
    case Some(k) =>
      var whole := body[..k];
      var fraction := body[k + 1..];
      if AllDigits(whole) && AllDigits(fraction) && |whole| + |fraction| > 0 then
        Some((Signed(negative, DigitsValue(whole + fraction)), |fraction|))
      else None
  }

  /** The first dot of a digit run, a dot and a digit run is the one between them. */
  lemma FirstDotAfterDigits(whole: string, fraction: string)
    requires AllDigits(whole)
    ensures IndexOf(whole + "." + fraction, '.') == Some(|whole|)
  {
    var body := whole + "." + fraction;
    assert body[|whole|] == '.';
    assert forall i :: 0 <= i < |whole| ==> body[i] == whole[i];
    assert forall r :: |whole| < r <= |body| ==> body[..r][|whole|] == '.';
  }

  /** The unsigned part of `Double.parseDouble` on digits, a dot and digits. */
  lemma UnsignedDecimalOfParts(negative: bool, whole: string, fraction: string)
    requires AllDigits(whole) && AllDigits(fraction) && |whole| + |fraction| > 0
    ensures AllDigits(whole + fraction)
    ensures UnsignedDecimal(negative, whole + "." + fraction)
        == Some((Signed(negative, DigitsValue(whole + fraction)), |fraction|))
  {
    DigitsValueAppend(whole, fraction);
    var body := whole + "." + fraction;
    FirstDotAfterDigits(whole, fraction);
    assert body[..|whole|] == whole && body[|whole| + 1..] == fraction;
  }

  /**
   * `Double.parseDouble` of an optional '-', a digit run, a dot and a digit
   * run, with at least one digit in all: the digits read as one mantissa,
   * scaled by the number of digits after the dot ("8.5" is (85, 1)).
   */
  lemma ParseDecimalOfParts(negative: bool, whole: string, fraction: string)
    requires AllDigits(whole) && AllDigits(fraction) && |whole| + |fraction| > 0
    ensures AllDigits(whole + fraction)
    ensures ParseDecimal((if negative then "-" else "") + whole + "." + fraction)
        == Some((Signed(negative, DigitsValue(whole + fraction)), |fraction|))
  {
    UnsignedDecimalOfParts(negative, whole, fraction);
    var body := whole + "." + fraction;
    var s := (if negative then "-" else "") + whole + "." + fraction;
    DecimalPartsEnds(negative, whole, fraction);
    DecimalPartsUntrimmed(negative, whole, fraction);
    SignStripped(negative, whole, fraction);
    assert ParseDecimal(s) == UnsignedDecimal(negative, body);
  }

  /** Taking the sign off an optional '-', digits, a dot and digits leaves the unsigned text. */
  lemma SignStripped(negative: bool, whole: string, fraction: string)
    requires AllDigits(whole) && AllDigits(fraction)
    ensures var s := (if negative then "-" else "") + whole + "." + fraction;
      |s| > 0 && (if s[0] == '-' || s[0] == '+' then s[1..] else s) == whole + "." + fraction
  {
    var s := (if negative then "-" else "") + whole + "." + fraction;
    DecimalPartsEnds(negative, whole, fraction);
    if negative {
      assert s[1..] == whole + "." + fraction;
    } else {
      assert s == whole + "." + fraction;
    }
  }

  /** Digits around a dot, with an optional '-', have nothing to trim. */
  lemma DecimalPartsUntrimmed(negative: bool, whole: string, fraction: string)
    requires AllDigits(whole) && AllDigits(fraction)
    ensures var s := (if negative then "-" else "") + whole + "." + fraction;
      Trim(s) == s
  {
    DecimalPartsEnds(negative, whole, fraction);
    var s := (if negative then "-" else "") + whole + "." + fraction;
    TrimUnchanged(s);
  }

  /** Digits around a dot, with an optional '-': only the '-' is a sign, and neither end is trimmable. */
  lemma DecimalPartsEnds(negative: bool, whole: string, fraction: string)
    requires AllDigits(whole) && AllDigits(fraction)
    ensures var s := (if negative then "-" else "") + whole + "." + fraction;
      (s[0] == '-' <==> negative) && s[0] != '+' && !Trimmable(s[0]) && !Trimmable(s[|s| - 1])
  {
    var body := whole + "." + fraction;
    var s := (if negative then "-" else "") + body;
    assert body[|whole|] == '.';
    assert s[|s| - 1] == body[|body| - 1];
    if negative {
      assert s[0] == '-';
    } else {
      assert s == body;
      assert s[0] == '.' || s[0] == whole[0];
    }
  }

  /** `Double.parseDouble` reads the decimal text of an integer as that integer. */
  lemma ParseDecimalOfIntText(n: int)
    ensures ParseDecimal(IntText(n)) == Some((n, 0))
  {
    var s := IntText(n);
    TrimIntText(n);
    var m: nat := if n < 0 then -n else n;
    var body := NatText(m);
    if n < 0 {
      assert s[0] == '-' && s[1..] == body;
    } else {
      assert IsDigit(s[0]);
    }
    assert forall i :: 0 <= i < |body| ==> body[i] != '.';
    NatTextValue(m);
  }

  // ---------------------------------------------------------------- split on '.'

  /** `s` cut at every '.', keeping empty pieces. */
  function RawSplit(s: string): (r: seq<string>)
    ensures |r| >= 1
    ensures forall i :: 0 <= i < |r| ==> '.' !in r[i]
  {
    if s == [] then [[]]
    else if s[0] == '.' then [[]] + RawSplit(s[1..])
    else
      var rest := RawSplit(s[1..]);
      [[s[0]] + rest[0]] + rest[1..]
  }

  function DropTrailingEmpty(parts: seq<string>): (r: seq<string>)
    ensures |r| <= |parts| && r == parts[..|r|]
  {
    if parts != [] && parts[|parts| - 1] == [] then DropTrailingEmpty(parts[..|parts| - 1]) else parts
  }

  /**
   * Java's `s.split("\\.")`: the pieces between dots with trailing empty
   * pieces removed ("a." gives ["a"], "." gives []); no dot gives [s].
   */
  function SplitOnDot(s: string): (r: seq<string>)
    ensures forall i :: 0 <= i < |r| ==> '.' !in r[i]
  {
    if '.' !in s then [s] else DropTrailingEmpty(RawSplit(s))
  }

  /** `String.join(".", parts)`. */
  function JoinOnDot(parts: seq<string>): string
  {
    if parts == [] then []
    else if |parts| == 1 then parts[0]
    else parts[0] + "." + JoinOnDot(parts[1..])
  }

  lemma {:induction false} JoinRawSplit(s: string)
    ensures JoinOnDot(RawSplit(s)) == s
  {
    if s == [] {
    } else if s[0] == '.' {
      JoinRawSplit(s[1..]);
      assert RawSplit(s)[1..] == RawSplit(s[1..]);
    } else {
      JoinRawSplit(s[1..]);
      var rest := RawSplit(s[1..]);
      var r := RawSplit(s);
      if |rest| > 1 {
        assert r[1..] == rest[1..];
        assert JoinOnDot(rest) == rest[0] + "." + JoinOnDot(rest[1..]);
      }
    }
  }

  /** Cutting the dot-joined text of dot-free pieces gives the pieces back. */
  lemma {:induction false} RawSplitJoin(parts: seq<string>)
    requires |parts| >= 1
    requires forall i :: 0 <= i < |parts| ==> '.' !in parts[i]
    ensures RawSplit(JoinOnDot(parts)) == parts
    decreases |parts|, |parts[0]|
  {
    var p := parts[0];
    if p == [] {
      if |parts| > 1 {
        assert JoinOnDot(parts) == "." + JoinOnDot(parts[1..]);
        RawSplitJoin(parts[1..]);
      }
    } else {
      var shorter := [p[1..]] + parts[1..];
      assert forall i :: 1 <= i < |shorter| ==> shorter[i] == parts[i];
      assert '.' !in shorter[0] by {
        assert forall j :: 0 <= j < |p[1..]| ==> p[1..][j] == p[j + 1];
      }
      RawSplitJoin(shorter);
      var j := JoinOnDot(parts);
      if |parts| > 1 {
        assert shorter[1..] == parts[1..];
        assert j == [p[0]] + JoinOnDot(shorter);
      } else {
        assert j == [p[0]] + JoinOnDot(shorter);
      }
      assert p[0] != '.' by { assert p[0] == parts[0][0]; }
      assert j[0] == p[0] && j[1..] == JoinOnDot(shorter);
      assert RawSplit(j) == [[p[0]] + shorter[0]] + shorter[1..];
      assert [p[0]] + p[1..] == p;
      assert [p] + parts[1..] == parts;
    }
  }

  /**
   * A dotted path built from at least two dot-free pieces, the last of which is
   * not empty, splits back into exactly those pieces.
   */
  lemma SplitOnDotJoin(parts: seq<string>)
    requires |parts| >= 2 && parts[|parts| - 1] != []
    requires forall i :: 0 <= i < |parts| ==> '.' !in parts[i]
    ensures '.' in JoinOnDot(parts)
    ensures SplitOnDot(JoinOnDot(parts)) == parts
  {
    RawSplitJoin(parts);
    assert JoinOnDot(parts) == parts[0] + "." + JoinOnDot(parts[1..]);
    assert JoinOnDot(parts)[|parts[0]|] == '.';
  }
}
