/**
 * JSON values as Jackson's tree model holds them, the texts Java derives from
 * them, and Java exceptions as values.
 *
 * The same datatype carries both a parsed message (`JsonNode`) and a rule
 * value as the document store hands it over (`Map<String, Object>`, `List`,
 * `String`, `Integer`/`Long`/`Double`, `Boolean`, `null`).
 */
module Json {
  import opened Text

  /** A JSON number: an integral node, or a double node whose value is mant / 10^scale. */
  datatype Number = Int(i: int) | Dbl(mant: int, scale: nat)

  datatype Json =
    | Null
    | Bool(b: bool)
    | Num(n: Number)
    | Str(s: string)
    | Arr(items: seq<Json>)
    | Obj(fields: seq<(string, Json)>)

  /** The members of an object, in insertion order. */
  type Fields = seq<(string, Json)>

  /** `ObjectMapper.readTree` on a text: the tree it builds, or None when it throws. */
  type JsonReader = string -> Option<Json>

  /** The Java exceptions the evaluator can raise on malformed rules. */
  datatype Exception = ClassCast | NullPointer | NumberFormat

  /** A result that is either a value or a thrown exception. */
  datatype Res<T> = Ok(value: T) | Thrown(ex: Exception)
  {
    predicate IsFailure() { Thrown? }

    function PropagateFailure<U>(): Res<U>
      requires Thrown?
    {
      Thrown(ex)
    }

    function Extract(): T
      requires Ok?
    {
      value
    }
  }

  // ---------------------------------------------------------------- numbers

  /** The mathematical value of a number node (`asDouble` without rounding). */
  function Value(n: Number): real
  {
    match n
    case Int(i) => i as real
    case Dbl(m, k) => m as real / Pow10(k) as real
  }

  function Abs(x: int): nat
  {
    if x < 0 then -x else x
  }

  /** `m / 10^k`. */
  function DropDigits(m: nat, k: nat): nat
  {
    if k == 0 then m else DropDigits(m / 10, k - 1)
  }

  /** `m % 10^k`. */
  function LastDigits(m: nat, k: nat): nat
  {
    if k == 0 then 0 else LastDigits(m / 10, k - 1) * 10 + m % 10
  }

  function PadLeft(s: string, width: nat): (r: string)
    ensures |r| >= width
    decreases width - |s|
  {
    if |s| >= width then s else PadLeft("0" + s, width)
  }

  function StripTrailingZeros(s: string): string
  {
    if s != [] && s[|s| - 1] == '0' then StripTrailingZeros(s[..|s| - 1]) else s
  }

  /**
   * `Double.toString` in its plain range: the whole part, a dot, and the
   * fraction without trailing zeros but with at least one digit ("85.0", "8.5").
   */
  function DoubleText(mant: int, scale: nat): string
  {
    var magnitude := Abs(mant);
    (if mant < 0 then "-" else "")
      + NatText(DropDigits(magnitude, scale)) + "." + FractionText(LastDigits(magnitude, scale), scale)
  }

  /** The digits after the dot: `scale` digits of `fraction`, trailing zeros dropped, at least one. */
  function FractionText(fraction: nat, scale: nat): string
  {
    var digits := StripTrailingZeros(PadLeft(NatText(fraction), scale));
    if digits == [] then "0" else digits
  }

  /** The text Java and Jackson both give a number: `Long.toString` or `Double.toString`. */
  function NumberText(n: Number): string
  {
    match n
    case Int(i) => IntText(i)
    case Dbl(m, k) => DoubleText(m, k)
  }

  // ---------------------------------------------------------------- reading a number's text back

  /** `m` is its leading part shifted by `k` digits plus its last `k` digits, which are below `10^k`. */
  lemma {:induction false} DropAndLastDigits(m: nat, k: nat)
    ensures DropDigits(m, k) * Pow10(k) + LastDigits(m, k) == m
    ensures LastDigits(m, k) < Pow10(k)
    decreases k
  {
    if k > 0 {
      DropAndLastDigits(m / 10, k - 1);
      var d := DropDigits(m / 10, k - 1);
      var l := LastDigits(m / 10, k - 1);
      calc {
        DropDigits(m, k) * Pow10(k) + LastDigits(m, k);
        d * (10 * Pow10(k - 1)) + (l * 10 + m % 10);
        (d * Pow10(k - 1) + l) * 10 + m % 10;
      }
      assert l <= Pow10(k - 1) - 1;
    }
  }

  /** A number below `10^k` has at most `k` decimal digits. */
  lemma {:induction false} NatTextShort(n: nat, k: nat)
    requires k >= 1 && n < Pow10(k)
    ensures |NatText(n)| <= k
  {
    if n >= 10 {
      assert Pow10(1) == 10;
      assert k >= 2;
      NatTextShort(n / 10, k - 1);
    }
  }

  lemma {:induction false} Pow10Add(a: nat, b: nat)
    ensures Pow10(a + b) == Pow10(a) * Pow10(b)
  {
    if a > 0 {
      Pow10Add(a - 1, b);
    }
  }

  /** Leading zeros change no digit run's value. */
  lemma PadLeftDigits(s: string, width: nat)
    requires AllDigits(s)
    ensures AllDigits(PadLeft(s, width)) && DigitsValue(PadLeft(s, width)) == DigitsValue(s)
    ensures |PadLeft(s, width)| == if |s| >= width then |s| else width
    decreases width - |s|
  {
    if |s| < width {
      assert "0"[..0] == [];
      DigitsValueAppend("0", s);
      PadLeftDigits("0" + s, width);
    }
  }

  /** Dropping trailing zeros divides a digit run's value by ten per zero. */
  lemma {:induction false} StripTrailingZerosDigits(s: string)
    requires AllDigits(s)
    ensures var r := StripTrailingZeros(s);
      |r| <= |s| && r == s[..|r|] && AllDigits(r) && DigitsValue(s) == DigitsValue(r) * Pow10(|s| - |r|)
    decreases |s|
  {
    if s != [] && s[|s| - 1] == '0' {
      var front := s[..|s| - 1];
      StripTrailingZerosDigits(front);
      var r := StripTrailingZeros(front);
      assert r == s[..|r|];
      calc {
        DigitsValue(s);
        DigitsValue(front) * 10;
        DigitsValue(r) * Pow10(|front| - |r|) * 10;
        DigitsValue(r) * Pow10(|s| - |r|);
      }
    } else {
      assert s[..|s|] == s;
    }
  }

  /**
   * The arithmetic of reading back `Double.toString`: the mantissa `x` of
   * whole part `q` and fraction digits `v` (worth `r / 10^k`), over `10^|f|`,
   * has the cross product of `magnitude = q * 10^k + r` over `10^k`.
   */
  lemma CrossMultiply(negative: bool, magnitude: nat, v: nat, x: nat, q: nat, r: nat, pf: nat, pk: nat)
    requires magnitude == q * pk + r && x == q * pf + v && v * pk == r * pf
    ensures Signed(negative, x) * pk == Signed(negative, magnitude) * pf
  {
    calc {
      x * pk;
      q * pf * pk + v * pk;
      q * pk * pf + r * pf;
      (q * pk + r) * pf;
    }
  }

  /** Two fractions with equal cross products are equal. */
  lemma EqualFractions(a: int, b: int, c: int, d: int)
    requires b > 0 && d > 0 && a * d == c * b
    ensures a as real / b as real == c as real / d as real
  {
    var br := b as real;
    var dr := d as real;
    var x := a as real / br;
    var y := c as real / dr;
    assert x * br == a as real;
    assert y * dr == c as real;
    assert (a * d) as real == a as real * dr;
    assert (c * b) as real == c as real * br;
    assert x * br * dr == y * dr * br;
    assert br * dr > 0.0;
  }

  /** A value `v` shifted by `k - n` digits to `r` gives `v * 10^k == r * 10^n`. */
  lemma ShiftedValue(v: nat, r: nat, n: nat, k: nat)
    requires n <= k && r == v * Pow10(k - n)
    ensures v * Pow10(k) == r * Pow10(n)
  {
    Pow10Add(n, k - n);
    var a := Pow10(n);
    var b := Pow10(k - n);
    assert Pow10(k) == a * b;
    assert v * (a * b) == (v * b) * a;
  }

  /** The fraction digits before trailing zeros are dropped: `r` written with `k` digits. */
  lemma PaddedFraction(r: nat, k: nat)
    requires r < Pow10(k)
    ensures var p := PadLeft(NatText(r), k);
      AllDigits(p) && DigitsValue(p) == r && (r > 0 ==> |p| == k)
  {
    NatTextValue(r);
    PadLeftDigits(NatText(r), k);
    if r > 0 {
      assert k != 0;
      NatTextShort(r, k);
    }
  }

  /**
   * The digits `Double.toString` writes after the dot stand for `r / 10^k`:
   * their value over ten to their count is that fraction.
   */
  lemma FractionTextValue(r: nat, k: nat)
    requires r < Pow10(k)
    ensures var f := FractionText(r, k);
      f != [] && AllDigits(f) && DigitsValue(f) * Pow10(k) == r * Pow10(|f|)
  {
    var p := PadLeft(NatText(r), k);
    PaddedFraction(r, k);
    var d := StripTrailingZeros(p);
    StripTrailingZerosDigits(p);
    if d == [] {
      assert "0"[..0] == [];
      assert DigitsValue("0") == 0;
    } else if r > 0 {
      ShiftedValue(DigitsValue(d), r, |d|, k);
    }
  }

  /** `Double.toString` is a sign, the whole digits, a dot and the fraction digits, and parses as such. */
  lemma DoubleTextParts(m: int, k: nat)
    ensures var w := NatText(DropDigits(Abs(m), k));
      var f := FractionText(LastDigits(Abs(m), k), k);
      AllDigits(f) && AllDigits(w + f)
      && ParseDecimal(DoubleText(m, k)) == Some((Signed(m < 0, DigitsValue(w + f)), |f|))
  {
    DropAndLastDigits(Abs(m), k);
    var w := NatText(DropDigits(Abs(m), k));
    var f := FractionText(LastDigits(Abs(m), k), k);
    FractionTextValue(LastDigits(Abs(m), k), k);
    assert DoubleText(m, k) == (if m < 0 then "-" else "") + w + "." + f;
    ParseDecimalOfParts(m < 0, w, f);
  }

  /** The digits `Double.toString` writes, read as one mantissa, in terms of the number's two parts. */
  lemma DoubleTextDigits(m: int, k: nat)
    ensures var w := NatText(DropDigits(Abs(m), k));
      var f := FractionText(LastDigits(Abs(m), k), k);
      AllDigits(f) && AllDigits(w + f)
      && DigitsValue(w + f) == DropDigits(Abs(m), k) * Pow10(|f|) + DigitsValue(f)
      && DigitsValue(f) * Pow10(k) == LastDigits(Abs(m), k) * Pow10(|f|)
  {
    DropAndLastDigits(Abs(m), k);
    var w := NatText(DropDigits(Abs(m), k));
    var f := FractionText(LastDigits(Abs(m), k), k);
    FractionTextValue(LastDigits(Abs(m), k), k);
    NatTextValue(DropDigits(Abs(m), k));
    DigitsValueAppend(w, f);
  }

  /** The mantissa and scale read back from `Double.toString` have the cross product of the ones written. */
  lemma DoubleTextMantissa(m: int, k: nat)
    ensures ParseDecimal(DoubleText(m, k)).Some?
    ensures var d := ParseDecimal(DoubleText(m, k)).value;
      d.0 * Pow10(k) == m * Pow10(d.1)
  {
    var magnitude := Abs(m);
    var q := DropDigits(magnitude, k);
    var r := LastDigits(magnitude, k);
    var w := NatText(q);
    var f := FractionText(r, k);
    DoubleTextParts(m, k);
    DoubleTextDigits(m, k);
    DropAndLastDigits(magnitude, k);
    CrossMultiply(m < 0, magnitude, DigitsValue(f), DigitsValue(w + f), q, r, Pow10(|f|), Pow10(k));
    assert Signed(m < 0, magnitude) == m;
  }

  /** `Double.parseDouble` of `Double.toString` gives back the value written. */
  lemma DoubleTextValue(m: int, k: nat)
    ensures ParseDecimal(DoubleText(m, k)).Some?
    ensures var d := ParseDecimal(DoubleText(m, k)).value;
      d.0 as real / Pow10(d.1) as real == m as real / Pow10(k) as real
  {
    DoubleTextMantissa(m, k);
    var d := ParseDecimal(DoubleText(m, k)).value;
    EqualFractions(d.0, Pow10(d.1), m, Pow10(k));
  }

  // ---------------------------------------------------------------- members

  /** The first member named `key`, as `Map.get` / `ObjectNode.get` find it. */
  function Lookup(fs: Fields, key: string): (r: Option<Json>)
    ensures r.None? <==> forall i :: 0 <= i < |fs| ==> fs[i].0 != key
    ensures r.Some? ==> exists i :: 0 <= i < |fs| && fs[i] == (key, r.value)
  {
    if fs == [] then None
    else if fs[0].0 == key then Some(fs[0].1)
    else
      var r := Lookup(fs[1..], key);
      assert forall i :: 1 <= i < |fs| ==> fs[i] == fs[1..][i - 1];
      r
  }

  /** `JsonNode.get(name)`: a member of an object node; no other node has members. */
  function Get(node: Json, key: string): (r: Option<Json>)
    ensures r.Some? ==> node.Obj?
  {
    if node.Obj? then Lookup(node.fields, key) else None
  }

  // ---------------------------------------------------------------- texts

  /** `JsonNode.asText()`: scalars as text, "null" for null, "" for containers. */
  function AsText(node: Json): string
  {
    match node
    case Null => "null"
    case Bool(b) => if b then "true" else "false"
    case Num(n) => NumberText(n)
    case Str(s) => s
    case Arr(_) => ""
    case Obj(_) => ""
  }

  function HexDigit(d: nat): char
    requires d < 16
  {
    if d < 10 then DigitChar(d) else ('A' as int + d - 10) as char
  }

  /** How Jackson writes one character inside a JSON string literal. */
  function EscapeChar(c: char): string
  {
    if c == '"' then "\\\""
    else if c == '\\' then "\\\\"
    else if c == '\n' then "\\n"
    else if c == '\r' then "\\r"
    else if c == '\t' then "\\t"
    else if c as int == 8 then "\\b"
    else if c as int == 12 then "\\f"
    else if c < ' ' then "\\u00" + [HexDigit(c as int / 16), HexDigit(c as int % 16)]
    else [c]
  }

  function Escape(s: string): string
  {
    if s == [] then [] else EscapeChar(s[0]) + Escape(s[1..])
  }

  function Quote(s: string): string
  {
    "\"" + Escape(s) + "\""
  }

  /** `JsonNode.toString()`: the node written as compact JSON. */
  function Serialize(node: Json): string
    decreases node, 1
  {
    match node
    case Null => "null"
    case Bool(b) => if b then "true" else "false"
    case Num(n) => NumberText(n)
    case Str(s) => Quote(s)
    case Arr(items) => "[" + SerializeItems(items) + "]"
    case Obj(fs) => "{" + SerializeFields(fs) + "}"
  }

  function SerializeItems(items: seq<Json>): string
    decreases items, 0
  {
    if items == [] then []
    else Serialize(items[0]) + (if |items| == 1 then "" else "," + SerializeItems(items[1..]))
  }

  function SerializeFields(fs: Fields): string
    decreases fs, 0
  {
    if fs == [] then []
    else
      SerializeMember(fs[0]) + (if |fs| == 1 then "" else "," + SerializeFields(fs[1..]))
  }

  function SerializeMember(f: (string, Json)): string
    decreases f, 0
  {
    Quote(f.0) + ":" + Serialize(f.1)
  }

  /**
   * `String.valueOf` of a rule value: `Map` as "{k=v, ...}", `List` as
   * "[a, b]", strings unquoted, numbers and booleans as Java prints them.
   */
  function JavaText(v: Json): string
    decreases v, 1
  {
    match v
    case Null => "null"
    case Bool(b) => if b then "true" else "false"
    case Num(n) => NumberText(n)
    case Str(s) => s
    case Arr(items) => "[" + JavaItems(items) + "]"
    case Obj(fs) => "{" + JavaEntries(fs) + "}"
  }

  function JavaItems(items: seq<Json>): string
    decreases items, 0
  {
    if items == [] then []
    else JavaText(items[0]) + (if |items| == 1 then "" else ", " + JavaItems(items[1..]))
  }

  function JavaEntries(fs: Fields): string
    decreases fs, 0
  {
    if fs == [] then []
    else
      JavaEntry(fs[0]) + (if |fs| == 1 then "" else ", " + JavaEntries(fs[1..]))
  }

  function JavaEntry(f: (string, Json)): string
    decreases f, 0
  {
    f.0 + "=" + JavaText(f.1)
  }
}
