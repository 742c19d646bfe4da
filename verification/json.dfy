/**
 * The untyped request body the submit endpoint receives once `req.json()`
 * has parsed it, and the three JavaScript coercions the validator applies to
 * its fields: `String(x)`, `Number(x)` and truthiness.
 *
 * JSON numbers are kept as exact decimals (mantissa and power-of-ten scale);
 * binary floating-point rounding is not modelled.
 */
module Json {
  import opened Undefined
  import opened Text

  /** The number `mantissa / 10^scale`. */
  datatype Decimal = Decimal(mantissa: int, scale: nat)

  function Value(d: Decimal): real {
    d.mantissa as real / Pow10(d.scale) as real
  }

  datatype Json =
    | JNull
    | JBool(b: bool)
    | JNum(n: Decimal)
    | JStr(s: string)
    | JArr(items: seq<Json>)
    | JObj(fields: map<string, Json>)

  /** The outcome of `Number(x)`: NaN and the two infinities are all NonFinite. */
  datatype Num = NonFinite | Finite(value: real)

  // ---- String(x) ----

  /** Drops trailing zeros of the fraction. */
  function Normalize(d: Decimal): (r: Decimal)
    ensures r.scale <= d.scale
    ensures r.scale == 0 || r.mantissa % 10 != 0
    decreases d.scale
  {
    if d.scale > 0 && d.mantissa % 10 == 0 then Normalize(Decimal(d.mantissa / 10, d.scale - 1)) else d
  }

  lemma ScaleDown(q: int, p: nat)
    requires p >= 1
    ensures (10 * q) as real / (10 * p) as real == q as real / p as real
  {
  }

  /** Normalising keeps the number the decimal denotes. */
  lemma {:induction false} NormalizeValue(d: Decimal)
    ensures Value(Normalize(d)) == Value(d)
    decreases d.scale
  {
    if d.scale > 0 && d.mantissa % 10 == 0 {
      NormalizeValue(Decimal(d.mantissa / 10, d.scale - 1));
      ScaleDown(d.mantissa / 10, Pow10(d.scale - 1));
    }
  }

  function Abs(m: int): nat {
    if m < 0 then -m else m
  }

  lemma DivMod(a: nat, p: nat)
    requires p >= 1
    ensures a / p >= 0 && 0 <= a % p < p
    ensures (a / p) * p + a % p == a
  {
  }

  /** Integral digits, a point and `scale` fractional digits whose joined value is `v` parse to `v / 10^scale`. */
  lemma ParsesTo(u: string, w: string, f: string, v: nat, scale: nat)
    requires u == w + "." + f && w != [] && AllDigits(w) && AllDigits(f)
    requires |f| == scale && DigitsValue(w + f) == v
    ensures ParseUnsigned(u) == Some(Decimal(v, scale))
  {
    PointedDigitsParse(w, f);
  }

  /** The zero-padded fraction has exactly `scale` digits, and joined to the integral digits it spells `q * 10^scale + r`. */
  lemma FractionValue(q: nat, r: nat, scale: nat)
    requires scale >= 1 && r < Pow10(scale)
    ensures var frac := PadZeros(NatText(r), scale);
      |frac| == scale && DigitsValue(NatText(q) + frac) == q * Pow10(scale) + r
  {
    var whole := NatText(q);
    var frac := PadZeros(NatText(r), scale);
    NatTextRoundTrip(q);
    NatTextRoundTrip(r);
    NatTextLength(r, scale);
    DigitsValueAppend(whole, frac);
    Combine(DigitsValue(whole + frac), DigitsValue(whole), q, Pow10(|frac|), Pow10(scale), DigitsValue(frac), r);
  }

  lemma Combine(v: int, w: int, q: int, p: int, p': int, f: int, r: int)
    requires v == w * p + f && w == q && p == p' && f == r
    ensures v == q * p' + r
  {
  }

  /** The digits and point of `UnsignedText` for a positive scale parse back to the number. */
  lemma PointedParses(a: nat, scale: nat)
    requires scale >= 1
    ensures ParseUnsigned(UnsignedText(a, scale)) == Some(Decimal(a, scale))
  {
    var p := Pow10(scale);
    DivMod(a, p);
    var q: nat, r: nat := a / p, a % p;
    FractionValue(q, r, scale);
    var whole, frac := NatText(q), PadZeros(NatText(r), scale);
    assert UnsignedText(a, scale) == whole + "." + frac;
    ParsesTo(UnsignedText(a, scale), whole, frac, a, scale);
  }

  /** The digits of `a / 10^scale`: integral part, then (if scale > 0) a point and exactly `scale` fractional digits. */
  function UnsignedText(a: nat, scale: nat): string {
    var p := Pow10(scale);
    DivMod(a, p);
    var q: nat, r: nat := a / p, a % p;
    if scale == 0 then NatText(q) else NatText(q) + "." + PadZeros(NatText(r), scale)
  }

  /**
   * `String(n)` for a number: optional minus sign, the integral digits, and the
   * fractional digits without trailing zeros. Exponent notation, which
   * JavaScript uses from 1e21 upwards and below 1e-6, is not modelled.
   */
  function DecimalText(d: Decimal): string {
    var n := Normalize(d);
    (if n.mantissa < 0 then "-" else "") + UnsignedText(Abs(n.mantissa), n.scale)
  }

  /** `Array.prototype.join` over the first `n` elements of an array: null elements read as "". */
  function JoinItems(v: Json, n: nat): string
    requires v.JArr? && n <= |v.items|
    decreases v, n
  {
    if n == 0 then ""
    else
      var last := if v.items[n - 1].JNull? then "" else ToText(v.items[n - 1]);
      if n == 1 then last else JoinItems(v, n - 1) + "," + last
  }

  /** `String(x)` for a parsed JSON value. */
  function ToText(v: Json): string
    decreases v, if v.JArr? then |v.items| + 1 else 0
  {
    match v
    case JNull => "null"
    case JBool(b) => if b then "true" else "false"
    case JNum(d) => DecimalText(d)
    case JStr(s) => s
    case JArr(items) => JoinItems(v, |items|)
    case JObj(_) => "[object Object]"
  }

  // ---- Number(x) ----

  /** Splits an optional exponent `[+-]digits` into its value; None when malformed. */
  function ParseExponent(t: string): Option<int> {
    var negative := t != [] && t[0] == '-';
    var digits := if t != [] && (t[0] == '+' || t[0] == '-') then t[1..] else t;
    if digits == [] || !AllDigits(digits) then None
    else if negative then Some(0 - DigitsValue(digits))
    else Some(DigitsValue(digits))
  }

  /** `m * 10^k`, by repeated multiplication by ten. */
  function ScaleUp(m: nat, k: nat): nat {
    if k == 0 then m else 10 * ScaleUp(m, k - 1)
  }

  lemma {:induction false} ScaleUpIsProduct(m: nat, k: nat)
    ensures ScaleUp(m, k) == m * Pow10(k)
  {
    if k > 0 {
      ScaleUpIsProduct(m, k - 1);
      assert 10 * (m * Pow10(k - 1)) == m * (10 * Pow10(k - 1));
    }
  }

  /** The decimal `m * 10^(-scale)`, for a scale of either sign. */
  function Shifted(m: nat, scale: int): (d: Decimal)
    ensures d.mantissa >= 0
  {
    if scale >= 0 then Decimal(m, scale) else Decimal(ScaleUp(m, -scale), 0)
  }

  /** Where the exponent part of a literal starts (the first 'e' or 'E'), or `|t|`. */
  function ExponentIndex(t: string): (r: nat)
    ensures r <= |t|
  {
    var i := IndexOf(t, 'e');
    var j := IndexOf(t, 'E');
    if i < j then i else j
  }

  /** An unsigned decimal literal: `digits[.digits]` or `.digits`, then an optional exponent. */
  function ParseUnsigned(t: string): (r: Option<Decimal>)
    ensures r.Some? ==> r.value.mantissa >= 0
  {
    var e := ExponentIndex(t);
    var body := t[..e];
    var dot := IndexOf(body, '.');
    var ip := body[..dot];
    var fp := if dot < |body| then body[dot + 1..] else [];
    if !AllDigits(ip) || !AllDigits(fp) || |ip| + |fp| == 0 then None
    else
      var m := DigitsValue(ip + fp);
      if e == |t| then Some(Decimal(m, |fp|))
      else match ParseExponent(t[e + 1..])
        case None => None
        case Some(x) => Some(Shifted(m, |fp| - x))
  }

  /** A signed decimal literal. */
  function ParseDecimalLiteral(t: string): Option<Decimal> {
    if t != [] && (t[0] == '+' || t[0] == '-') then
      match ParseUnsigned(t[1..])
      case None => None
      case Some(d) => Some(if t[0] == '-' then Decimal(-d.mantissa, d.scale) else d)
    else ParseUnsigned(t)
  }

  /**
   * `Number(s)` for a string: blank text is 0, the three spellings of Infinity
   * are not finite, a decimal literal denotes its value and anything else is NaN.
   * Hexadecimal, octal and binary prefixes are not modelled.
   */
  function TextToNumber(s: string): Num {
    var t := Trim(s);
    if t == [] then Finite(0.0)
    else if t == "Infinity" || t == "+Infinity" || t == "-Infinity" then NonFinite
    else match ParseDecimalLiteral(t)
      case Some(d) => Finite(Value(d))
      case None => NonFinite
  }

  /** `Number(x)` for a field that may be missing (`undefined`, which is NaN). */
  function NumberOf(v: Option<Json>): Num {
    match v
    case None => NonFinite
    case Some(JNull) => Finite(0.0)
    case Some(JBool(b)) => Finite(if b then 1.0 else 0.0)
    case Some(JNum(d)) => Finite(Value(d))
    case Some(JStr(s)) => TextToNumber(s)
    case Some(x) => TextToNumber(ToText(x))
  }

  /** JavaScript truthiness of a field that may be missing. */
  predicate Truthy(v: Option<Json>) {
    match v
    case None => false
    case Some(JNull) => false
    case Some(JBool(b)) => b
    case Some(JNum(d)) => d.mantissa != 0
    case Some(JStr(s)) => s != []
    case Some(_) => true
  }

  // ---- properties ----

  /** The unsigned digits are non-empty, start with a digit and hold no white space. */
  lemma UnsignedTextShape(a: nat, scale: nat)
    ensures var u := UnsignedText(a, scale); u != [] && IsDigit(u[0]) && NoSpace(u)
  {
    var p := Pow10(scale);
    DivMod(a, p);
    var q: nat, r: nat := a / p, a % p;
    var w := NatText(q);
    DigitsNoSpace(w);
    if scale > 0 {
      var f := PadZeros(NatText(r), scale);
      DigitsNoSpace(f);
      NoSpaceAppend(w, ".");
      NoSpaceAppend(w + ".", f);
      assert UnsignedText(a, scale) == w + "." + f;
      assert (w + "." + f)[0] == w[0];
    }
  }

  /** The text of a number is non-empty and has no white space in it. */
  lemma DecimalTextShape(d: Decimal)
    ensures DecimalText(d) != [] && NoSpace(DecimalText(d))
  {
    var n := Normalize(d);
    var u := UnsignedText(Abs(n.mantissa), n.scale);
    UnsignedTextShape(Abs(n.mantissa), n.scale);
    if n.mantissa < 0 {
      NoSpaceAppend("-", u);
      assert DecimalText(d) == "-" + u;
    } else {
      assert DecimalText(d) == u;
    }
  }

  /** A plain run of digits is an integer literal with scale 0. */
  lemma DigitsParse(w: string)
    requires w != [] && AllDigits(w)
    ensures ParseUnsigned(w) == Some(Decimal(DigitsValue(w), 0))
  {
    assert ExponentIndex(w) == |w|;
    assert w[..|w|] == w;
    assert IndexOf(w, '.') == |w|;
    assert DigitsValue(w + []) == DigitsValue(w) by { assert w + [] == w; }
  }

  /** Integral digits, a point and fractional digits parse to the joined digits with the fraction's length as scale. */
  lemma PointedDigitsParse(w: string, f: string)
    requires w != [] && AllDigits(w) && AllDigits(f)
    ensures ParseUnsigned(w + "." + f) == Some(Decimal(DigitsValue(w + f), |f|))
  {
    var u := w + "." + f;
    assert ExponentIndex(u) == |u|;
    assert u[..|u|] == u;
    assert u[|w|] == '.';
    assert IndexOf(u, '.') == |w|;
    assert u[..|w|] == w;
    assert u[|w| + 1..] == f;
  }

  /** The unsigned digits parse back to exactly the mantissa and scale they spell. */
  lemma UnsignedTextParses(a: nat, scale: nat)
    ensures ParseUnsigned(UnsignedText(a, scale)) == Some(Decimal(a, scale))
  {
    if scale == 0 {
      assert UnsignedText(a, scale) == NatText(a);
      NatTextRoundTrip(a);
      DigitsParse(NatText(a));
    } else {
      PointedParses(a, scale);
    }
  }

  /** A minus sign before unsigned digits negates what they parse to. */
  lemma NegativeParses(u: string, m: Decimal)
    requires ParseUnsigned(u) == Some(m)
    ensures ParseDecimalLiteral("-" + u) == Some(Decimal(-m.mantissa, m.scale))
  {
    var t := "-" + u;
    assert t[0] == '-';
    assert t[1..] == u;
    assert ParseUnsigned(t[1..]) == Some(m);
  }

  /** Digits with no sign parse as they are. */
  lemma PlainParses(u: string, m: Decimal)
    requires u != [] && IsDigit(u[0]) && ParseUnsigned(u) == Some(m)
    ensures ParseDecimalLiteral(u) == Some(m)
  {
  }

  /** `String(n)` read back by the literal parser gives the normalised decimal. */
  lemma DecimalTextParses(d: Decimal)
    ensures ParseDecimalLiteral(DecimalText(d)) == Some(Normalize(d))
  {
    var n := Normalize(d);
    var a := Abs(n.mantissa);
    var u := UnsignedText(a, n.scale);
    UnsignedTextParses(a, n.scale);
    if n.mantissa < 0 {
      assert DecimalText(d) == "-" + u;
      NegativeParses(u, Decimal(a, n.scale));
    } else {
      assert DecimalText(d) == u;
      UnsignedTextShape(a, n.scale);
      PlainParses(u, Decimal(a, n.scale));
    }
  }

  /** The text of a number starts with a digit, or with a minus sign followed by a digit. */
  lemma DecimalTextStart(d: Decimal)
    ensures var t := DecimalText(d);
      |t| >= 1 && (IsDigit(t[0]) || (t[0] == '-' && |t| >= 2 && IsDigit(t[1])))
  {
    var n := Normalize(d);
    var u := UnsignedText(Abs(n.mantissa), n.scale);
    UnsignedTextShape(Abs(n.mantissa), n.scale);
    if n.mantissa < 0 {
      assert DecimalText(d) == "-" + u;
    } else {
      assert DecimalText(d) == u;
    }
  }

  /** A text starting with a digit, or a minus sign and a digit, is none of the spellings of Infinity. */
  lemma NotInfinity(t: string)
    requires |t| >= 1
    requires IsDigit(t[0]) || (t[0] == '-' && |t| >= 2 && IsDigit(t[1]))
    ensures t != "Infinity" && t != "+Infinity" && t != "-Infinity"
  {
    assert "Infinity"[0] == 'I' && "+Infinity"[0] == '+' && "-Infinity"[1] == 'I';
  }

  /** A white-space-free literal starting with a digit (after an optional minus) converts to the decimal it parses to. */
  lemma LiteralToNumber(t: string, n: Decimal)
    requires NoSpace(t) && |t| >= 1
    requires IsDigit(t[0]) || (t[0] == '-' && |t| >= 2 && IsDigit(t[1]))
    requires ParseDecimalLiteral(t) == Some(n)
    ensures TextToNumber(t) == Finite(Value(n))
  {
    TrimNoSpace(t);
    NotInfinity(t);
  }

  /** `Number(String(n))` is `n` for every JSON number `n`. */
  lemma DecimalTextToNumber(d: Decimal)
    ensures TextToNumber(DecimalText(d)) == Finite(Value(d))
  {
    DecimalTextShape(d);
    DecimalTextStart(d);
    DecimalTextParses(d);
    LiteralToNumber(DecimalText(d), Normalize(d));
    NormalizeValue(d);
  }
}
