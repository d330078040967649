/**
 * The untyped JavaScript values (`unknown`) that request bodies, webhook
 * payloads and database rows carry, with the few built-in conversions the
 * application relies on: truthiness, property access and `Number(string)`.
 * Numbers are exact reals; IEEE-754 rounding is not modelled.
 */
module JsValues {
  import opened Strings
  import opened Wrappers

  datatype Number = Finite(v: real) | NaN | PosInf | NegInf

  datatype JsValue =
    | Undefined
    | Null
    | Bool(b: bool)
    | Num(n: Number)
    | Str(s: string)
    | Arr(items: seq<JsValue>)
    | Obj(fields: map<string, JsValue>)

  /** `value[key]` on a plain object; anything else yields `undefined`. */
  function Get(v: JsValue, key: string): (r: JsValue)
    ensures !v.Obj? ==> r == Undefined
    ensures v.Obj? && key !in v.fields ==> r == Undefined
  {
    if v.Obj? && key in v.fields then v.fields[key] else Undefined
  }

  /** `Boolean(v)`. */
  predicate Truthy(v: JsValue) {
    match v
    case Undefined => false
    case Null => false
    case Bool(b) => b
    case Num(n) => n != NaN && n != Finite(0.0)
    case Str(s) => s != ""
    case Arr(_) => true
    case Obj(_) => true
  }

  /** `v === null || v === undefined`. */
  predicate IsNullish(v: JsValue) {
    v.Undefined? || v.Null?
  }

  /** `typeof v === 'number' && Number.isFinite(v)`. */
  predicate IsFiniteNumber(v: JsValue) {
    v.Num? && v.n.Finite?
  }

  /** 10 to the power `k`. */
  function Pow10(k: nat): (r: nat)
    ensures r >= 1
  {
    if k == 0 then 1 else 10 * Pow10(k - 1)
  }

  predicate AllDigits(s: string) {
    forall i :: 0 <= i < |s| ==> IsDigit(s[i])
  }

  /**
   * The significand of a decimal literal: `D*` or `D*.D*` with at least
   * one digit.
   */
  function ParseSignificand(t: string): (r: Option<real>)
    ensures r.Some? ==> r.value >= 0.0
  {
    match IndexOfChar(t, '.')
    case None =>
      if |t| > 0 && AllDigits(t) then Some(DigitsValue(t) as real) else None
    case Some(i) =>
      var whole, frac := t[..i], t[i + 1..];
      if |whole| + |frac| > 0 && AllDigits(whole) && AllDigits(frac)
      then Some(DigitsValue(whole) as real + DigitsValue(frac) as real / Pow10(|frac|) as real)
      else None
  }

  /** The first `e` or `E` of `t`. */
  function IndexOfExponent(t: string): (r: Option<nat>)
    ensures r.Some? ==> r.value < |t| && (t[r.value] == 'e' || t[r.value] == 'E')
    ensures r.Some? ==> forall k :: 0 <= k < r.value ==> t[k] != 'e' && t[k] != 'E'
    ensures r.None? <==> forall k :: 0 <= k < |t| ==> t[k] != 'e' && t[k] != 'E'
  {
    if |t| == 0 then None
    else if t[0] == 'e' || t[0] == 'E' then Some(0)
    else
      match IndexOfExponent(t[1..])
      case None => None
      case Some(i) => Some(i + 1)
  }

  /** The exponent after `e`: an optional sign and at least one digit. */
  function ParseExponent(t: string): (r: Option<int>)
    ensures r.Some? ==> |SignedBody(t)| > 0 && AllDigits(SignedBody(t))
  {
    var digits := SignedBody(t);
    if |digits| > 0 && AllDigits(digits) then
      Some(if t[0] == '-' then -(DigitsValue(digits) as int) else DigitsValue(digits))
    else None
  }

  /** `x` times ten to the power `e`, exactly. */
  function Scale(x: real, e: int): real {
    if e >= 0 then x * Pow10(e) as real else x / Pow10(-e) as real
  }

  /**
   * An unsigned decimal literal as `Number` accepts it after trimming and
   * an optional sign: a significand, optionally followed by `e` or `E` and
   * a signed exponent.
   */
  function ParseUnsignedDecimal(t: string): (r: Option<real>)
    ensures r.Some? ==> r.value >= 0.0
  {
    match IndexOfExponent(t)
    case None => ParseSignificand(t)
    case Some(i) =>
      match (ParseSignificand(t[..i]), ParseExponent(t[i + 1..]))
      case (Some(m), Some(e)) =>
        assert Pow10(if e >= 0 then e else -e) as real > 0.0;
        Some(Scale(m, e))
      case _ => None
  }

  /** The value of a character as a digit of base up to 36; -1 for anything else. */
  function RadixDigit(c: char): int {
    if '0' <= c <= '9' then c as int - '0' as int
    else if 'a' <= c <= 'z' then c as int - 'a' as int + 10
    else if 'A' <= c <= 'Z' then c as int - 'A' as int + 10
    else -1
  }

  predicate AllRadixDigits(s: string, base: nat) {
    forall i :: 0 <= i < |s| ==> 0 <= RadixDigit(s[i]) < base
  }

  /** The value of the digits `s` in base `base`. */
  function RadixValue(s: string, base: nat): nat
    requires AllRadixDigits(s, base)
  {
    if |s| == 0 then 0 else RadixValue(s[..|s| - 1], base) * base + RadixDigit(s[|s| - 1])
  }

  /** The base a `0x`, `0o` or `0b` prefix (either case) announces. */
  function RadixOf(c: char): nat {
    if c == 'x' || c == 'X' then 16
    else if c == 'o' || c == 'O' then 8
    else if c == 'b' || c == 'B' then 2
    else 0
  }

  /** A `0x`, `0o` or `0b` literal with at least one digit; it takes no sign. */
  function ParseNonDecimal(t: string): (r: Option<nat>)
    ensures r.Some? ==> |t| > 2 && t[0] == '0' && RadixOf(t[1]) > 0 && AllRadixDigits(t[2..], RadixOf(t[1]))
  {
    if |t| > 2 && t[0] == '0' && RadixOf(t[1]) > 0 && AllRadixDigits(t[2..], RadixOf(t[1]))
    then Some(RadixValue(t[2..], RadixOf(t[1])))
    else None
  }

  /**
   * `Number(s)` for a string: blank is 0, `Infinity` with an optional sign,
   * a signed decimal literal with an optional exponent, or an unsigned
   * `0x`/`0o`/`0b` literal; anything else is NaN.
   */
  function StringToNumber(s: string): (r: Number)
    ensures IsBlank(s) ==> r == Finite(0.0)
  {
    NumberOfTrimmed(Trim(s))
  }

  /** `Number` on text already stripped of surrounding whitespace. */
  function NumberOfTrimmed(t: string): Number {
    if t == "" then Finite(0.0)
    else if t == "Infinity" || t == "+Infinity" then PosInf
    else if t == "-Infinity" then NegInf
    else
      var neg := t[0] == '-';
      var body := if t[0] == '-' || t[0] == '+' then t[1..] else t;
      match ParseUnsignedDecimal(body)
      case Some(x) => Finite(if neg then -x else x)
      case None =>
        match ParseNonDecimal(t)
        case Some(n) => Finite(n as real)
        case None => NaN
  }

  /** Text without surrounding whitespace is read as it stands. */
  lemma NumberOfUntrimmable(t: string)
    requires t == [] || (!IsSpace(t[0]) && !IsSpace(t[|t| - 1]))
    ensures StringToNumber(t) == NumberOfTrimmed(t)
  {
    TrimOfTrimmed(t);
  }

  /**
   * `Number(t)` for digits `d`, an `e` and digits `k` is `d` times ten to
   * the `k`.
   */
  lemma ExponentOfDigits(t: string, i: nat)
    requires i < |t| - 1 && t[i] == 'e' && AllDigits(t[..i]) && AllDigits(t[i + 1..]) && i > 0
    ensures StringToNumber(t) == Finite(Scale(DigitsValue(t[..i]) as real, DigitsValue(t[i + 1..])))
  {
    assert IsDigit(t[..i][0]) && IsDigit(t[i + 1..][|t| - i - 2]);
    NumberOfUntrimmable(t);
    ExponentParts(t, i);
  }

  /** The parts around the `e` of digits, `e`, digits read as significand and exponent. */
  lemma ExponentParts(t: string, i: nat)
    requires i < |t| - 1 && t[i] == 'e' && AllDigits(t[..i]) && AllDigits(t[i + 1..]) && i > 0
    ensures NumberOfTrimmed(t) == Finite(Scale(DigitsValue(t[..i]) as real, DigitsValue(t[i + 1..])))
  {
    var d, k := t[..i], t[i + 1..];
    assert IsDigit(d[0]) && IsDigit(k[0]);
    assert t[0] == d[0];
    ExponentIndexAt(t, i);
    SignificandOfDigits(d);
    assert SignedBody(k) == k;
  }

  /** Digits without a point are a significand worth their value. */
  lemma SignificandOfDigits(d: string)
    requires |d| > 0 && AllDigits(d)
    ensures ParseSignificand(d) == Some(DigitsValue(d) as real)
  {
    assert '.' !in d by {
      assert forall i :: 0 <= i < |d| ==> IsDigit(d[i]);
    }
  }

  /** An `e` after nothing but digits is the first exponent mark. */
  lemma ExponentIndexAt(t: string, i: nat)
    requires i < |t| && t[i] == 'e' && AllDigits(t[..i])
    ensures IndexOfExponent(t) == Some(i)
  {
    forall k | 0 <= k < i
      ensures t[k] != 'e' && t[k] != 'E'
    {
      assert IsDigit(t[..i][k]);
    }
  }

  /**
   * `Number(t)` for `0`, a prefix letter `x`, `o` or `b` in either case and
   * digits of that base is their value.
   */
  lemma NonDecimalOfDigits(t: string)
    requires |t| > 2 && t[0] == '0' && RadixOf(t[1]) > 0 && AllRadixDigits(t[2..], RadixOf(t[1]))
    ensures StringToNumber(t) == Finite(RadixValue(t[2..], RadixOf(t[1])) as real)
  {
    assert 0 <= RadixDigit(t[2..][|t| - 3]);
    NumberOfUntrimmable(t);
    NonDecimalIsNotDecimal(t);
  }

  /** A text starting `0` and a radix letter is no decimal literal. */
  lemma NonDecimalIsNotDecimal(t: string)
    requires |t| >= 2 && t[0] == '0' && RadixOf(t[1]) > 0
    ensures ParseUnsignedDecimal(t).None?
  {
    if IndexOfExponent(t).None? {
      SecondNotSignificand(t);
    } else {
      var i := IndexOfExponent(t).value;
      assert i >= 2 by {
        assert t[1] != 'e' && t[1] != 'E';
      }
      assert t[..i][1] == t[1];
      SecondNotSignificand(t[..i]);
    }
  }

  /** A significand has no radix letter at index 1. */
  lemma SecondNotSignificand(m: string)
    requires |m| >= 2 && RadixOf(m[1]) > 0
    ensures ParseSignificand(m).None?
  {
    assert !IsDigit(m[1]) && m[1] != '.';
    if IndexOfChar(m, '.').Some? {
      var j := IndexOfChar(m, '.').value;
      if j >= 2 {
        assert m[..j][1] == m[1];
      } else if j == 0 {
        assert m[j + 1..][0] == m[1];
      }
    }
  }

  /** A sign before a radix prefix makes the text NaN. */
  lemma SignedHexIsNaN(t: string)
    requires t == "-0x10"
    ensures StringToNumber(t) == NaN
  {
    assert |t[1..]| == 4 && t[1..][0] == '0' && t[1..][1] == 'x';
    NonDecimalIsNotDecimal(t[1..]);
    NumberOfUntrimmable(t);
  }

  /** An exponent mark without digits makes the text NaN. */
  lemma BareExponentIsNaN(t: string)
    requires t == "1e"
    ensures StringToNumber(t) == NaN
  {
    NumberOfUntrimmable(t);
    assert IndexOfExponent(t) == Some(1);
  }

  /** `Number("1e3")` is 1000. */
  lemma ExponentExample(t: string)
    requires t == "1e3"
    ensures StringToNumber(t) == Finite(1000.0)
  {
    assert t[1] == 'e' && t[..1] == "1" && t[2..] == "3";
    assert DigitsValue("1") == 1 && DigitsValue("3") == 3;
    assert Scale(1.0, 3) == 1000.0;
    ExponentOfDigits(t, 1);
  }

  /** `Number("0x10")` is 16. */
  lemma HexExample(t: string)
    requires t == "0x10"
    ensures StringToNumber(t) == Finite(16.0)
  {
    assert t[1] == 'x' && t[2..] == "10";
    HexTen();
    NonDecimalOfDigits(t);
  }

  /** The hexadecimal digits `10` are worth 16. */
  lemma HexTen()
    ensures RadixValue("10", 16) == 16
  {
    assert "10"[..1] == "1";
    assert RadixValue("1", 16) == 1;
  }

  /** `Number(String(n))` gives back `n` for every natural number. */
  lemma NumberOfNatString(n: nat)
    ensures StringToNumber(NatToString(n)) == Finite(n as real)
  {
    var s := NatToString(n);
    assert AllDigits(s);
    NumberOfDigits(s);
    NatToStringRoundTrip(n);
  }

  /** `Number` of a run of decimal digits is their value. */
  lemma NumberOfDigits(s: string)
    requires |s| > 0 && AllDigits(s)
    ensures StringToNumber(s) == Finite(DigitsValue(s) as real)
  {
    DigitsTrimmed(s);
    DigitsDecimal(s);
    NumberOfUnsigned(s, DigitsValue(s) as real);
  }

  /** Digits have no white space to trim and no sign, and do not spell `Infinity`. */
  lemma DigitsTrimmed(s: string)
    requires |s| > 0 && AllDigits(s)
    ensures Trim(s) == s && s[0] != '-' && s[0] != '+' && s != "Infinity"
  {
    assert IsDigit(s[0]) && IsDigit(s[|s| - 1]);
    TrimOfTrimmed(s);
  }

  /** Digits without a point read as their value. */
  lemma DigitsDecimal(s: string)
    requires |s| > 0 && AllDigits(s)
    ensures ParseUnsignedDecimal(s) == Some(DigitsValue(s) as real)
  {
    assert '.' !in s by {
      assert forall i :: 0 <= i < |s| ==> IsDigit(s[i]);
    }
  }

  /** A trimmed literal without sign is read by `ParseUnsignedDecimal`. */
  lemma NumberOfUnsigned(t: string, v: real)
    requires Trim(t) == t && t != "" && t[0] != '-' && t[0] != '+' && t != "Infinity"
    requires ParseUnsignedDecimal(t) == Some(v)
    ensures StringToNumber(t) == Finite(v)
  {
  }

  /** The longest prefix of `s` made of decimal digits. */
  function LeadingDigits(s: string): (r: string)
    ensures |r| <= |s| && r == s[..|r|] && AllDigits(r)
    ensures |r| < |s| ==> !IsDigit(s[|r|])
  {
    if |s| > 0 && IsDigit(s[0]) then [s[0]] + LeadingDigits(s[1..]) else ""
  }

  /**
   * `parseInt(s)` (radix 10): leading white space is skipped, then an
   * optional sign and the longest run of digits are read; `None` stands
   * for NaN.
   */
  function ParseInt(s: string): (r: Option<int>)
    decreases |s|
  {
    if |s| > 0 && IsSpace(s[0]) then ParseInt(s[1..]) else ParseSigned(s)
  }

  /** `parseInt` after the white space: the sign, then the digits up to the first non-digit. */
  function ParseSigned(t: string): (r: Option<int>)
    ensures r.None? <==> LeadingDigits(SignedBody(t)) == ""
  {
    var digits := LeadingDigits(SignedBody(t));
    if digits == "" then None
    else if |t| > 0 && t[0] == '-' then Some(-(DigitsValue(digits) as int))
    else Some(DigitsValue(digits))
  }

  /** `parseInt` is NaN exactly when no digit follows the white space and the sign. */
  lemma {:induction false} ParseIntSkipsSpace(s: string)
    ensures ParseInt(s) == ParseSigned(TrimStart(s))
    ensures ParseInt(s).None? <==> LeadingDigits(SignedBody(TrimStart(s))) == ""
    decreases |s|
  {
    if |s| > 0 && IsSpace(s[0]) {
      ParseIntSkipsSpace(s[1..]);
    }
  }

  /** What follows an optional leading sign. */
  function SignedBody(t: string): (r: string)
    ensures |t| > 0 && (t[0] == '-' || t[0] == '+') ==> r == t[1..]
    ensures !(|t| > 0 && (t[0] == '-' || t[0] == '+')) ==> r == t
  {
    if |t| > 0 && (t[0] == '-' || t[0] == '+') then t[1..] else t
  }

  /** `parseInt` reads back a rendered natural followed by any non-digit text. */
  lemma ParseIntOfDigits(n: nat, rest: string)
    requires rest == [] || !IsDigit(rest[0])
    ensures ParseInt(Pad2(n) + rest) == Some(n)
  {
    var s := Pad2(n) + rest;
    assert IsDigit(s[0]) by {
      assert s[0] == Pad2(n)[0];
    }
    assert AllDigits(Pad2(n));
    LeadingDigitsOf(Pad2(n), rest);
    Pad2RoundTrip(n);
    ParseIntOfDigitRun(s, Pad2(n), n);
  }

  /** Text opening with a digit parses as its leading run of digits. */
  lemma ParseIntOfDigitRun(s: string, d: string, v: nat)
    requires |s| > 0 && IsDigit(s[0]) && LeadingDigits(s) == d && DigitsValue(d) == v
    ensures ParseInt(s) == Some(v)
  {
    assert SignedBody(s) == s;
  }

  /** `parseInt` reads a zero-padded rendering back. */
  lemma ParseIntOfPad2(n: nat)
    ensures ParseInt(Pad2(n)) == Some(n as int)
  {
    ParseIntOfDigits(n, "");
    assert Pad2(n) + "" == Pad2(n);
  }

  lemma {:induction false} LeadingDigitsOf(d: string, rest: string)
    requires AllDigits(d)
    requires rest == [] || !IsDigit(rest[0])
    ensures LeadingDigits(d + rest) == d
    decreases |d|
  {
    if |d| > 0 {
      assert (d + rest)[1..] == d[1..] + rest;
      LeadingDigitsOf(d[1..], rest);
      assert d == [d[0]] + d[1..];
    } else {
      assert d + rest == rest;
    }
  }

  /** `Number(s)` reads a zero-padded two-digit rendering back as the number. */
  lemma NumberOfPad2(n: nat)
    ensures StringToNumber(Pad2(n)) == Finite(n as real)
  {
    assert AllDigits(Pad2(n));
    NumberOfDigits(Pad2(n));
    Pad2RoundTrip(n);
  }

  /** `a + b` on numbers. */
  function Add(a: Number, b: Number): (r: Number)
    ensures a.Finite? && b.Finite? ==> r == Finite(a.v + b.v)
    ensures a.NaN? || b.NaN? ==> r.NaN?
  {
    match (a, b)
    case (Finite(x), Finite(y)) => Finite(x + y)
    case (NaN, _) => NaN
    case (_, NaN) => NaN
    case (PosInf, NegInf) => NaN
    case (NegInf, PosInf) => NaN
    case (PosInf, _) => PosInf
    case (_, PosInf) => PosInf
    case (NegInf, _) => NegInf
    case (_, NegInf) => NegInf
  }

  /** A number holding a natural value. */
  predicate IsNatNumber(n: Number) {
    n.Finite? && n.v >= 0.0 && n.v == n.v.Floor as real
  }

  /**
   * `String(n)`: exact for naturals, `NaN` and the infinities; other values
   * (negative, fractional) are rendered by `show`, since the model does not
   * fix JavaScript's shortest round-trip decimal form.
   */
  function NumberText(n: Number, show: JsValue -> string): (r: string)
    ensures IsNatNumber(n) ==> r == NatToString(n.v.Floor)
  {
    match n
    case NaN => "NaN"
    case PosInf => "Infinity"
    case NegInf => "-Infinity"
    case Finite(x) => if IsNatNumber(n) then NatToString(x.Floor) else show(Num(n))
  }

  /** `s.padStart(2, '0')`. */
  function PadStart2(s: string): (r: string)
    ensures |r| == if |s| >= 2 then |s| else 2
    ensures r[|r| - |s|..] == s
  {
    if |s| >= 2 then s else seq(2 - |s|, _ => '0') + s
  }

  /** Padding the rendering of a natural is `Pad2`. */
  lemma PadStart2OfNat(n: nat)
    ensures PadStart2(NatToString(n)) == Pad2(n)
  {
    if n < 10 {
      assert seq(1, _ => '0') == "0";
    }
  }

  /** `a > b` on numbers: false whenever either side is NaN. */
  predicate Greater(a: Number, b: Number) {
    match (a, b)
    case (NaN, _) => false
    case (_, NaN) => false
    case (PosInf, PosInf) => false
    case (PosInf, _) => true
    case (NegInf, _) => false
    case (Finite(_), PosInf) => false
    case (Finite(_), NegInf) => true
    case (Finite(x), Finite(y)) => x > y
  }

  /**
   * `Number(v)` for the values a database column or JSON body carries. An
   * array is first turned into its `join(',')` text: `[]` is `''` and so 0;
   * one element gives that element's text (`''` for `null` or `undefined`,
   * `'true'`/`'false'` for a boolean, `'[object Object]'` for an object);
   * two or more put a comma in the text, which never reads as a number.
   */
  function ToNumber(v: JsValue): (r: Number)
    ensures v.Num? ==> r == v.n
    ensures v.Null? ==> r == Finite(0.0)
    ensures v.Undefined? ==> r == NaN
    ensures v.Str? ==> r == StringToNumber(v.s)
    ensures v.Arr? && |v.items| == 0 ==> r == Finite(0.0)
    ensures v.Arr? && |v.items| >= 2 ==> r == NaN
    ensures v.Arr? && |v.items| == 1 && v.items[0].Num? ==> r == v.items[0].n
    ensures v.Arr? && |v.items| == 1 && v.items[0].Str? ==> r == StringToNumber(v.items[0].s)
    ensures v.Arr? && |v.items| == 1 && (v.items[0].Null? || v.items[0].Undefined?) ==> r == Finite(0.0)
    ensures v.Arr? && |v.items| == 1 && (v.items[0].Bool? || v.items[0].Obj?) ==> r == NaN
  {
    match v
    case Undefined => NaN
    case Null => Finite(0.0)
    case Bool(b) => Finite(if b then 1.0 else 0.0)
    case Num(n) => n
    case Str(s) => StringToNumber(s)
    case Arr(items) =>
      if |items| == 0 then Finite(0.0)
      else if |items| >= 2 then NaN
      else
        var item := items[0];
        if item.Undefined? || item.Null? then Finite(0.0)
        else if item.Bool? then NaN
        else ToNumber(item)
    case Obj(_) => NaN
  }

  /** Distinct naturals print differently. */
  lemma NatToStringInjective(m: nat, n: nat)
    requires NatToString(m) == NatToString(n)
    ensures m == n
  {
    NatToStringRoundTrip(m);
    NatToStringRoundTrip(n);
  }

  /** `{ ...v }`: an object's own fields, an array's elements keyed by index. */
  function Spread(v: JsValue): (r: map<string, JsValue>)
    ensures v.Obj? ==> r == v.fields
    ensures v.Arr? ==> |r.Keys| <= |v.items| && forall i :: 0 <= i < |v.items| ==> NatToString(i) in r && r[NatToString(i)] == v.items[i]
  {
    match v
    case Obj(fields) => fields
    case Arr(items) =>
      IndexMap(items)
    case _ => map[]
  }

  /** The elements of a sequence keyed by their decimal index. */
  function IndexMap(items: seq<JsValue>): (r: map<string, JsValue>)
    ensures |r.Keys| <= |items|
    ensures forall i :: 0 <= i < |items| ==> NatToString(i) in r && r[NatToString(i)] == items[i]
    decreases |items|
  {
    if items == [] then map[]
    else
      var n := |items| - 1;
      var r := IndexMap(items[..n])[NatToString(n) := items[n]];
      assert forall i :: 0 <= i < n ==> NatToString(i) != NatToString(n) by {
        forall i | 0 <= i < n
          ensures NatToString(i) != NatToString(n)
        {
          if NatToString(i) == NatToString(n) {
            NatToStringInjective(i, n);
          }
        }
      }
      r
  }
}
