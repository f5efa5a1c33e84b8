/** The JavaScript number conversions the engine relies on: template-literal
    formatting of integers, `parseInt` (leading decimal digits) and the
    implicit `Number(...)` coercion of `*` and `>`. */
module JsNumbers {
  import opened Json

  /** The result of JavaScript arithmetic on integers: a finite integer or NaN. */
  datatype JsNum = Fin(v: int) | NaN {
    function Plus(o: JsNum): (r: JsNum)
      ensures r.Fin? <==> Fin? && o.Fin?
    {
      if Fin? && o.Fin? then Fin(v + o.v) else NaN
    }

    function Negated(): (r: JsNum)
      ensures r.Fin? <==> Fin?
    {
      if Fin? then Fin(-v) else NaN
    }

    /** `x * 2`. */
    function Doubled(): (r: JsNum)
      ensures r.Fin? <==> Fin?
    {
      if Fin? then Fin(2 * v) else NaN
    }

    function Times(o: JsNum): (r: JsNum)
      ensures r.Fin? <==> Fin? && o.Fin?
    {
      if Fin? && o.Fin? then Fin(v * o.v) else NaN
    }
  }

  /** A JavaScript number as a Json value. */
  function NumJson(x: JsNum): (r: Json)
    ensures x.Fin? ==> r == JNum(x.v)
    ensures x.NaN? ==> r == JNaN
  {
    if x.Fin? then JNum(x.v) else JNaN
  }

  predicate IsDigit(c: char) { '0' <= c <= '9' }

  predicate AllDigits(s: string) { forall i :: 0 <= i < |s| ==> IsDigit(s[i]) }

  predicate IsSpace(c: char) { c == ' ' || c == '\t' || c == '\n' || c == '\r' }

  function DigitChar(d: nat): (c: char)
    requires d < 10
    ensures IsDigit(c)
  {
    ('0' as int + d) as char
  }

  /** The value of a decimal digit; other characters count as 0 and are never
      read as digits by the parsers below. */
  function DigitValue(c: char): (d: nat)
    ensures d < 10
    ensures IsDigit(c) ==> DigitChar(d) == c
  {
    if IsDigit(c) then (c as int - '0' as int) as nat else 0
  }

  // ---------------------------------------------------------------------
  // Formatting

  /** Decimal digits of a natural number, most significant first. */
  function NatToString(n: nat): string
    decreases n
  {
    if n < 10 then [DigitChar(n)] else NatToString(n / 10) + [DigitChar(n % 10)]
  }

  /** `${n}` for an integer `n`. */
  function IntToString(n: int): string {
    if n < 0 then "-" + NatToString(-n) else NatToString(n)
  }

  /** `${x}` for a JavaScript number. */
  function Show(x: JsNum): string {
    if x.Fin? then IntToString(x.v) else "NaN"
  }

  /** A formatted natural number is a non-empty run of decimal digits. */
  lemma {:induction false} NatToStringDigits(n: nat)
    ensures |NatToString(n)| > 0 && AllDigits(NatToString(n))
    decreases n
  {
    if n >= 10 {
      NatToStringDigits(n / 10);
    }
  }

  // ---------------------------------------------------------------------
  // Parsing, by position in the string

  /** The number of consecutive decimal digits of `s` from position `i`. */
  function DigitRun(s: string, i: nat): (k: nat)
    requires i <= |s|
    ensures i + k <= |s|
    decreases |s| - i
  {
    if i < |s| && IsDigit(s[i]) then 1 + DigitRun(s, i + 1) else 0
  }

  /** The number of consecutive blanks of `s` from position `i`. */
  function SpaceRun(s: string, i: nat): (k: nat)
    requires i <= |s|
    ensures i + k <= |s|
    decreases |s| - i
  {
    if i < |s| && IsSpace(s[i]) then 1 + SpaceRun(s, i + 1) else 0
  }

  /** The position just after the last non-blank character of `s[..j]`. */
  function TrimmedEnd(s: string, j: nat): (e: nat)
    requires j <= |s|
    ensures e <= j
    decreases j
  {
    if j > 0 && IsSpace(s[j - 1]) then TrimmedEnd(s, j - 1) else j
  }

  /** The value of the decimal digits `s[i..j]`. */
  function DigitsValue(s: string, i: nat, j: nat): nat
    requires i <= j <= |s|
    decreases j - i
  {
    if j == i then 0 else DigitsValue(s, i, j - 1) * 10 + DigitValue(s[j - 1])
  }

  /** The value of the digits at position `i`, NaN when there are none. */
  function DigitsAt(s: string, i: nat): (r: JsNum)
    requires i <= |s|
    ensures r.Fin? <==> i < |s| && IsDigit(s[i])
  {
    var k := DigitRun(s, i);
    if k == 0 then NaN else Fin(DigitsValue(s, i, i + k))
  }

  /** `parseInt(s)` without a radix: skip leading blanks, read an optional sign
      and then as many decimal digits as there are; NaN when there are none. */
  function ParseInt(s: string): (r: JsNum)
    ensures r.Fin? ==> exists j :: 0 <= j < |s| && IsDigit(s[j])
  {
    var i := SpaceRun(s, 0);
    if i < |s| && s[i] == '-' then DigitsAt(s, i + 1).Negated()
    else if i < |s| && s[i] == '+' then DigitsAt(s, i + 1)
    else DigitsAt(s, i)
  }

  /** `parseInt` yields a number exactly when a digit follows the leading
      blanks and the optional sign; the number has the sign that was read. */
  lemma ParseIntFinite(s: string)
    ensures var i := SpaceRun(s, 0);
            var j := if i < |s| && (s[i] == '-' || s[i] == '+') then i + 1 else i;
            ParseInt(s).Fin? <==> j < |s| && IsDigit(s[j])
    ensures var i := SpaceRun(s, 0);
            ParseInt(s).Fin? ==> (if i < |s| && s[i] == '-' then ParseInt(s).v <= 0 else ParseInt(s).v >= 0)
  {
  }

  /** `parseInt(v)` for any value: JavaScript first turns `v` into a string,
      and an integer's decimal string reads back as the integer
      (`ParseIntOfNumber`). */
  function ParseIntOf(v: Option<Json>): (r: JsNum)
    ensures v.Some? && v.value.JNum? ==> r == Fin(v.value.n)
    ensures v.None? ==> r == NaN
  {
    match v
    case None => NaN
    case Some(JNum(n)) => Fin(n)
    case Some(JStr(s)) => ParseInt(s)
    case Some(_) => NaN
  }

  /** `Number(s)` for a string written as an optionally signed decimal integer
      between blanks; a blank string is 0 and anything else is NaN. */
  function StringToNumber(s: string): (r: JsNum)
    ensures TrimmedEnd(s, |s|) <= SpaceRun(s, 0) ==> r == Fin(0)
    ensures r.Fin? && SpaceRun(s, 0) < TrimmedEnd(s, |s|) ==> r == ParseInt(s)
  {
    var i := SpaceRun(s, 0);
    var e := TrimmedEnd(s, |s|);
    if e <= i then Fin(0)
    else
      var start := if s[i] == '-' || s[i] == '+' then i + 1 else i;
      var k := DigitRun(s, start);
      if k > 0 && start + k == e then
        (if s[i] == '-' then Fin(-(DigitsValue(s, start, e) as int)) else Fin(DigitsValue(s, start, e)))
      else NaN
  }

  /** The implicit `Number(v)` coercion applied by `*` and `>`. */
  function ToNumber(v: Json): (r: JsNum)
    ensures v.JNum? ==> r == Fin(v.n)
    ensures v.JNull? ==> r == Fin(0)
  {
    match v
    case JNull => Fin(0)
    case JBool(b) => if b then Fin(1) else Fin(0)
    case JNum(n) => Fin(n)
    case JNaN => NaN
    case JStr(s) => StringToNumber(s)
    case _ => NaN
  }

  /** JavaScript `x > 0`; a comparison with NaN is false. */
  predicate Positive(x: JsNum) { x.Fin? && x.v > 0 }

  // ---------------------------------------------------------------------
  // Round trips

  /** `s` holds `p` from position `o` on. */
  predicate Placed(s: string, o: nat, p: string) {
    o + |p| <= |s| && forall k :: 0 <= k < |p| ==> s[o + k] == p[k]
  }

  /** `s` holds the digits `p` from position `o` on, followed by a non-digit or
      by the end of `s`. */
  predicate DigitsPlaced(s: string, o: nat, p: string) {
    Placed(s, o, p) && AllDigits(p) && (o + |p| == |s| || !IsDigit(s[o + |p|]))
  }

  /** The digit run at a placed digit string is exactly that string. */
  lemma {:induction false} DigitRunPlaced(s: string, o: nat, p: string, i: nat)
    requires DigitsPlaced(s, o, p) && i <= |p|
    ensures DigitRun(s, o + i) == |p| - i
    decreases |p| - i
  {
    if i < |p| {
      assert s[o + i] == p[i];
      DigitRunPlaced(s, o, p, i + 1);
    }
  }

  /** The value of a placed digit string does not depend on what surrounds it. */
  lemma {:induction false} DigitsValuePlaced(s: string, o: nat, p: string, j: nat)
    requires Placed(s, o, p) && j <= |p|
    ensures DigitsValue(s, o, o + j) == DigitsValue(p, 0, j)
    decreases j
  {
    if j > 0 {
      assert s[o + j - 1] == p[j - 1];
      DigitsValuePlaced(s, o, p, j - 1);
    }
  }

  /** Reading back the digits of a natural number gives the number. */
  lemma {:induction false} DigitsRoundTrip(n: nat)
    ensures DigitsValue(NatToString(n), 0, |NatToString(n)|) == n
    decreases n
  {
    if n >= 10 {
      var q := NatToString(n / 10);
      var s := NatToString(n);
      assert s == q + [DigitChar(n % 10)];
      assert Placed(s, 0, q);
      DigitsValuePlaced(s, 0, q, |q|);
      DigitsRoundTrip(n / 10);
    }
  }

  /** The digits of a natural number placed at position `o` read back as it. */
  lemma DigitsAtPlaced(s: string, o: nat, m: nat)
    requires DigitsPlaced(s, o, NatToString(m))
    ensures DigitsAt(s, o) == Fin(m)
  {
    var p := NatToString(m);
    NatToStringDigits(m);
    DigitRunPlaced(s, o, p, 0);
    DigitsValuePlaced(s, o, p, |p|);
    DigitsRoundTrip(m);
  }

  /** `parseInt` reads back a formatted integer, whatever non-digit suffix
      (such as a unit `m` or `Mi`) follows it. */
  lemma ParseIntRoundTrip(n: int, suffix: string)
    requires suffix == [] || !IsDigit(suffix[0])
    ensures ParseInt(IntToString(n) + suffix) == Fin(n)
  {
    if n < 0 {
      ParseNegative(-n, suffix);
    } else {
      ParseNatural(n, suffix);
    }
  }

  /** `parseInt` reads back a formatted natural number. */
  lemma ParseNatural(n: nat, suffix: string)
    requires suffix == [] || !IsDigit(suffix[0])
    ensures ParseInt(NatToString(n) + suffix) == Fin(n)
  {
    var s := NatToString(n) + suffix;
    var p := NatToString(n);
    NatToStringDigits(n);
    assert DigitsPlaced(s, 0, p);
    DigitsAtPlaced(s, 0, n);
    assert SpaceRun(s, 0) == 0;
  }

  /** `parseInt` reads back a formatted negative number. */
  lemma ParseNegative(m: nat, suffix: string)
    requires m > 0
    requires suffix == [] || !IsDigit(suffix[0])
    ensures ParseInt("-" + NatToString(m) + suffix) == Fin(-(m as int))
  {
    var p := NatToString(m);
    var s := "-" + p + suffix;
    NatToStringDigits(m);
    assert DigitsPlaced(s, 1, p);
    DigitsAtPlaced(s, 1, m);
    assert SpaceRun(s, 0) == 0;
  }

  /** `parseInt(n)` of a number is `parseInt` of its decimal string. */
  lemma ParseIntOfNumber(n: int)
    ensures ParseIntOf(Some(JNum(n))) == ParseInt(IntToString(n))
  {
    ParseIntRoundTrip(n, "");
    assert IntToString(n) + "" == IntToString(n);
  }

  /** A finite number's template string, followed by a suffix that does not
      start with a digit, reads back as the number. */
  lemma ShowRoundTrip(x: JsNum, suffix: string)
    ensures x.Fin? && (suffix == [] || !IsDigit(suffix[0])) ==> ParseInt(Show(x) + suffix) == x
  {
    if x.Fin? && (suffix == [] || !IsDigit(suffix[0])) {
      ParseIntRoundTrip(x.v, suffix);
    }
  }

  /** `parseInt` of a formatted integer with a unit suffix, as a value. */
  lemma ParseIntOfFormatted(n: int, suffix: string)
    requires suffix == [] || !IsDigit(suffix[0])
    ensures ParseIntOf(Some(JStr(IntToString(n) + suffix))) == Fin(n)
  {
    ParseIntRoundTrip(n, suffix);
  }

  /** `Number` reads back a formatted integer. */
  lemma StringToNumberRoundTrip(n: int)
    ensures StringToNumber(IntToString(n)) == Fin(n)
  {
    if n < 0 {
      NumberOfNegative(-n);
    } else {
      NumberOfNatural(n);
    }
  }

  /** `Number` reads back a formatted natural number. */
  lemma NumberOfNatural(n: nat)
    ensures StringToNumber(NatToString(n)) == Fin(n)
  {
    var s := NatToString(n);
    NatToStringDigits(n);
    assert DigitsPlaced(s, 0, s);
    DigitRunPlaced(s, 0, s, 0);
    DigitsValuePlaced(s, 0, s, |s|);
    DigitsRoundTrip(n);
    assert SpaceRun(s, 0) == 0;
    assert TrimmedEnd(s, |s|) == |s|;
  }

  /** `Number` reads back a formatted negative number. */
  lemma NumberOfNegative(m: nat)
    requires m > 0
    ensures StringToNumber("-" + NatToString(m)) == Fin(-(m as int))
  {
    var p := NatToString(m);
    var s := "-" + p;
    NatToStringDigits(m);
    assert DigitsPlaced(s, 1, p);
    DigitRunPlaced(s, 1, p, 0);
    DigitsValuePlaced(s, 1, p, |p|);
    DigitsRoundTrip(m);
    assert SpaceRun(s, 0) == 0;
    assert TrimmedEnd(s, |s|) == |s|;
  }
}
