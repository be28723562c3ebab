/** The few pieces of JavaScript string and number semantics the editor relies on:
    decimal rendering of counters, `parseFloat`, `parseInt`, the `parseFloat(v) || v`
    idiom of the property panel, `Number(v)` and `toFixed` as Fabric.js applies them when it
    writes an object out, and `+ 20` on a property value. */
module JsText {

  datatype Option<T> = None | Some(value: T)

  /** A property value as JavaScript stores it after `obj.set(prop, v)`: a number or a string;
      `NaN` is the number that text which is no number turns into. */
  datatype PropValue = Num(x: real) | Str(s: string) | NaN

  predicate IsDigit(c: char) { '0' <= c <= '9' }

  predicate AllDigits(s: string) { forall i :: 0 <= i < |s| ==> IsDigit(s[i]) }

  /** The ASCII white space `parseFloat`, `parseInt` and `Number` skip: space, tab, line feed,
      vertical tab, form feed and carriage return. */
  predicate IsSpace(c: char)
  {
    c == ' ' || c == '\t' || c == '\n' || c == '\U{0B}' || c == '\U{0C}' || c == '\r'
  }

  /** Text made of white space only (the empty text included). */
  predicate Blank(s: string) { forall i :: 0 <= i < |s| ==> IsSpace(s[i]) }

  function DigitChar(d: nat): (c: char)
    requires d < 10
    ensures IsDigit(c)
  {
    (48 + d) as char
  }

  function DigitValue(c: char): (d: nat)
    requires IsDigit(c)
    ensures d < 10
  {
    c as int - 48
  }

  lemma DigitRoundTrip(d: nat)
    requires d < 10
    ensures DigitValue(DigitChar(d)) == d
  {
  }

  /** Decimal rendering of a natural number, as template literals and `'_' + n` produce it. */
  function Dec(n: nat): (s: string)
    ensures |s| >= 1 && AllDigits(s)
    decreases n
  {
    if n < 10 then [DigitChar(n)] else Dec(n / 10) + [DigitChar(n % 10)]
  }

  /** The value of a string of decimal digits (the empty string is 0). */
  function ParseNat(s: string): nat
    requires AllDigits(s)
  {
    if s == [] then 0 else 10 * ParseNat(s[..|s| - 1]) + DigitValue(s[|s| - 1])
  }

  lemma {:induction false} ParseDec(n: nat)
    ensures ParseNat(Dec(n)) == n
    decreases n
  {
    var s := Dec(n);
    if n >= 10 {
      ParseDec(n / 10);
      assert s[..|s| - 1] == Dec(n / 10);
      DigitRoundTrip(n % 10);
    } else {
      DigitRoundTrip(n);
    }
  }

  /** Different numbers never render to the same text. */
  lemma DecInjective(m: nat, n: nat)
    requires Dec(m) == Dec(n)
    ensures m == n
  {
    ParseDec(m);
    ParseDec(n);
  }

  /** Length of the longest prefix of `s` made of digits. */
  function LeadingDigits(s: string): (k: nat)
    ensures k <= |s| && AllDigits(s[..k])
    ensures k < |s| ==> !IsDigit(s[k])
  {
    if s == [] || !IsDigit(s[0]) then 0
    else
      var k := 1 + LeadingDigits(s[1..]);
      assert forall i :: 1 <= i < k ==> s[..k][i] == s[1..][..k - 1][i - 1];
      k
  }

  /** Length of the longest prefix of `s` made of white space. */
  function LeadingSpaces(s: string): (k: nat)
    ensures k <= |s| && forall i :: 0 <= i < k ==> IsSpace(s[i])
    ensures k < |s| ==> !IsSpace(s[k])
  {
    if s == [] || !IsSpace(s[0]) then 0 else 1 + LeadingSpaces(s[1..])
  }

  /** Length of the longest suffix of `s` made of white space. */
  function TrailingSpaces(s: string): (k: nat)
    ensures k <= |s| && forall i :: |s| - k <= i < |s| ==> IsSpace(s[i])
    ensures k < |s| ==> !IsSpace(s[|s| - 1 - k])
  {
    if s == [] || !IsSpace(s[|s| - 1]) then 0 else 1 + TrailingSpaces(s[..|s| - 1])
  }

  /** `s.trim()` for the white space above: nothing is left exactly when the text is blank. */
  function Trimmed(s: string): (t: string)
    ensures t == [] <==> Blank(s)
    ensures t != [] ==> !IsSpace(t[0]) && !IsSpace(t[|t| - 1])
  {
    var lead := LeadingSpaces(s);
    var u := s[lead..];
    var t := u[..|u| - TrailingSpaces(u)];
    assert u != [] ==> !IsSpace(u[0]);
    assert t == [] <==> u == [];
    t
  }

  lemma {:induction false} LeadingDigitsOf(d: string, rest: string)
    requires AllDigits(d)
    requires rest == [] || !IsDigit(rest[0])
    ensures LeadingDigits(d + rest) == |d|
    decreases |d|
  {
    if d != [] {
      assert (d + rest)[1..] == d[1..] + rest;
      LeadingDigitsOf(d[1..], rest);
    } else {
      assert d + rest == rest;
    }
  }

  function Pow10(k: nat): (p: nat)
    ensures p >= 1
  {
    if k == 0 then 1 else 10 * Pow10(k - 1)
  }

  /** Skips leading white space and one optional sign; says whether the sign was '-'. */
  function Unsigned(s: string): (bool, string)
  {
    var t := s[LeadingSpaces(s)..];
    if |t| > 0 && (t[0] == '-' || t[0] == '+') then (t[0] == '-', t[1..]) else (false, t)
  }

  /** A string starts with a digit exactly when its leading run of digits is not empty; the
      same after its first character. */
  lemma LeadingDigitsStart(u: string)
    ensures LeadingDigits(u) > 0 <==> |u| > 0 && IsDigit(u[0])
    ensures |u| > 1 ==> (LeadingDigits(u[1..]) > 0 <==> IsDigit(u[1]))
  {
    if |u| > 1 {
      assert u[1..][0] == u[1];
    }
  }

  /** The decimal fraction `digits / 10^f`, which is never negative. */
  function Fraction(digits: nat, p: nat): (r: real)
    requires p >= 1
    ensures r >= 0.0
  {
    digits as real / p as real
  }

  /** JavaScript `parseFloat`, restricted to decimal notation: the longest prefix of the form
      [sign] digits [. digits] after leading white space; `None` stands for NaN. There is a
      number exactly when a digit, or a point and then a digit, follows the sign, and its sign
      is the one written. */
  function ParseFloat(s: string): (r: Option<real>)
    ensures var u := Unsigned(s).1;
      r.Some? <==> (|u| > 0 && IsDigit(u[0])) || (|u| > 1 && u[0] == '.' && IsDigit(u[1]))
    ensures r.Some? && !Unsigned(s).0 ==> r.value >= 0.0
    ensures r.Some? && Unsigned(s).0 ==> r.value <= 0.0
  {
    var (negative, u) := Unsigned(s);
    var i := LeadingDigits(u);
    var f := if i < |u| && u[i] == '.' then LeadingDigits(u[i + 1..]) else 0;
    LeadingDigitsStart(u);
    if i + f == 0 then None
    else
      var whole := ParseNat(u[..i]) as real;
      var fraction := if f == 0 then 0.0 else Fraction(ParseNat(u[i + 1..][..f]), Pow10(f));
      Some(if negative then -(whole + fraction) else whole + fraction)
  }

  /** JavaScript `parseInt` as the page calls it, without a radix: the longest prefix [sign]
      digits after white space. Without a radix a `0x` prefix would select base 16; the number
      input that feeds it never produces one. There is a number exactly when a digit follows
      the sign, and then `parseFloat` finds one too. */
  function ParseInt(s: string): (r: Option<int>)
    ensures var u := Unsigned(s).1; r.Some? <==> |u| > 0 && IsDigit(u[0])
    ensures r.Some? ==> ParseFloat(s).Some?
    ensures r.Some? && !Unsigned(s).0 ==> r.value >= 0
    ensures r.Some? && Unsigned(s).0 ==> r.value <= 0
  {
    var (negative, u) := Unsigned(s);
    var i := LeadingDigits(u);
    if i == 0 then None
    else Some(if negative then -(ParseNat(u[..i]) as int) else ParseNat(u[..i]) as int)
  }

  /** JavaScript `Number(s)` on text, restricted to decimal notation: blank text is 0; otherwise
      the text without its surrounding white space must be a whole [sign] digits [. digits]
      with a digit somewhere, and then the value is the one `parseFloat` reads; anything else
      is NaN (`None`). */
  function TextToNumber(s: string): (r: Option<real>)
    ensures Blank(s) ==> r == Some(0.0)
    ensures !Blank(s) ==> r.None? || r == ParseFloat(s)
  {
    var t := Trimmed(s);
    if t == [] then Some(0.0)
    else
      var (negative, u) := Unsigned(t);
      var i := LeadingDigits(u);
      var used := if i < |u| && u[i] == '.' then i + 1 + LeadingDigits(u[i + 1..]) else i;
      if used == |u| then ParseFloat(s) else None
  }

  /** A rendered number followed by text that cannot continue a number reads back as that number,
      as `parseFloat("12px")` gives 12. */
  lemma ParseFloatDec(n: nat, rest: string)
    requires rest == [] || (!IsDigit(rest[0]) && rest[0] != '.')
    ensures ParseFloat(Dec(n) + rest) == Some(n as real)
  {
    var s := Dec(n) + rest;
    assert !IsSpace(s[0]) && s[0] != '-' && s[0] != '+';
    assert LeadingSpaces(s) == 0;
    assert Unsigned(s) == (false, s);
    LeadingDigitsOf(Dec(n), rest);
    assert s[..|Dec(n)|] == Dec(n);
    ParseDec(n);
  }

  /** The same for `parseInt`: `parseInt("24")` is 24. */
  lemma ParseIntDec(n: nat, rest: string)
    requires rest == [] || !IsDigit(rest[0])
    ensures ParseInt(Dec(n) + rest) == Some(n as int)
  {
    var s := Dec(n) + rest;
    assert !IsSpace(s[0]) && s[0] != '-' && s[0] != '+';
    assert LeadingSpaces(s) == 0;
    assert Unsigned(s) == (false, s);
    LeadingDigitsOf(Dec(n), rest);
    assert s[..|Dec(n)|] == Dec(n);
    ParseDec(n);
  }

  /** Text with no digit at all is NaN for `parseFloat`. */
  lemma ParseFloatNoDigits(s: string)
    requires forall i :: 0 <= i < |s| ==> !IsDigit(s[i])
    ensures ParseFloat(s) == None
  {
    var (negative, u) := Unsigned(s);
    assert forall i :: 0 <= i < |u| ==> !IsDigit(u[i]);
    var i := LeadingDigits(u);
    assert i == 0;
    if 0 < |u| && u[0] == '.' {
      assert u[1..] == [] || !IsDigit(u[1..][0]);
    }
  }

  /** `parseFloat(v) || v`: the parsed number when it is a number other than 0, otherwise the
      raw text (NaN, 0 and -0 are all falsy). */
  function NumberOrText(v: string): (r: PropValue)
    ensures r.Num? <==> (ParseFloat(v).Some? && ParseFloat(v).value != 0.0)
    ensures r.Num? ==> r.x == ParseFloat(v).value
    ensures r.Str? ==> r.s == v
  {
    match ParseFloat(v)
    case Some(x) => if x != 0.0 then Num(x) else Str(v)
    case None => Str(v)
  }

  /** A positive whole number typed into a field is stored as that number. */
  lemma NumberOrTextPositive(n: nat)
    requires n > 0
    ensures NumberOrText(Dec(n)) == Num(n as real)
  {
    ParseFloatDec(n, "");
    assert Dec(n) + "" == Dec(n);
  }

  /** Typing 0 stores the text "0", not the number 0. */
  lemma NumberOrTextZero()
    ensures NumberOrText("0") == Str("0")
  {
    ParseFloatDec(0, "");
    assert Dec(0) + "" == "0";
  }

  /** `parseInt(v) || fallback`. */
  function IntOr(v: string, fallback: int): (r: int)
    ensures ParseInt(v).Some? && ParseInt(v).value != 0 ==> r == ParseInt(v).value
    ensures ParseInt(v) == None || ParseInt(v) == Some(0) ==> r == fallback
  {
    match ParseInt(v)
    case Some(k) => if k != 0 then k else fallback
    case None => fallback
  }

  /** `v || fallback` on a string: the empty string is falsy. */
  function TextOr(v: string, fallback: string): (r: string)
    ensures v != [] ==> r == v
    ensures v == [] ==> r == fallback
  {
    if v == [] then fallback else v
  }

  /** JavaScript `v + 20`: a number moves by 20, text gets "20" appended, NaN stays NaN. */
  function PlusTwenty(v: PropValue): (r: PropValue)
    ensures r.Num? <==> v.Num?
    ensures v.Num? ==> r.x - v.x == 20.0
    ensures v.Str? ==> r.Str? && |r.s| == |v.s| + 2 && r.s[..|v.s|] == v.s && r.s[|v.s|..] == "20"
    ensures v.NaN? ==> r.NaN?
  {
    match v
    case Num(x) => Num(x + 20.0)
    case Str(s) => Str(s + "20")
    case NaN => NaN
  }

  /** A non-negative value to the nearest hundredth, a tie going up. */
  function RoundUp2(y: real): (r: real)
    requires y >= 0.0
    ensures r >= 0.0 && y - 0.005 < r <= y + 0.005
    ensures (r * 100.0).Floor as real == r * 100.0
  {
    ((y * 100.0 + 0.5).Floor as real) / 100.0
  }

  lemma RoundUp2Idempotent(y: real)
    requires y >= 0.0
    ensures RoundUp2(RoundUp2(y)) == RoundUp2(y)
  {
    var n := (y * 100.0 + 0.5).Floor;
    assert RoundUp2(y) * 100.0 == n as real;
    assert (n as real + 0.5).Floor == n;
  }

  /** `parseFloat(x.toFixed(2))` on an exact value: `toFixed` rounds the magnitude to the
      nearest hundredth, a tie going up, and then writes the sign, so a tie moves away from
      zero on either side. */
  function Round2(x: real): (r: real)
    ensures x >= 0.0 ==> x - 0.005 < r <= x + 0.005
    ensures x < 0.0 ==> x - 0.005 <= r < x + 0.005
    ensures (r * 100.0).Floor as real == r * 100.0
  {
    if x >= 0.0 then RoundUp2(x)
    else
      var m := RoundUp2(-x);
      assert (-m * 100.0).Floor == -((m * 100.0).Floor);
      -m
  }

  /** Rounding commutes with the sign. */
  lemma Round2Odd(x: real)
    ensures Round2(-x) == -Round2(x)
  {
    if x == 0.0 {
      assert -x == 0.0;
    }
  }

  /** A tie of hundredths moves away from zero: 0.125 gives 0.13 and -0.125 gives -0.13. */
  lemma Round2Ties()
    ensures Round2(0.125) == 0.13 && Round2(-0.125) == -0.13
  {
    assert (0.125 * 100.0 + 0.5).Floor == 13;
  }

  /** A value already rounded to hundredths stays as it is. */
  lemma Round2Idempotent(x: real)
    ensures Round2(Round2(x)) == Round2(x)
  {
    if x >= 0.0 {
      RoundUp2Idempotent(x);
    } else {
      var m := RoundUp2(-x);
      RoundUp2Idempotent(-x);
      if m == 0.0 {
        assert Round2(x) == 0.0;
      } else {
        assert Round2(Round2(x)) == -RoundUp2(m);
      }
    }
  }

  /** Fabric's `toFixed(v, 2)`, which its `toObject` applies to positions, angle, opacity and
      stroke width: `Number(v)` rounded to hundredths. The result is never text; a number moves
      by at most half a hundredth (a full half only at a negative tie), and text becomes NaN exactly when `Number` finds no number
      in it. */
  function Fixed2(v: PropValue): (r: PropValue)
    ensures !r.Str?
    ensures v.Num? ==> r.Num? && v.x - 0.005 <= r.x <= v.x + 0.005
    ensures v.Num? && v.x >= 0.0 ==> v.x - 0.005 < r.x
    ensures v.Num? && v.x < 0.0 ==> r.x < v.x + 0.005
    ensures r.Num? ==> (r.x * 100.0).Floor as real == r.x * 100.0
    ensures v.Str? ==> (r.NaN? <==> TextToNumber(v.s).None?)
    ensures v.NaN? ==> r.NaN?
  {
    match v
    case Num(x) => Num(Round2(x))
    case Str(s) =>
      var t := TextToNumber(s);
      if t.Some? then Num(Round2(t.value)) else NaN
    case NaN => NaN
  }

  /** Writing an object out twice changes nothing the first time did not. */
  lemma Fixed2Idempotent(v: PropValue)
    ensures Fixed2(Fixed2(v)) == Fixed2(v)
  {
    if v.Num? {
      Round2Idempotent(v.x);
    } else if v.Str? && TextToNumber(v.s).Some? {
      Round2Idempotent(TextToNumber(v.s).value);
    }
  }

  /** Blank text, as an emptied number field leaves it, is written out as 0. */
  lemma TextToNumberBlank()
    ensures TextToNumber("") == Some(0.0)
    ensures TextToNumber("0") == Some(0.0)
  {
    ParseFloatDec(0, "");
    assert Dec(0) + "" == "0";
    assert Trimmed("0") == "0";
  }

  /** Text that only begins with a number, which `parseFloat` accepts, is written out as NaN. */
  lemma TextToNumberPrefix()
    ensures ParseFloat("0px") == Some(0.0) && TextToNumber("0px") == None
  {
    ParseFloatDec(0, "px");
    assert Dec(0) + "px" == "0px";
    assert Trimmed("0px") == "0px";
  }
}
