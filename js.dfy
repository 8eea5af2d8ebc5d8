/** The JavaScript built-ins the portal's code relies on: nullish values, truthiness,
    String.prototype.trim, String.prototype.includes, Number() and the decimal form of an
    integer. Each is written out so that the components' contracts can talk about them. */
module Js {

  /** A value that may be `null`/`undefined` (None) or present (Some). */
  datatype Option<+T> = None | Some(value: T)

  /** The JavaScript values a form field or a JSON field can hold in this model. */
  datatype JsValue =
    | Undefined
    | Null
    | Bool(b: bool)
    /** A number; the model's numbers are unbounded integers (no fraction, NaN or -0). */
    | Num(n: int)
    | Str(s: string)

  /** `Boolean(v)`: JavaScript truthiness. */
  predicate Truthy(v: JsValue)
  {
    match v
    case Undefined => false
    case Null => false
    case Bool(b) => b
    case Num(n) => n != 0
    case Str(s) => s != ""
  }

  /** Truthiness of a `string | undefined` value such as `Cookies.get("token")`:
      the empty string counts as absent. */
  predicate TruthyText(t: Option<string>)
  {
    t.Some? && t.value != ""
  }

  // ---------------------------------------------------------------------------
  // String.prototype.includes / startsWith / endsWith

  /** `s.includes(part)`. */
  predicate Includes(s: string, part: string)
    decreases |s|
  {
    part <= s || (s != [] && Includes(s[1..], part))
  }

  /** `s.includes(part)` holds as soon as `part` occurs at some position `i`. */
  lemma {:induction false} IncludesAt(s: string, part: string, i: nat)
    requires i + |part| <= |s| && s[i..i + |part|] == part
    ensures Includes(s, part)
    decreases i
  {
    if i == 0 {
      assert part <= s;
    } else {
      assert s[1..][i - 1..i - 1 + |part|] == s[i..i + |part|];
      IncludesAt(s[1..], part, i - 1);
    }
  }

  /** A part that occurs is found at some position. */
  lemma {:induction false} IncludesWitness(s: string, part: string) returns (i: nat)
    requires Includes(s, part)
    ensures i + |part| <= |s| && s[i..i + |part|] == part
    decreases |s|
  {
    if part <= s {
      i := 0;
    } else {
      var j := IncludesWitness(s[1..], part);
      assert s[1..][j..j + |part|] == s[j + 1..j + 1 + |part|];
      i := j + 1;
    }
  }

  /** `s.endsWith(suffix)`. */
  predicate EndsWith(s: string, suffix: string)
  {
    |suffix| <= |s| && s[|s| - |suffix|..] == suffix
  }

  // ---------------------------------------------------------------------------
  // String.prototype.trim

  /** WhiteSpace and LineTerminator code points that `trim` and `Number` skip
      (section 12.2 and 12.3 of ECMA-262, with the Zs category written out). */
  predicate IsJsWhiteSpace(c: char)
  {
    c == '\t' || c == '\n' || c == '\U{000B}' || c == '\U{000C}' || c == '\r' || c == ' '
    || c == '\U{00A0}' || c == '\U{1680}' || ('\U{2000}' <= c <= '\U{200A}')
    || c == '\U{2028}' || c == '\U{2029}' || c == '\U{202F}' || c == '\U{205F}'
    || c == '\U{3000}' || c == '\U{FEFF}'
  }

  predicate AllWhiteSpace(s: string)
  {
    forall i :: 0 <= i < |s| ==> IsJsWhiteSpace(s[i])
  }

  /** Number of white-space characters at the start of `s`. */
  function LeadingWhiteSpace(s: string): (k: nat)
    ensures k <= |s| && AllWhiteSpace(s[..k])
    ensures k < |s| ==> !IsJsWhiteSpace(s[k])
  {
    if s != [] && IsJsWhiteSpace(s[0]) then
      var k := 1 + LeadingWhiteSpace(s[1..]);
      assert s[..k] == [s[0]] + s[1..][..k - 1];
      k
    else 0
  }

  /** Number of white-space characters at the end of `s`. */
  function TrailingWhiteSpace(s: string): (k: nat)
    ensures k <= |s| && AllWhiteSpace(s[|s| - k..])
    ensures k < |s| ==> !IsJsWhiteSpace(s[|s| - k - 1])
  {
    if s != [] && IsJsWhiteSpace(s[|s| - 1]) then
      var k := 1 + TrailingWhiteSpace(s[..|s| - 1]);
      assert s[|s| - k..] == s[..|s| - 1][|s| - k..] + [s[|s| - 1]];
      k
    else 0
  }

  /** `s.trim()`: `s` without its leading and trailing white space, and nothing else removed. */
  function Trim(s: string): (r: string)
    ensures LeadingWhiteSpace(s) + |r| <= |s|
    ensures r == s[LeadingWhiteSpace(s)..LeadingWhiteSpace(s) + |r|]
    ensures AllWhiteSpace(s[LeadingWhiteSpace(s) + |r|..])
    ensures r != [] ==> !IsJsWhiteSpace(r[0]) && !IsJsWhiteSpace(r[|r| - 1])
  {
    var t := s[LeadingWhiteSpace(s)..];
    t[..|t| - TrailingWhiteSpace(t)]
  }

  /** Trimming twice is trimming once. */
  lemma TrimIdempotent(s: string)
    ensures Trim(Trim(s)) == Trim(s)
  {
    NoEdgeSpaceTrimIsIdentity(Trim(s));
  }

  /** A string that neither starts nor ends with white space is left as it is. */
  lemma NoEdgeSpaceTrimIsIdentity(s: string)
    requires s != [] ==> !IsJsWhiteSpace(s[0]) && !IsJsWhiteSpace(s[|s| - 1])
    ensures Trim(s) == s
  {
    assert LeadingWhiteSpace(s) == 0;
    assert s[0..] == s;
    assert TrailingWhiteSpace(s) == 0;
  }

  // ---------------------------------------------------------------------------
  // Decimal digits: Number.prototype.toString and Number(string) for integers

  predicate IsDigit(c: char)
  {
    '0' <= c <= '9'
  }

  predicate AllDigits(s: string)
  {
    forall i :: 0 <= i < |s| ==> IsDigit(s[i])
  }

  function DigitChar(d: int): (c: char)
    requires 0 <= d < 10
    ensures IsDigit(c) && c as int - '0' as int == d
  {
    ('0' as int + d) as char
  }

  /** The decimal numeral of a natural number, most significant digit first. */
  function NatToDecimal(n: nat): (r: string)
    ensures |r| > 0 && AllDigits(r)
    ensures r[0] == '0' ==> n == 0
    decreases n
  {
    if n < 10 then [DigitChar(n)]
    else
      var r := NatToDecimal(n / 10) + [DigitChar(n % 10)];
      assert r[0] == NatToDecimal(n / 10)[0];
      r
  }

  /** `String(n)` (and a template literal `${n}`) for an integer of magnitude at most
      2^53, where JavaScript prints every digit; an optional minus sign, then the numeral
      of the magnitude. */
  function IntToDecimal(n: int): (r: string)
    ensures n >= 0 ==> r != [] && AllDigits(r) && DecimalValue(r) == n && (r[0] == '0' ==> n == 0)
    ensures n < 0 ==> |r| > 1 && r[0] == '-' && AllDigits(r[1..]) && DecimalValue(r[1..]) == -n && r[1] != '0'
  {
    if n < 0 then
      DecimalRoundTrip(-n);
      var r := "-" + NatToDecimal(-n);
      assert r[1..] == NatToDecimal(-n);
      r
    else
      DecimalRoundTrip(n);
      NatToDecimal(n)
  }

  /** The value of a string of decimal digits (leading zeros allowed). */
  function DecimalValue(s: string): nat
    requires AllDigits(s)
  {
    if s == [] then 0 else DecimalValue(s[..|s| - 1]) * 10 + (s[|s| - 1] as int - '0' as int)
  }

  /** Reading back the numeral of `n` gives `n`. */
  lemma {:induction false} DecimalRoundTrip(n: nat)
    ensures DecimalValue(NatToDecimal(n)) == n
    decreases n
  {
    if n >= 10 {
      var s := NatToDecimal(n);
      assert s[..|s| - 1] == NatToDecimal(n / 10);
      DecimalRoundTrip(n / 10);
    }
  }

  /** A numeral without superfluous leading zeros: "0", or digits not starting with 0. */
  predicate IsCanonicalNumeral(s: string)
  {
    s != [] && AllDigits(s) && (s[0] == '0' ==> |s| == 1)
  }

  /** A numeral whose first digit is not 0 has a positive value. */
  lemma {:induction false} LeadingDigitPositive(s: string)
    requires s != [] && AllDigits(s) && s[0] != '0'
    ensures DecimalValue(s) >= 1
    decreases |s|
  {
    if |s| > 1 {
      var init := s[..|s| - 1];
      assert init[0] == s[0];
      LeadingDigitPositive(init);
    }
  }

  /** The canonical numeral of a number is unique, and it is the one `NatToDecimal` writes:
      `String(n)` is determined by reading back as `n` without leading zeros. */
  lemma {:induction false} CanonicalNumeralUnique(s: string, n: nat)
    requires IsCanonicalNumeral(s) && DecimalValue(s) == n
    ensures s == NatToDecimal(n)
    decreases |s|
  {
    if |s| == 1 {
      assert n == s[0] as int - '0' as int;
      assert NatToDecimal(n) == [DigitChar(n)];
    } else {
      var init := s[..|s| - 1];
      var d := s[|s| - 1] as int - '0' as int;
      assert init[0] == s[0] && s[0] != '0';
      assert AllDigits(init);
      LeadingDigitPositive(init);
      var v := DecimalValue(init);
      assert n == v * 10 + d && 0 <= d < 10;
      assert n / 10 == v && n % 10 == d;
      CanonicalNumeralUnique(init, v);
      assert s == init + [s[|s| - 1]];
      assert DigitChar(d) == s[|s| - 1];
    }
  }

  /** Result of JavaScript's `Number(v)` as far as this model evaluates it. */
  datatype JsNumber =
    | Integer(value: int)
    /** `NaN` */
    | NaN
    /** A numeric literal the model does not evaluate: one with a fraction, an exponent,
        a hexadecimal/octal/binary prefix, or `Infinity`; and every other string that
        is not an optionally signed run of decimal digits. */
    | Unevaluated

  /** `Number(s)` on a string: white space is trimmed, the empty string is 0,
      and an optionally signed run of decimal digits is that integer. */
  function StringToNumber(s: string): (r: JsNumber)
    ensures Trim(s) == [] ==> r == Integer(0)
    ensures s != [] && AllDigits(s) ==> r == Integer(DecimalValue(s))
  {
    DigitsTrimToThemselves(s);
    var t := Trim(s);
    if t == [] then Integer(0)
    else if AllDigits(t) then Integer(DecimalValue(t))
    else if |t| > 1 && t[0] == '-' && AllDigits(t[1..]) then Integer(0 - DecimalValue(t[1..]) as int)
    else if |t| > 1 && t[0] == '+' && AllDigits(t[1..]) then Integer(DecimalValue(t[1..]))
    else Unevaluated
  }

  /** `Number(v)`. */
  function ToNumber(v: JsValue): (r: JsNumber)
    ensures v.Undefined? ==> r.NaN?
    ensures v.Null? || v.Bool? || v.Num? ==> r.Integer?
    ensures !v.Str? && r.Integer? ==> (r.value != 0 <==> Truthy(v))
    ensures v.Num? ==> r == Integer(v.n)
  {
    match v
    case Undefined => NaN
    case Null => Integer(0)
    case Bool(b) => Integer(if b then 1 else 0)
    case Num(n) => Integer(n)
    case Str(s) => StringToNumber(s)
  }

  /** A run of digits has no white space to trim. */
  lemma DigitsTrimToThemselves(s: string)
    ensures AllDigits(s) ==> Trim(s) == s
  {
    if s != [] && AllDigits(s) {
      assert IsDigit(s[0]) && IsDigit(s[|s| - 1]);
      NoEdgeSpaceTrimIsIdentity(s);
    } else if s == [] {
      NoEdgeSpaceTrimIsIdentity(s);
    }
  }

  /** `Number(String(n)) === n`: the decimal form of an integer converts back to it. */
  lemma DecimalStringToNumber(n: int)
    ensures StringToNumber(IntToDecimal(n)) == Integer(n)
  {
    var s := IntToDecimal(n);
    var m: nat := if n < 0 then -n else n;
    DecimalRoundTrip(m);
    assert s != [] && !IsJsWhiteSpace(s[0]) && !IsJsWhiteSpace(s[|s| - 1]);
    NoEdgeSpaceTrimIsIdentity(s);
    if n < 0 {
      assert s[1..] == NatToDecimal(m);
      assert !IsDigit(s[0]);
    }
  }
}
