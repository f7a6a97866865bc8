/**
 * The few JavaScript semantics the API handlers rely on: the values a
 * request can carry, String(v), truthiness, `== null`, String.prototype.trim
 * and what Number.isInteger(Number(v)) decides.
 */
module Js {
  import opened Common

  /**
   * A value from a parsed query string or JSON body. A number is carried by
   * its String() rendering (9.3 as "9.3", 12 as "12"); objects and arrays
   * are not part of this model.
   */
  datatype JsValue = Undefined | Null | Bool(b: bool) | Num(text: string) | Str(s: string)

  /** v == null holds of undefined and null only. */
  predicate IsNullish(v: JsValue) { v.Undefined? || v.Null? }

  /** false, 0, -0, NaN, "" and the nullish values are falsy; String(-0) is "0". */
  predicate Truthy(v: JsValue)
  {
    match v
    case Undefined => false
    case Null => false
    case Bool(b) => b
    case Num(text) => text != "0" && text != "NaN"
    case Str(s) => s != ""
  }

  /** The query-string value `q` is truthy: present and not "". */
  predicate Given(q: Option<string>) { q.Some? && q.value != "" }

  function ToJsString(v: JsValue): string
  {
    match v
    case Undefined => "undefined"
    case Null => "null"
    case Bool(b) => if b then "true" else "false"
    case Num(text) => text
    case Str(s) => s
  }

  /** The WhiteSpace and LineTerminator code points that String.prototype.trim removes. */
  predicate IsJsSpace(c: char)
  {
    var n := c as int;
    n == 0x09 || n == 0x0A || n == 0x0B || n == 0x0C || n == 0x0D || n == 0x20
    || n == 0xA0 || n == 0x1680 || (0x2000 <= n <= 0x200A) || n == 0x2028 || n == 0x2029
    || n == 0x202F || n == 0x205F || n == 0x3000 || n == 0xFEFF
  }

  function JsTrim(s: string): string
  {
    Trim(s, IsJsSpace)
  }

  /** What Number.isInteger can tell about Number(v): an integer and its value, or not an integer (NaN included). */
  datatype Numeric = Integer(value: int) | NonInteger

  /**
   * Number(s) for a string: surrounding white space is ignored, the empty
   * string is 0, and a decimal literal with an optional sign, optional
   * fraction digits and no exponent is an integer exactly when its fraction
   * digits are all zero. Every other string is classified as not an integer.
   */
  function StringToNumber(s: string): Numeric
  {
    SignedNumber(JsTrim(s))
  }

  /** Number() of an already trimmed string: empty is 0, else an optional sign and an unsigned literal. */
  function SignedNumber(t: string): Numeric
  {
    if t == [] then Integer(0)
    else if t[0] == '-' then Negate(UnsignedNumber(t[1..]))
    else if t[0] == '+' then UnsignedNumber(t[1..])
    else UnsignedNumber(t)
  }

  function Negate(n: Numeric): Numeric
  {
    match n
    case Integer(v) => Integer(-v)
    case NonInteger => NonInteger
  }

  predicate AllZeros(s: string) { forall i | 0 <= i < |s| :: s[i] == '0' }

  /** An unsigned decimal literal: an integer when it has no fraction digits other than zeros. */
  function UnsignedNumber(body: string): Numeric
  {
    match DecimalLiteral(body)
    case None => NonInteger
    case Some(parts) =>
      if AllZeros(parts.1) then Integer(DecimalValue(parts.0)) else NonInteger
  }

  /** Splits "ddd", "ddd.", "ddd.ddd" or ".ddd" into its whole and fraction digits. */
  function DecimalLiteral(s: string): (r: Option<(string, string)>)
    ensures r.Some? ==> AllDigits(r.value.0) && AllDigits(r.value.1)
    ensures r.Some? ==> forall i | 0 <= i < |s| :: IsDigit(s[i]) || s[i] == '.'
  {
    match IndexOf(s, '.')
    case None => if s != [] && AllDigits(s) then Some((s, "")) else None
    case Some(k) =>
      var whole, fraction := s[..k], s[k + 1..];
      assert forall i | 0 <= i < |s| && i != k :: s[i] == if i < k then whole[i] else fraction[i - k - 1];
      if AllDigits(whole) && AllDigits(fraction) && |whole| + |fraction| >= 1
      then Some((whole, fraction)) else None
  }

  /** Number(v), as far as Number.isInteger tells it apart. */
  function NumberOf(v: JsValue): Numeric
  {
    match v
    case Undefined => NonInteger
    case Null => Integer(0)
    case Bool(b) => Integer(if b then 1 else 0)
    case Num(text) => StringToNumber(text)
    case Str(s) => StringToNumber(s)
  }

  /** The decimal rendering of every natural number reads back as that integer. */
  lemma StringToNumberDecimal(n: nat)
    ensures StringToNumber(DecimalString(n)) == Integer(n)
  {
    StringToNumberDigits(DecimalString(n));
  }

  /** Number() of a non-empty run of digits is the integer it spells. */
  lemma StringToNumberDigits(d: string)
    requires d != [] && AllDigits(d)
    ensures StringToNumber(d) == Integer(DecimalValue(d))
  {
    DigitsAreNoSpace(d);
    TrimNoSpace(d, IsJsSpace);
    SignedDigits(d);
  }

  lemma DigitsAreNoSpace(d: string)
    requires AllDigits(d)
    ensures forall i | 0 <= i < |d| :: !IsJsSpace(d[i])
  {
    forall i | 0 <= i < |d| ensures !IsJsSpace(d[i]) {
      assert IsDigit(d[i]);
    }
  }

  /** A non-empty run of digits is the integer it spells. */
  lemma SignedDigits(d: string)
    requires d != [] && AllDigits(d)
    ensures SignedNumber(d) == Integer(DecimalValue(d))
  {
    assert !IsDigit('.') && !IsDigit('-') && !IsDigit('+');
    assert '.' !in d && d[0] != '-' && d[0] != '+';
    assert DecimalLiteral(d) == Some((d, ""));
  }

  /** A string holding a character outside digits, '.', '+', '-' and white space is never an integer. */
  lemma StringToNumberRejectsLetters(s: string, k: nat)
    requires k < |s| && !IsDigit(s[k]) && s[k] !in ".+-" && !IsJsSpace(s[k])
    ensures StringToNumber(s) == NonInteger
  {
    assert s[k] in JsTrim(s);
    SignedRejects(JsTrim(s), s[k]);
  }

  /** A trimmed string holding a character outside digits, '.', '+' and '-' is not an integer. */
  lemma SignedRejects(t: string, c: char)
    requires c in t && !IsDigit(c) && c !in ".+-"
    ensures SignedNumber(t) == NonInteger
  {
    if t[0] == '-' || t[0] == '+' {
      assert t == [t[0]] + t[1..];
      assert c in t[1..];
      UnsignedRejects(t[1..], c);
    } else {
      UnsignedRejects(t, c);
    }
  }

  /** A body holding a character that is neither a digit nor '.' is not a decimal literal. */
  lemma UnsignedRejects(body: string, c: char)
    requires c in body && !IsDigit(c) && c != '.'
    ensures UnsignedNumber(body) == NonInteger
  {
    assert DecimalLiteral(body).None?;
  }
}
