/**
 * String and number helpers shared by the models of the API servers and of
 * the two importers: decimal digits, zero padding, counting, joining,
 * splitting, trimming and replacing characters.
 */
module Common {

  datatype Option<+T> = None | Some(value: T)

  predicate IsDigit(c: char) { '0' <= c <= '9' }

  predicate AllDigits(s: string) { forall i | 0 <= i < |s| :: IsDigit(s[i]) }

  function DigitValue(c: char): (d: nat)
    requires IsDigit(c)
    ensures d < 10
  {
    c as int - '0' as int
  }

  function DigitChar(d: nat): (c: char)
    requires d < 10
    ensures IsDigit(c) && DigitValue(c) == d
  {
    ('0' as int + d) as char
  }

  /** The value of a string of decimal digits, most significant first ("" is 0). */
  function DecimalValue(s: string): nat
    requires AllDigits(s)
  {
    if s == [] then 0 else 10 * DecimalValue(s[..|s| - 1]) + DigitValue(s[|s| - 1])
  }

  /** The shortest decimal rendering of n, as String(n), str(n) and (string)$n give it. */
  function DecimalString(n: nat): (s: string)
    ensures 1 <= |s| && AllDigits(s) && DecimalValue(s) == n
    ensures |s| > 1 ==> s[0] != '0'
  {
    if n < 10 then [DigitChar(n)]
    else
      var prefix := DecimalString(n / 10);
      var s := prefix + [DigitChar(n % 10)];
      assert s[..|s| - 1] == prefix;
      s
  }

  /** n rendered with two digits, as padStart(2, '0') and the format "02d" do for n < 100. */
  function Pad2(n: nat): (s: string)
    requires n < 100
    ensures |s| == 2 && AllDigits(s) && DecimalValue(s) == n
  {
    var s := [DigitChar(n / 10), DigitChar(n % 10)];
    assert s[..1] == [DigitChar(n / 10)] && s[..1][..0] == [];
    assert DecimalValue(s[..1]) == n / 10;
    s
  }

  /** The number of occurrences of c in s. */
  function Count<T(==)>(s: seq<T>, c: T): nat
  {
    if s == [] then 0 else (if s[0] == c then 1 else 0) + Count(s[1..], c)
  }

  lemma {:induction false} CountAppend<T>(a: seq<T>, b: seq<T>, c: T)
    ensures Count(a + b, c) == Count(a, c) + Count(b, c)
  {
    if a != [] {
      assert (a + b)[1..] == a[1..] + b;
      CountAppend(a[1..], b, c);
    } else {
      assert a + b == b;
    }
  }

  lemma {:induction false} CountAbsent<T>(s: seq<T>, c: T)
    ensures c !in s <==> Count(s, c) == 0
  {
    if s != [] {
      CountAbsent(s[1..], c);
      assert c in s <==> s[0] == c || c in s[1..];
    }
  }

  /** A property of the first element and of the next n after it holds of the first n + 1. */
  lemma HoldsShifted<T>(s: seq<T>, p: T -> bool, n: nat)
    requires n < |s| && p(s[0]) && forall j | 0 <= j < n :: p(s[1..][j])
    ensures forall j | 0 <= j < n + 1 :: p(s[j])
  {
    forall j | 0 < j < n + 1 ensures p(s[j]) {
      assert s[j] == s[1..][j - 1];
    }
  }

  /** parts.join(sep): the parts with sep between consecutive ones. */
  function Join(parts: seq<string>, sep: string): string
  {
    if |parts| == 0 then ""
    else if |parts| == 1 then parts[0]
    else parts[0] + sep + Join(parts[1..], sep)
  }

  /**
   * Joining parts that hold one c each with a separator that holds none
   * gives a string with exactly one c per part.
   */
  lemma {:induction false} CountJoinOnePerPart(parts: seq<string>, sep: string, c: char)
    requires forall i | 0 <= i < |parts| :: Count(parts[i], c) == 1
    requires Count(sep, c) == 0
    ensures Count(Join(parts, sep), c) == |parts|
  {
    if |parts| > 1 {
      CountJoinOnePerPart(parts[1..], sep, c);
      CountAppend(parts[0] + sep, Join(parts[1..], sep), c);
      CountAppend(parts[0], sep, c);
    }
  }

  /** Joining parts none of which holds c, with a separator that holds none either, gives no c. */
  lemma {:induction false} CountJoinNone(parts: seq<string>, sep: string, c: char)
    requires forall i | 0 <= i < |parts| :: Count(parts[i], c) == 0
    requires Count(sep, c) == 0
    ensures Count(Join(parts, sep), c) == 0
  {
    if |parts| > 1 {
      CountJoinNone(parts[1..], sep, c);
      CountAppend(parts[0] + sep, Join(parts[1..], sep), c);
      CountAppend(parts[0], sep, c);
    }
  }

  lemma OneDigitValue(d: string)
    requires |d| == 1 && AllDigits(d)
    ensures DecimalValue(d) == DigitValue(d[0])
  {
    assert d[..0] == [];
  }

  lemma TwoDigitValue(d: string)
    requires |d| == 2 && AllDigits(d)
    ensures DecimalValue(d) == 10 * DigitValue(d[0]) + DigitValue(d[1])
  {
    assert d[..1][..0] == [] && d[..1] == [d[0]];
    assert DecimalValue(d[..1]) == DigitValue(d[0]);
  }

  /** Two decimal digits are what Pad2 gives for their value. */
  lemma Pad2Inverse(d: string)
    requires |d| == 2 && AllDigits(d)
    ensures DecimalValue(d) < 100 && Pad2(DecimalValue(d)) == d
  {
    TwoDigitValue(d);
  }

  /** The first index of c in s, if any. */
  function IndexOf(s: string, c: char): (r: Option<nat>)
    ensures r.None? <==> c !in s
    ensures r.Some? ==> r.value < |s| && s[r.value] == c && c !in s[..r.value]
  {
    if s == [] then None
    else if s[0] == c then Some(0)
    else
      var rest := IndexOf(s[1..], c);
      if rest.None? then None
      else
        assert s[..rest.value + 1] == [s[0]] + s[1..][..rest.value];
        Some(rest.value + 1)
  }

  /**
   * s.split(c) in JavaScript and Python alike: the pieces between the
   * occurrences of c, one more piece than there are occurrences, which
   * joined with c give s back.
   */
  function Split(s: string, c: char): (parts: seq<string>)
    ensures |parts| == Count(s, c) + 1
    ensures forall i | 0 <= i < |parts| :: c !in parts[i]
    ensures Join(parts, [c]) == s
    decreases |s|
  {
    match IndexOf(s, c)
    case None =>
      CountAbsent(s, c);
      [s]
    case Some(k) =>
      var rest := Split(s[k + 1..], c);
      assert s == s[..k] + [c] + s[k + 1..];
      CountAbsent(s[..k], c);
      CountAppend(s[..k] + [c], s[k + 1..], c);
      CountAppend(s[..k], [c], c);
      [s[..k]] + rest
  }

  /** A string with exactly one c, at index k, splits into the parts before and after k. */
  lemma SplitAtSole(s: string, c: char, k: nat)
    requires k < |s| && s[k] == c && c !in s[..k] && c !in s[k + 1..]
    ensures Split(s, c) == [s[..k], s[k + 1..]]
  {
    assert IndexOf(s[k + 1..], c).None?;
  }

  /** Drops leading characters for which ws holds. */
  function TrimStart(s: string, ws: char -> bool): (r: string)
    ensures |r| <= |s| && r == s[|s| - |r|..]
    ensures r == [] || !ws(r[0])
    ensures forall i | 0 <= i < |s| - |r| :: ws(s[i])
  {
    if s != [] && ws(s[0]) then TrimStart(s[1..], ws) else s
  }

  /** Drops trailing characters for which ws holds. */
  function TrimEnd(s: string, ws: char -> bool): (r: string)
    ensures |r| <= |s| && r == s[..|r|]
    ensures r == [] || !ws(r[|r| - 1])
    ensures forall i | |r| <= i < |s| :: ws(s[i])
  {
    if s != [] && ws(s[|s| - 1]) then TrimEnd(s[..|s| - 1], ws) else s
  }

  /** Drops leading and trailing characters for which ws holds. */
  function Trim(s: string, ws: char -> bool): (r: string)
    ensures forall i | 0 <= i < |r| :: r[i] in s
    ensures forall i | 0 <= i < |s| && !ws(s[i]) :: s[i] in r
  {
    var t := TrimStart(s, ws);
    var r := TrimEnd(t, ws);
    TrimKeeps(s, t, r, ws);
    r
  }

  /** A middle slice of s, outside which ws holds everywhere, keeps every character of s that ws rejects. */
  lemma TrimKeeps(s: string, t: string, r: string, ws: char -> bool)
    requires |t| <= |s| && t == s[|s| - |t|..] && forall i | 0 <= i < |s| - |t| :: ws(s[i])
    requires |r| <= |t| && r == t[..|r|] && forall i | |r| <= i < |t| :: ws(t[i])
    ensures forall i | 0 <= i < |r| :: r[i] in s
    ensures forall i | 0 <= i < |s| && !ws(s[i]) :: s[i] in r
  {
    var d := |s| - |t|;
    assert forall i | 0 <= i < |r| :: r[i] == s[d + i];
    forall i | 0 <= i < |s| && !ws(s[i])
      ensures s[i] in r
    {
      assert d <= i;
      assert t[i - d] == s[i];
      assert i - d < |r|;
      assert r[i - d] == s[i];
    }
  }

  /** A string in which ws holds of no character is its own trimmed form. */
  lemma TrimNoSpace(s: string, ws: char -> bool)
    requires forall i | 0 <= i < |s| :: !ws(s[i])
    ensures Trim(s, ws) == s
  {
  }

  /** s.replace(from, to) for a one-character pattern in JavaScript: only the first occurrence. */
  function ReplaceFirst(s: string, from: char, to: char): (r: string)
    ensures |r| == |s|
    ensures from !in s ==> r == s
    ensures from != to && from in s ==> Count(r, from) == Count(s, from) - 1
  {
    match IndexOf(s, from)
    case None => s
    case Some(k) =>
      var r := s[..k] + [to] + s[k + 1..];
      assert s == s[..k] + [from] + s[k + 1..];
      CountAppend(s[..k] + [from], s[k + 1..], from);
      CountAppend(s[..k], [from], from);
      CountAppend(s[..k] + [to], s[k + 1..], from);
      CountAppend(s[..k], [to], from);
      r
  }

  /** s.replace(from, to) for a one-character pattern in Python: every occurrence. */
  function ReplaceAll(s: string, from: char, to: char): (r: string)
    ensures |r| == |s|
    ensures forall i | 0 <= i < |s| :: r[i] == if s[i] == from then to else s[i]
  {
    if s == [] then [] else [if s[0] == from then to else s[0]] + ReplaceAll(s[1..], from, to)
  }

  /** sub occurs somewhere in s (JavaScript includes). */
  predicate Contains(s: string, sub: string)
  {
    exists i | 0 <= i <= |s| - |sub| :: OccursAt(s, sub, i)
  }

  predicate OccursAt(s: string, sub: string, i: nat)
  {
    i + |sub| <= |s| && s[i..i + |sub|] == sub
  }
}
