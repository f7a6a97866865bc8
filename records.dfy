/**
 * What the two JSON importers share: the decoded JSON values they read,
 * the nineteen columns of their upsert into `mobilepost`, the values they
 * bind to it, and its list of placeholders.
 */
module Records {
  import opened Common

  /**
   * A decoded JSON value. A number with a fraction or an exponent is
   * carried by `text`, Python's repr() of the parsed float (its shortest
   * round-trip rendering: the JSON number 9.30 is carried as "9.3");
   * PHP's rendering of the same float is not computed. An object keeps
   * its entries in order, one per key.
   */
  datatype Json =
    | JNull
    | JBool(b: bool)
    | JInt(i: int)
    | JFloat(text: string)
    | JStr(s: string)
    | JList(items: seq<Json>)
    | JObject(entries: seq<(string, Json)>)

  /** The value of key k in an object, if the object has that key. */
  function Lookup(entries: seq<(string, Json)>, k: string): (r: Option<Json>)
    ensures r.None? <==> forall i | 0 <= i < |entries| :: entries[i].0 != k
    ensures r.Some? ==> exists i | 0 <= i < |entries| :: entries[i] == (k, r.value)
  {
    if entries == [] then None
    else if entries[0].0 == k then Some(entries[0].1)
    else
      var rest := Lookup(entries[1..], k);
      if rest.Some? then
        var i :| 0 <= i < |entries[1..]| && entries[1..][i] == (k, rest.value);
        assert entries[i + 1] == (k, rest.value);
        rest
      else rest
  }

  /** `r.get(k)` and `$r[k] ?? null`: the value of key k, null when the key is absent or v is not an object. */
  function Get(v: Json, k: string): Json
  {
    if v.JObject? && Lookup(v.entries, k).Some? then Lookup(v.entries, k).value else JNull
  }

  /** The decimal rendering of an integer, with a minus sign when negative. */
  function IntText(i: int): string
  {
    if i < 0 then "-" + DecimalString(-i) else DecimalString(i)
  }

  /**
   * The nineteen columns both importers upsert, in the order of their
   * placeholders.
   */
  const UpsertColumns: seq<string> := [
    "mobileCode", "locationTC", "locationSC", "addressTC",
    "nameSC", "districtSC", "addressSC", "closeHour",
    "nameTC", "districtTC", "latitude", "openHour", "dayOfWeekCode",
    "nameEN", "districtEN", "locationEN", "addressEN", "seq", "longitude"
  ]

  /**
   * A value bound to the upsert: text, NULL, an integer, the result of a
   * numeric conversion of a JSON value (to an integer, kind 'i', or to a
   * float, kind 'd') that this model does not compute, or the language's
   * own rendering of a value as text, which it does not compute either.
   */
  datatype Bound = BText(s: string) | BNone | BInt(i: int) | BCast(v: Json, kind: char) | BRendered(v: Json)

  /** n copies of a placeholder, separated by commas, as in `VALUES (%s,%s,...)`. */
  function MarkRow(mark: string, n: nat): string
  {
    if n <= 1 then (if n == 0 then "" else mark) else mark + "," + MarkRow(mark, n - 1)
  }

  /** A row of n placeholders that each hold the character c once holds it n times. */
  lemma {:induction false} MarkRowCount(mark: string, c: char, n: nat)
    requires Count(mark, c) == 1 && c != ','
    ensures Count(MarkRow(mark, n), c) == n
  {
    if n > 1 {
      MarkRowCount(mark, c, n - 1);
      CountAppend(mark + ",", MarkRow(mark, n - 1), c);
      CountAppend(mark, ",", c);
    }
  }
}
