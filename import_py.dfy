/**
 * The Python importer (db/import.py): it picks the records out of the
 * decoded JSON file, skips those without the unique key (mobileCode,
 * dayOfWeekCode, seq), builds the nineteen values of the upsert for the
 * others, runs it inside one transaction (unless it is a dry run) and
 * counts what happened to every record.
 *
 * The outcome of each upsert is an input: the row count the driver
 * reports, or the error it raised.
 */
module ImportPy {
  import opened Common
  import opened Api
  import opened Records
  import Js
  import Server

  // ---------------------------------------------------------------------
  // Python semantics the importer relies on

  /** The characters str.strip() removes (those for which str.isspace() holds). */
  predicate IsPySpace(c: char)
  {
    var n := c as int;
    (0x09 <= n <= 0x0D) || (0x1C <= n <= 0x20) || n == 0x85 || n == 0xA0 || n == 0x1680
    || (0x2000 <= n <= 0x200A) || n == 0x2028 || n == 0x2029 || n == 0x202F || n == 0x205F || n == 0x3000
  }

  function PyStrip(s: string): string
  {
    Trim(s, IsPySpace)
  }

  /** The part of a float's rendering before its exponent. */
  function Mantissa(text: string): string
  {
    match IndexOf(text, 'e')
    case None => text
    case Some(k) => text[..k]
  }

  /** Python truthiness: None, False, zero, "" and empty lists and objects are false. */
  predicate PyTruthy(v: Json)
  {
    match v
    case JNull => false
    case JBool(b) => b
    case JInt(i) => i != 0
    case JFloat(text) => exists k | 0 <= k < |Mantissa(text)| :: '1' <= Mantissa(text)[k] <= '9'
    case JStr(s) => s != ""
    case JList(items) => items != []
    case JObject(entries) => entries != []
  }

  /**
   * str(v) for a scalar. A list or an object renders with a leading '[' or
   * '{', which is all this model needs to know of it, so it has none here.
   */
  function PyStrText(v: Json): Option<string>
  {
    match v
    case JNull => Some("None")
    case JBool(b) => Some(if b then "True" else "False")
    case JInt(i) => Some(IntText(i))
    case JFloat(text) => Some(text)
    case JStr(s) => Some(s)
    case JList(_) => None
    case JObject(_) => None
  }

  /** int(s) for a string: surrounding white space, an optional sign, and at least one decimal digit. */
  function PyIntText(s: string): Option<int>
  {
    var t := PyStrip(s);
    if t == [] then None
    else
      var sign, digits := if t[0] == '-' then -1 else 1, if t[0] == '-' || t[0] == '+' then t[1..] else t;
      if digits != [] && AllDigits(digits) then Some(sign * DecimalValue(digits)) else None
  }

  /** int() reads a plain string of decimal digits as its decimal value. */
  lemma PyIntTextDigits(s: string)
    requires s != [] && AllDigits(s)
    ensures PyIntText(s) == Some(DecimalValue(s))
  {
    forall i | 0 <= i < |s| ensures !IsPySpace(s[i]) {
      assert IsDigit(s[i]);
    }
    TrimNoSpace(s, IsPySpace);
    assert IsDigit(s[0]);
  }

  /** int(v) for the key fields, as a bound value; None when int() raises. */
  function PyIntBound(v: Json): Option<Bound>
  {
    match v
    case JInt(i) => Some(BInt(i))
    case JBool(b) => Some(BInt(if b then 1 else 0))
    case JFloat(_) => Some(BCast(v, 'i'))
    case JStr(s) => if PyIntText(s).Some? then Some(BInt(PyIntText(s).value)) else None
    case _ => None
  }

  /** float(v) succeeds: a number, a boolean, or a string holding a decimal number. */
  predicate PyFloatable(v: Json)
  {
    match v
    case JInt(_) => true
    case JBool(_) => true
    case JFloat(_) => true
    case JStr(s) =>
      var t := PyStrip(s);
      var body := if t != [] && (t[0] == '-' || t[0] == '+') then t[1..] else t;
      Js.DecimalLiteral(body).Some?
    case _ => false
  }

  // ---------------------------------------------------------------------
  // norm_time

  /**
   * norm_time(t): None for a falsy value; otherwise the rules of NormText
   * on str(t). str() of a list or an object starts with '[' or '{', so its
   * first part is never an integer and the answer is None.
   */
  function NormTime(t: Json): (r: Option<string>)
    ensures !PyTruthy(t) ==> r.None?
    ensures r.Some? ==> IsClock(r.value)
  {
    if !PyTruthy(t) then None
    else
      match PyStrText(t)
      case None => None
      case Some(text) => NormText(text)
  }

  /**
   * The text rules of norm_time: stripped, with every '.' turned into ':',
   * the text must split on ':' into exactly two integers, an hour 0..23
   * and a minute 0..59, and the result pads both to two digits.
   */
  function NormText(text: string): (r: Option<string>)
    ensures r.Some? ==> IsClock(r.value)
  {
    var parts := Split(ReplaceAll(PyStrip(text), '.', ':'), ':');
    if |parts| != 2 then None
    else
      match (PyIntText(parts[0]), PyIntText(parts[1]))
      case (Some(h), Some(m)) => if 0 <= h <= 23 && 0 <= m <= 59 then Some(Clock(h, m)) else None
      case _ => None
  }

  /** f"{h:02d}:{m:02d}" for an hour and a minute in range. */
  function Clock(h: nat, m: nat): (r: string)
    requires h <= 23 && m <= 59
    ensures IsClock(r) && r[..2] == Pad2(h) && r[3..] == Pad2(m)
  {
    var r := Pad2(h) + ":" + Pad2(m);
    assert r[..2] == Pad2(h) && r[3..] == Pad2(m);
    r
  }

  /** A normalised time is the clock text of its own hour and minute. */
  lemma ClockOfText(c: string)
    requires IsClock(c)
    ensures Clock(DecimalValue(c[..2]), DecimalValue(c[3..])) == c
  {
    Pad2Inverse(c[..2]);
    Pad2Inverse(c[3..]);
    assert c == c[..2] + ":" + c[3..];
  }

  /** Text made of digits, ':' and '.' only. */
  predicate ClockChars(s: string)
  {
    forall i | 0 <= i < |s| :: IsDigit(s[i]) || s[i] == ':' || s[i] == '.'
  }

  lemma ClockCharsStrip(s: string)
    requires ClockChars(s)
    ensures PyStrip(s) == s
  {
    forall i | 0 <= i < |s| ensures !IsPySpace(s[i]) {
    }
    TrimNoSpace(s, IsPySpace);
  }

  lemma PartsClockChars(hs: string, sep: char, ms: string)
    requires AllDigits(hs) && AllDigits(ms) && (sep == ':' || sep == '.')
    ensures ClockChars(hs + [sep] + ms)
  {
    var raw := hs + [sep] + ms;
    forall i | 0 <= i < |raw| ensures IsDigit(raw[i]) || raw[i] == ':' || raw[i] == '.' {
      if i < |hs| {
        assert raw[i] == hs[i];
      } else if i > |hs| {
        assert raw[i] == ms[i - |hs| - 1];
      }
    }
  }

  lemma DotsBecomeColon(hs: string, sep: char, ms: string)
    requires AllDigits(hs) && AllDigits(ms) && (sep == ':' || sep == '.')
    ensures ReplaceAll(hs + [sep] + ms, '.', ':') == hs + [':'] + ms
  {
    var raw, s := hs + [sep] + ms, ReplaceAll(hs + [sep] + ms, '.', ':');
    forall i | 0 <= i < |s| ensures s[i] == (hs + [':'] + ms)[i] {
      if i < |hs| {
        assert raw[i] == hs[i] && IsDigit(hs[i]);
      } else if i > |hs| {
        assert raw[i] == ms[i - |hs| - 1] && IsDigit(ms[i - |hs| - 1]);
      }
    }
  }

  lemma SplitClockParts(hs: string, ms: string)
    requires AllDigits(hs) && AllDigits(ms)
    ensures Split(hs + [':'] + ms, ':') == [hs, ms]
  {
    var s := hs + [':'] + ms;
    Server.DigitsHaveNoColon(hs);
    Server.DigitsHaveNoColon(ms);
    assert s[..|hs|] == hs && s[|hs| + 1..] == ms;
    SplitAtSole(s, ':', |hs|);
  }

  /**
   * Digits, ':' or '.', digits: accepted exactly when the hour is at most
   * 23 and the minute at most 59, whatever the number of digits, and then
   * zero-padded.
   */
  lemma NormTextOnParts(hs: string, sep: char, ms: string)
    requires hs != [] && ms != [] && AllDigits(hs) && AllDigits(ms) && (sep == ':' || sep == '.')
    ensures NormText(hs + [sep] + ms)
         == if DecimalValue(hs) <= 23 && DecimalValue(ms) <= 59 then Some(Clock(DecimalValue(hs), DecimalValue(ms))) else None
  {
    PartsOfClockText(hs, sep, ms);
    NormTextOfParts(hs + [sep] + ms, hs, ms);
  }

  /** Digits, ':' or '.', digits: the text splits into the two digit strings. */
  lemma PartsOfClockText(hs: string, sep: char, ms: string)
    requires AllDigits(hs) && AllDigits(ms) && (sep == ':' || sep == '.')
    ensures Split(ReplaceAll(PyStrip(hs + [sep] + ms), '.', ':'), ':') == [hs, ms]
  {
    PartsClockChars(hs, sep, ms);
    ClockCharsStrip(hs + [sep] + ms);
    DotsBecomeColon(hs, sep, ms);
    SplitClockParts(hs, ms);
  }

  /** A text whose two parts are digit strings is judged by their values. */
  lemma NormTextOfParts(text: string, hs: string, ms: string)
    requires hs != [] && ms != [] && AllDigits(hs) && AllDigits(ms)
    requires Split(ReplaceAll(PyStrip(text), '.', ':'), ':') == [hs, ms]
    ensures NormText(text)
         == if DecimalValue(hs) <= 23 && DecimalValue(ms) <= 59 then Some(Clock(DecimalValue(hs), DecimalValue(ms))) else None
  {
    PyIntTextDigits(hs);
    PyIntTextDigits(ms);
  }

  /** The same for the time given as a JSON string. */
  lemma NormTimeOnParts(hs: string, sep: char, ms: string)
    requires hs != [] && ms != [] && AllDigits(hs) && AllDigits(ms) && (sep == ':' || sep == '.')
    ensures NormTime(JStr(hs + [sep] + ms))
         == if DecimalValue(hs) <= 23 && DecimalValue(ms) <= 59 then Some(Clock(DecimalValue(hs), DecimalValue(ms))) else None
  {
    NormTimeOfText(hs + [sep] + ms);
    NormTextOnParts(hs, sep, ms);
  }

  /** A non-empty JSON string is normalised by the text rules alone. */
  lemma NormTimeOfText(s: string)
    requires s != []
    ensures NormTime(JStr(s)) == NormText(s)
  {
    assert PyTruthy(JStr(s)) && PyStrText(JStr(s)) == Some(s);
  }

  /** Digits, a separator and digits normalise to the clock text with the same hour and minute values. */
  lemma NormTimeTo(hs: string, sep: char, ms: string, c: string)
    requires hs != [] && ms != [] && AllDigits(hs) && AllDigits(ms) && (sep == ':' || sep == '.')
    requires IsClock(c) && DecimalValue(c[..2]) == DecimalValue(hs) && DecimalValue(c[3..]) == DecimalValue(ms)
    ensures NormTime(JStr(hs + [sep] + ms)) == Some(c)
  {
    NormTimeOnParts(hs, sep, ms);
    ClockOfText(c);
  }

  /** Every normalised time is left as it is. */
  lemma NormTimeFixesClocks(s: string)
    requires IsClock(s)
    ensures NormTime(JStr(s)) == Some(s)
  {
    assert s == s[..2] + [':'] + s[3..];
    NormTimeOnParts(s[..2], ':', s[3..]);
    Pad2Inverse(s[..2]);
    Pad2Inverse(s[3..]);
  }

  /** Normalising a normalised time changes nothing. */
  lemma NormTimeIdempotent(t: Json)
    requires NormTime(t).Some?
    ensures NormTime(JStr(NormTime(t).value)) == NormTime(t)
  {
    NormTimeFixesClocks(NormTime(t).value);
  }

  /**
   * Unlike normHHMM, norm_time accepts one-digit minutes: "9:5" becomes
   * "09:05" here and is rejected by the server.
   */
  lemma NormTimeOneDigitMinutes(s: string)
    requires s == "9:5"
    ensures NormTime(JStr(s)) == Some("09:05")
    ensures Server.NormHHMM(Js.Str(s)).None?
  {
    var hs, ms := s[..1], s[2..];
    assert s == hs + [':'] + ms;
    OneDigitValue(hs);
    OneDigitValue(ms);
    var c := "09:05";
    TwoDigitValue(c[..2]);
    TwoDigitValue(c[3..]);
    NormTimeTo(hs, ':', ms, c);
    Server.NormHHMMOneDigitMinutes();
  }

  /** A dot separates like a colon: "9.30" becomes "09:30". */
  lemma NormTimeDotted(s: string)
    requires s == "9.30"
    ensures NormTime(JStr(s)) == Some("09:30")
  {
    var hs, ms := s[..1], s[2..];
    assert s == hs + ['.'] + ms;
    OneDigitValue(hs);
    TwoDigitValue(ms);
    var c := "09:30";
    TwoDigitValue(c[..2]);
    TwoDigitValue(c[3..]);
    NormTimeTo(hs, '.', ms, c);
  }

  /**
   * Every '.' counts, not only the first: digits with two separators, such
   * as "9.30.1", split into three parts and are rejected.
   */
  lemma NormTimeTwoSeparators(a: string, s1: char, b: string, s2: char, c: string)
    requires AllDigits(a) && AllDigits(b) && AllDigits(c)
    requires (s1 == ':' || s1 == '.') && (s2 == ':' || s2 == '.')
    ensures NormTime(JStr(a + [s1] + b + [s2] + c)) == None
  {
    var ab := a + [s1] + b;
    var raw := ab + [s2] + c;
    ClockCharsJoin(a, s1, b);
    ClockCharsJoin(ab, s2, c);
    ClockCharsStrip(raw);
    ColonCount(a, s1, b);
    ColonCount(ab, s2, c);
    NormTextManyParts(raw);
    NormTimeOfText(raw);
  }

  lemma ClockCharsJoin(x: string, sep: char, y: string)
    requires (ClockChars(x) || AllDigits(x)) && (ClockChars(y) || AllDigits(y)) && (sep == ':' || sep == '.')
    ensures ClockChars(x + [sep] + y)
  {
    var r := x + [sep] + y;
    forall i | 0 <= i < |r| ensures IsDigit(r[i]) || r[i] == ':' || r[i] == '.' {
      if i < |x| {
        assert r[i] == x[i];
      } else if i > |x| {
        assert r[i] == y[i - |x| - 1];
      }
    }
  }

  /** Each separator becomes one ':' of the text norm_time splits. */
  lemma ColonCount(x: string, sep: char, y: string)
    requires sep == ':' || sep == '.'
    ensures Count(ReplaceAll(x + [sep] + y, '.', ':'), ':')
         == Count(ReplaceAll(x, '.', ':'), ':') + 1 + Count(ReplaceAll(y, '.', ':'), ':')
  {
    var rx, ry := ReplaceAll(x, '.', ':'), ReplaceAll(y, '.', ':');
    var r := ReplaceAll(x + [sep] + y, '.', ':');
    assert r == rx + [':'] + ry by {
      forall i | 0 <= i < |r| ensures r[i] == (rx + [':'] + ry)[i] {
        if i < |x| {
          assert (x + [sep] + y)[i] == x[i];
        } else if i > |x| {
          assert (x + [sep] + y)[i] == y[i - |x| - 1];
        }
      }
    }
    CountAppend(rx + [':'], ry, ':');
    CountAppend(rx, [':'], ':');
  }

  /** A text with two or more separators after stripping is rejected. */
  lemma NormTextManyParts(text: string)
    requires Count(ReplaceAll(PyStrip(text), '.', ':'), ':') >= 2
    ensures NormText(text).None?
  {
  }

  /** The rejected example "9.30.1". */
  lemma NormTimeTwoDots(s: string)
    requires s == "9.30.1"
    ensures NormTime(JStr(s)) == None
  {
    assert s == s[..1] + ['.'] + s[2..4] + ['.'] + s[5..];
    NormTimeTwoSeparators(s[..1], '.', s[2..4], '.', s[5..]);
  }

  /** Hour 24 is out of range: "24:00" is rejected. */
  lemma NormTimeHour24(s: string)
    requires s == "24:00"
    ensures NormTime(JStr(s)) == None
  {
    var hs, ms := s[..2], s[3..];
    assert s == hs + [':'] + ms;
    TwoDigitValue(hs);
    NormTimeOnParts(hs, ':', ms);
  }

  // ---------------------------------------------------------------------
  // Row source

  /**
   * The records: the `data` list of an object, else the file's top-level
   * list, else none.
   */
  function RowsOf(data: Json): (rows: seq<Json>)
    ensures data.JList? ==> rows == data.items
    ensures data.JObject? && Get(data, "data").JList? ==> rows == Get(data, "data").items
    ensures !data.JList? && !(data.JObject? && Get(data, "data").JList?) ==> rows == []
  {
    if data.JObject? && Get(data, "data").JList? then Get(data, "data").items
    else if data.JList? then data.items
    else []
  }

  /** The lastUpdateDate of an object, else None. */
  function LastUpdate(data: Json): Json
  {
    if data.JObject? then Get(data, "lastUpdateDate") else JNull
  }

  // ---------------------------------------------------------------------
  // One record

  /** A record without a truthy mobileCode, or with dayOfWeekCode or seq None or absent, is skipped. */
  predicate Skips(r: Json)
  {
    !PyTruthy(Get(r, "mobileCode")) || Get(r, "dayOfWeekCode").JNull? || Get(r, "seq").JNull?
  }

  /**
   * str(v or ""): "" for a falsy value, else the value's rendering. For
   * mobileCode, which is truthy once the record is not skipped, this is
   * str(v).
   */
  function PyText(v: Json): Bound
  {
    if !PyTruthy(v) then BText("")
    else
      match PyStrText(v)
      case Some(s) => BText(s)
      case None => BRendered(v)
  }

  /** A normalised time, or NULL. */
  function TimeBound(t: Option<string>): Bound
  {
    if t.Some? then BText(t.value) else BNone
  }

  /** A coordinate: NULL when absent, None or "", else float() of it; None when float() raises. */
  function PyCoord(v: Json): Option<Bound>
  {
    if v == JNull || v == JStr("") then Some(BNone)
    else if PyFloatable(v) then Some(BCast(v, 'd'))
    else None
  }

  /** The kinds of upsert column, by position. */
  predicate IsTimeColumn(i: nat) { i == 7 || i == 11 }
  predicate IsCoordColumn(i: nat) { i == 10 || i == 18 }
  predicate IsKeyNumberColumn(i: nat) { i == 12 || i == 17 }

  /**
   * The value bound for column i of a record: text through str(v or ""),
   * a time through norm_time, a coordinate through float(), the day and
   * seq through int(); None when that conversion raises.
   */
  function PyColumn(r: Json, i: nat): Option<Bound>
    requires i < |UpsertColumns|
  {
    var v := Get(r, UpsertColumns[i]);
    if IsTimeColumn(i) then Some(TimeBound(NormTime(v)))
    else if IsCoordColumn(i) then PyCoord(v)
    else if IsKeyNumberColumn(i) then PyIntBound(v)
    else Some(PyText(v))
  }

  /**
   * The nineteen values of the upsert for a record, in column order; None
   * when a conversion raises, which happens outside the try block.
   */
  function PyPayload(r: Json): (p: Option<seq<Bound>>)
    ensures p.None? <==> exists i | 0 <= i < |UpsertColumns| :: PyColumn(r, i).None?
    ensures p.Some? ==> |p.value| == |UpsertColumns| && forall i | 0 <= i < |UpsertColumns| :: PyColumn(r, i) == Some(p.value[i])
  {
    if forall i | 0 <= i < |UpsertColumns| :: PyColumn(r, i).Some?
    then Some(seq(|UpsertColumns|, i requires 0 <= i < |UpsertColumns| => PyColumn(r, i).value))
    else None
  }

  /** Only a coordinate, the day or seq can make the payload raise. */
  lemma PayloadRaisesOnNumbers(r: Json)
    ensures PyPayload(r).None? <==>
      PyCoord(Get(r, "latitude")).None? || PyIntBound(Get(r, "dayOfWeekCode")).None?
      || PyIntBound(Get(r, "seq")).None? || PyCoord(Get(r, "longitude")).None?
  {
    assert UpsertColumns[10] == "latitude" && UpsertColumns[12] == "dayOfWeekCode";
    assert UpsertColumns[17] == "seq" && UpsertColumns[18] == "longitude";
    if PyPayload(r).None? {
      var i :| 0 <= i < |UpsertColumns| && PyColumn(r, i).None?;
      assert IsCoordColumn(i) || IsKeyNumberColumn(i);
    } else {
      assert PyColumn(r, 10).Some? && PyColumn(r, 12).Some? && PyColumn(r, 17).Some? && PyColumn(r, 18).Some?;
    }
  }

  /** The times bound for closeHour and openHour are NULL or normalised times. */
  lemma PayloadTimes(r: Json)
    requires PyPayload(r).Some?
    ensures UpsertColumns[7] == "closeHour" && UpsertColumns[11] == "openHour"
    ensures var p := PyPayload(r).value;
      forall i | 0 <= i < |p| && IsTimeColumn(i) :: p[i] == BNone || (p[i].BText? && IsClock(p[i].s))
  {
    var p := PyPayload(r).value;
    forall i | 0 <= i < |p| && IsTimeColumn(i) ensures p[i] == BNone || (p[i].BText? && IsClock(p[i].s)) {
      assert PyColumn(r, i) == Some(p[i]);
    }
  }

  /** A missing latitude or an empty longitude is bound as NULL rather than refusing the record. */
  lemma CoordinatesOptional(r: Json)
    requires Get(r, "latitude") == JNull && Get(r, "longitude") == JStr("")
    requires PyIntBound(Get(r, "dayOfWeekCode")).Some? && PyIntBound(Get(r, "seq")).Some?
    ensures PyPayload(r).Some? && PyPayload(r).value[10] == BNone && PyPayload(r).value[18] == BNone
  {
    PayloadRaisesOnNumbers(r);
    CoordinateColumns(r);
  }

  /** Columns 10 and 18 bind the coordinates. */
  lemma CoordinateColumns(r: Json)
    ensures PyColumn(r, 10) == PyCoord(Get(r, "latitude")) && PyColumn(r, 18) == PyCoord(Get(r, "longitude"))
  {
    assert UpsertColumns[10] == "latitude" && UpsertColumns[18] == "longitude";
  }

  /** int() refuses a word: a non-empty run of letters. */
  lemma PyIntTextRefusesWord(s: string)
    requires s != [] && forall i | 0 <= i < |s| :: 'A' <= s[i] <= 'Z' || 'a' <= s[i] <= 'z'
    ensures PyIntText(s).None?
  {
    forall i | 0 <= i < |s| ensures !IsPySpace(s[i]) {
    }
    TrimNoSpace(s, IsPySpace);
    assert !IsDigit(s[0]);
  }

  /** A day code that int() cannot read, such as "Mon", makes the conversion raise. */
  lemma DayCodeWordRaises(r: Json)
    requires Get(r, "dayOfWeekCode") == JStr("Mon")
    ensures PyPayload(r).None?
  {
    var w := "Mon";
    assert forall i | 0 <= i < |w| :: 'A' <= w[i] <= 'Z' || 'a' <= w[i] <= 'z';
    PyIntTextRefusesWord(w);
    PayloadRaisesOnNumbers(r);
  }

  /** The upsert's VALUES list has one `%s` per payload value. */
  lemma UpsertPlaceholders()
    ensures Count(MarkRow("%s", |UpsertColumns|), '%') == |UpsertColumns| == 19
  {
    assert Count("%s", '%') == 1;
    MarkRowCount("%s", '%', |UpsertColumns|);
  }

  // ---------------------------------------------------------------------
  // The loop over the records

  /** What `cur.execute` reports: the affected row count, or the error it raised. */
  datatype Execution = RowCount(n: int) | Raised(message: string)

  /** What happens to one record. */
  datatype Fate = Skipped | Checked | Executed(result: Execution) | Crash

  /**
   * The fate of a record: a record that is not an object crashes the loop
   * (r.get raises), one without the key is skipped, one whose conversions
   * raise crashes it, a dry run only checks the others, and a real run
   * executes them.
   */
  function FateOf(r: Json, result: Execution, dryRun: bool): Fate
  {
    if !r.JObject? then Crash
    else if Skips(r) then Skipped
    else if PyPayload(r).None? then Crash
    else if dryRun then Checked
    else Executed(result)
  }

  function Fates(rows: seq<Json>, results: seq<Execution>, dryRun: bool): (fs: seq<Fate>)
    requires |results| == |rows|
    ensures |fs| == |rows| && forall i | 0 <= i < |rows| :: fs[i] == FateOf(rows[i], results[i], dryRun)
  {
    seq(|rows|, i requires 0 <= i < |rows| => FateOf(rows[i], results[i], dryRun))
  }

  /** The importer's counters. */
  datatype Stats = Stats(read: nat, inserted: nat, updated: nat, noChange: nat, skipped: nat, errors: nat)

  /**
   * The counters after one more record: read always grows; a skipped
   * record counts as skipped; an executed one as inserted (row count 1),
   * updated (2), unchanged (anything else) or an error.
   */
  function Next(st: Stats, f: Fate): (n: Stats)
    ensures n.read == st.read + 1
  {
    var st := st.(read := st.read + 1);
    match f
    case Skipped => st.(skipped := st.skipped + 1)
    case Checked => st
    case Crash => st
    case Executed(RowCount(n)) =>
      if n == 1 then st.(inserted := st.inserted + 1)
      else if n == 2 then st.(updated := st.updated + 1)
      else st.(noChange := st.noChange + 1)
    case Executed(Raised(_)) => st.(errors := st.errors + 1)
  }

  /** The counters after a sequence of fates. */
  function Tally(fs: seq<Fate>): (st: Stats)
    ensures st.read == |fs|
    ensures st.read == st.inserted + st.updated + st.noChange + st.skipped + st.errors + Count(fs, Checked) + Count(fs, Crash)
  {
    if fs == [] then Stats(0, 0, 0, 0, 0, 0)
    else
      var init, f := fs[..|fs| - 1], fs[|fs| - 1];
      assert fs == init + [f];
      CountAppend(init, [f], Checked);
      CountAppend(init, [f], Crash);
      Next(Tally(init), f)
  }

  /** A sampled error: the record's index, its key and the error's message. */
  datatype ErrSample = ErrSample(index: nat, mobileCode: Json, dayOfWeekCode: Json, seqNo: Json, error: string)

  /** The sample for an execution error at record i. */
  function SampleOf(rows: seq<Json>, i: nat, message: string): ErrSample
    requires i < |rows|
  {
    ErrSample(i, Get(rows[i], "mobileCode"), Get(rows[i], "dayOfWeekCode"), Get(rows[i], "seq"), message)
  }

  /** The errors of the executed records, in order. */
  function ErrorLog(rows: seq<Json>, fs: seq<Fate>): (log: seq<ErrSample>)
    requires |fs| == |rows|
    ensures |log| <= |fs|
    ensures (forall i | 0 <= i < |fs| :: !fs[i].Executed?) ==> log == []
  {
    if fs == [] then []
    else
      var n := |fs| - 1;
      var rest := ErrorLog(rows[..n], fs[..n]);
      if fs[n].Executed? && fs[n].result.Raised? then rest + [SampleOf(rows, n, fs[n].result.message)] else rest
  }

  /** The first five entries of a log. */
  function FirstFive(log: seq<ErrSample>): (r: seq<ErrSample>)
    ensures |r| <= 5 && |r| <= |log| && r == log[..|r|]
    ensures |log| >= 5 ==> |r| == 5
  {
    if |log| <= 5 then log else log[..5]
  }

  /** The payloads sent to the database, in order. */
  function Sent(rows: seq<Json>, fs: seq<Fate>): (sent: seq<seq<Bound>>)
    requires |fs| == |rows|
    ensures (forall i | 0 <= i < |fs| :: !fs[i].Executed?) ==> sent == []
    ensures forall i | 0 <= i < |sent| :: |sent[i]| == |UpsertColumns|
  {
    if fs == [] then []
    else
      var n := |fs| - 1;
      var rest := Sent(rows[..n], fs[..n]);
      if fs[n].Executed? && PyPayload(rows[n]).Some? then rest + [PyPayload(rows[n]).value] else rest
  }

  /** The index of the first record that crashes the loop, if any. */
  function FirstCrash(fs: seq<Fate>): (r: Option<nat>)
    ensures r.None? <==> Crash !in fs
    ensures r.Some? ==> r.value < |fs| && fs[r.value] == Crash && Crash !in fs[..r.value]
  {
    if fs == [] then None
    else if fs[0] == Crash then Some(0)
    else
      var rest := FirstCrash(fs[1..]);
      if rest.None? then None
      else
        assert fs[..rest.value + 1] == [fs[0]] + fs[1..][..rest.value];
        Some(rest.value + 1)
  }

  /** How a run of the importer ends. */
  datatype Run =
    | NoRecords
      // exits before connecting to the database
    | Crashed(at: nat, began: bool, sent: seq<seq<Bound>>)
      // an exception escaped at record `at`, after the payloads `sent` of the
      // records before it were executed; nothing is committed
    | Finished(stats: Stats, lastUpdate: Json, samples: seq<ErrSample>, began: bool, committed: bool, sent: seq<seq<Bound>>)

  /** The counters, the error log and the payloads sent after one more record. */
  lemma PrefixNext(rows: seq<Json>, fs: seq<Fate>, i: nat)
    requires |fs| == |rows| && i < |fs|
    ensures Tally(fs[..i + 1]) == Next(Tally(fs[..i]), fs[i])
    ensures ErrorLog(rows[..i + 1], fs[..i + 1])
         == ErrorLog(rows[..i], fs[..i]) + (if fs[i].Executed? && fs[i].result.Raised? then [SampleOf(rows, i, fs[i].result.message)] else [])
    ensures Sent(rows[..i + 1], fs[..i + 1])
         == Sent(rows[..i], fs[..i]) + (if fs[i].Executed? && PyPayload(rows[i]).Some? then [PyPayload(rows[i]).value] else [])
  {
    assert rows[..i + 1][..i] == rows[..i] && fs[..i + 1][..i] == fs[..i];
  }

  /** Keeping the first five of a log that grows by one entry. */
  lemma FirstFiveNext(log: seq<ErrSample>, e: ErrSample)
    ensures FirstFive(log + [e]) == if |FirstFive(log)| < 5 then FirstFive(log) + [e] else FirstFive(log)
  {
    if |log| >= 5 {
      assert (log + [e])[..5] == log[..5];
    }
  }

  /** The record at idx is the first to crash when none before it does. */
  lemma CrashFound(fs: seq<Fate>, idx: nat)
    requires idx < |fs| && fs[idx] == Crash && Crash !in fs[..idx]
    ensures FirstCrash(fs) == Some(idx)
  {
    assert Crash in fs;
  }

  /** The prefix stays free of crashes when the next record does not crash. */
  lemma NoCrashNext(fs: seq<Fate>, idx: nat)
    requires idx < |fs| && fs[idx] != Crash && Crash !in fs[..idx]
    ensures Crash !in fs[..idx + 1]
  {
    assert fs[..idx + 1] == fs[..idx] + [fs[idx]];
  }

  /** No record crashes when none of them all does. */
  lemma NoCrash(fs: seq<Fate>)
    requires Crash !in fs
    ensures FirstCrash(fs).None?
  {
  }

  /**
   * The key check and the payload of one record, as the loop does them:
   * the fate of the record and, when it is to be executed, the payload.
   */
  method CheckRecord(r: Json, dryRun: bool, result: Execution) returns (fate: Fate, payload: seq<Bound>)
    ensures fate == FateOf(r, result, dryRun)
    ensures fate.Executed? ==> PyPayload(r) == Some(payload)
  {
    fate, payload := Crash, [];
    if !r.JObject? {
      return;
    }
    var mobileCode, dayOfWeekCode, sq := Get(r, "mobileCode"), Get(r, "dayOfWeekCode"), Get(r, "seq");
    if !PyTruthy(mobileCode) || dayOfWeekCode.JNull? || sq.JNull? {
      return Skipped, [];
    }
    var p := PyPayload(r);
    if p.None? {
      return;
    }
    if dryRun {
      return Checked, [];
    }
    fate, payload := Executed(result), p.value;
  }

  /**
   * The try block for one record that is not skipped: an executed payload
   * is sent, and an error it raises is sampled while fewer than five are.
   */
  method Record(rows: seq<Json>, ghost fs: seq<Fate>, idx: nat, fate: Fate, payload: seq<Bound>, samples: seq<ErrSample>, sent: seq<seq<Bound>>)
    returns (samples': seq<ErrSample>, sent': seq<seq<Bound>>)
    requires |fs| == |rows| && idx < |fs| && fate == fs[idx]
    requires fate.Executed? ==> PyPayload(rows[idx]) == Some(payload)
    requires samples == FirstFive(ErrorLog(rows[..idx], fs[..idx])) && sent == Sent(rows[..idx], fs[..idx])
    ensures samples' == FirstFive(ErrorLog(rows[..idx + 1], fs[..idx + 1]))
    ensures sent' == Sent(rows[..idx + 1], fs[..idx + 1])
  {
    PrefixNext(rows, fs, idx);
    samples', sent' := samples, sent;
    if fate.Executed? {
      sent' := sent + [payload];
      if fate.result.Raised? {
        var e := SampleOf(rows, idx, fate.result.message);
        FirstFiveNext(ErrorLog(rows[..idx], fs[..idx]), e);
        if |samples| < 5 {
          samples' := samples + [e];
        }
      }
    }
  }

  /**
   * The importer's main loop, over the records in order: every record is
   * read; a record without the key is skipped; a dry run only builds the
   * payload; a real run executes it and counts the row count 1 as an
   * insert, 2 as an update, anything else as unchanged, and an error as an
   * error, keeping the first five errors as samples. The transaction is
   * begun and committed only in a real run, and an exception outside the
   * try block ends the run with nothing committed.
   */
  method RunImport(data: Json, dryRun: bool, results: seq<Execution>) returns (run: Run)
    requires |results| == |RowsOf(data)|
    ensures run.NoRecords? <==> RowsOf(data) == []
    ensures run.Crashed? <==> RowsOf(data) != [] && FirstCrash(Fates(RowsOf(data), results, dryRun)).Some?
    ensures run.Crashed? ==> run.at == FirstCrash(Fates(RowsOf(data), results, dryRun)).value && run.began == !dryRun
    ensures run.Crashed? ==> run.at <= |RowsOf(data)|
    ensures run.Crashed? ==> run.at <= |RowsOf(data)| && run.sent == Sent(RowsOf(data)[..run.at], Fates(RowsOf(data), results, dryRun)[..run.at])
    ensures run.Finished? ==>
      var rows := RowsOf(data);
      var fs := Fates(rows, results, dryRun);
      && run.stats == Tally(fs) && run.samples == FirstFive(ErrorLog(rows, fs)) && run.sent == Sent(rows, fs)
      && run.began == run.committed == !dryRun && run.lastUpdate == LastUpdate(data)
  {
    var rows := RowsOf(data);
    if rows == [] {
      return NoRecords;
    }
    var began := !dryRun;
    var stats := Stats(0, 0, 0, 0, 0, 0);
    var samples: seq<ErrSample> := [];
    var sent: seq<seq<Bound>> := [];
    ghost var fs := Fates(rows, results, dryRun);
    var idx := 0;
    while idx < |rows|
      invariant 0 <= idx <= |rows|
      invariant Crash !in fs[..idx]
      invariant stats == Tally(fs[..idx])
      invariant samples == FirstFive(ErrorLog(rows[..idx], fs[..idx]))
      invariant sent == Sent(rows[..idx], fs[..idx])
    {
      var fate, payload := CheckRecord(rows[idx], dryRun, results[idx]);
      assert fate == fs[idx];
      PrefixNext(rows, fs, idx);
      if fate == Crash {
        CrashFound(fs, idx);
        return Crashed(idx, began, sent);
      }
      NoCrashNext(fs, idx);
      stats := Next(stats, fate);
      samples, sent := Record(rows, fs, idx, fate, payload, samples, sent);
      idx := idx + 1;
    }
    assert rows[..idx] == rows && fs[..idx] == fs;
    NoCrash(fs);
    run := Finished(stats, LastUpdate(data), samples, began, !dryRun, sent);
  }

  /**
   * In a finished real run every record is accounted for exactly once:
   * read = inserted + updated + unchanged + skipped + errors.
   */
  lemma RealRunBalances(rows: seq<Json>, results: seq<Execution>)
    requires |results| == |rows| && Crash !in Fates(rows, results, false)
    ensures var st := Tally(Fates(rows, results, false));
      st.read == |rows| == st.inserted + st.updated + st.noChange + st.skipped + st.errors
  {
    var fs := Fates(rows, results, false);
    assert Checked !in fs;
    CountAbsent(fs, Checked);
    CountAbsent(fs, Crash);
  }

  /** With no execution, only read and skipped can grow. */
  lemma {:induction false} NoExecutionNoCounts(fs: seq<Fate>)
    requires forall i | 0 <= i < |fs| :: !fs[i].Executed?
    ensures Tally(fs).inserted == Tally(fs).updated == Tally(fs).noChange == Tally(fs).errors == 0
  {
    if fs != [] {
      NoExecutionNoCounts(fs[..|fs| - 1]);
    }
  }

  /** A dry run executes nothing: it sends nothing, logs no error and counts only read and skipped. */
  lemma DryRunExecutesNothing(rows: seq<Json>, results: seq<Execution>)
    requires |results| == |rows|
    ensures var fs := Fates(rows, results, true);
      && Sent(rows, fs) == [] && ErrorLog(rows, fs) == []
      && Tally(fs).inserted == Tally(fs).updated == Tally(fs).noChange == Tally(fs).errors == 0
  {
    NoExecutionNoCounts(Fates(rows, results, true));
  }

  /** A record without the key is skipped and never executed, in a dry run or a real one. */
  lemma SkippedNeverExecuted(r: Json, result: Execution, dryRun: bool)
    requires r.JObject? && Skips(r)
    ensures FateOf(r, result, dryRun) == Skipped
  {
  }
}
