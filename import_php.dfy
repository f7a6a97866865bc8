/**
 * The PHP importer (db/import.php): it decodes the JSON file into arrays,
 * picks the records, skips those without a mobileCode, coordinates, a day
 * or a seq, binds the nineteen values of the upsert with a type string,
 * executes it, and commits the one transaction at the end.
 *
 * Errors are thrown, not returned: mysqli reports in strict mode, so a
 * failed execute throws, and bind_param throws when the type string does
 * not fit the variables. Nothing catches them, so the script stops with
 * the transaction uncommitted. Which executions fail is an input.
 */
module ImportPhp {
  import opened Common
  import opened Records
  import ImportPy

  // ---------------------------------------------------------------------
  // PHP semantics the importer relies on

  /** is_array after json_decode(..., true): lists and objects both decode to arrays. */
  predicate IsArray(v: Json) { v.JList? || v.JObject? }

  /** The values of an array, in order, as foreach visits them. */
  function ArrayValues(v: Json): (vs: seq<Json>)
    requires IsArray(v)
    ensures v.JList? ==> vs == v.items
    ensures v.JObject? ==> |vs| == |v.entries| && forall i | 0 <= i < |vs| :: vs[i] == v.entries[i].1
  {
    if v.JList? then v.items else seq(|v.entries|, i requires 0 <= i < |v.entries| => v.entries[i].1)
  }

  /** isset($r[k]): the record is an array holding k with a value other than null. */
  predicate IsSet(r: Json, k: string) { !Get(r, k).JNull? }

  /**
   * (string)$v, and equally (string)($v ?? ''): null and false give "",
   * true gives "1", a number its decimal rendering, an array "Array" (with
   * a warning). A float's rendering is not computed.
   */
  function PhpString(v: Json): Bound
  {
    match v
    case JNull => BText("")
    case JBool(b) => BText(if b then "1" else "")
    case JInt(i) => BText(IntText(i))
    case JFloat(_) => BRendered(v)
    case JStr(s) => BText(s)
    case JList(_) => BText("Array")
    case JObject(_) => BText("Array")
  }

  // ---------------------------------------------------------------------
  // Row source

  /** What reading and decoding the JSON file gives. */
  datatype JsonFile = Missing | Unparsable | Parsed(value: Json)

  /**
   * The records: the `data` array when it is set and an array, else the
   * decoded value itself when it is an array (an object's values
   * included), else none.
   */
  function PhpRows(parsed: Json): (rows: Option<seq<Json>>)
    ensures IsArray(Get(parsed, "data")) ==> rows == Some(ArrayValues(Get(parsed, "data")))
    ensures rows.None? <==> !IsArray(Get(parsed, "data")) && !IsArray(parsed)
  {
    if IsArray(Get(parsed, "data")) then Some(ArrayValues(Get(parsed, "data")))
    else if IsArray(parsed) then Some(ArrayValues(parsed))
    else None
  }

  // ---------------------------------------------------------------------
  // One record

  predicate IsFloatColumn(i: nat) { i == 10 || i == 18 }
  predicate IsIntColumn(i: nat) { i == 12 || i == 17 }

  /**
   * The value of column i: a coordinate cast to float, the day and seq
   * cast to int, each NULL when not set; every other column cast to
   * string (mobileCode through isset, the rest through ??, which agree).
   */
  function PhpColumn(r: Json, i: nat): Bound
    requires i < |UpsertColumns|
  {
    var k := UpsertColumns[i];
    if IsFloatColumn(i) || IsIntColumn(i) then
      (if IsSet(r, k) then BCast(Get(r, k), if IsFloatColumn(i) then 'd' else 'i') else BNone)
    else PhpString(Get(r, k))
  }

  /** The nineteen values a record binds, in column order. */
  function PhpValues(r: Json): (vs: seq<Bound>)
    ensures |vs| == |UpsertColumns| && forall i | 0 <= i < |vs| :: vs[i] == PhpColumn(r, i)
  {
    seq(|UpsertColumns|, i requires 0 <= i < |UpsertColumns| => PhpColumn(r, i))
  }

  /** A record whose mobileCode casts to "", or without latitude, longitude, seq or dayOfWeekCode, is skipped. */
  predicate PhpSkips(r: Json)
  {
    PhpString(Get(r, "mobileCode")) == BText("")
    || !IsSet(r, "latitude") || !IsSet(r, "longitude") || !IsSet(r, "seq") || !IsSet(r, "dayOfWeekCode")
  }

  /** A record that is not an array has nothing set and is always skipped. */
  lemma NonArrayRecordSkipped(r: Json)
    requires !r.JObject?
    ensures PhpSkips(r)
  {
  }

  /** A kept record binds no NULL: its coordinates, day and seq are all casts. */
  lemma KeptRecordHasNumbers(r: Json)
    requires !PhpSkips(r)
    ensures forall i | 0 <= i < |UpsertColumns| && (IsFloatColumn(i) || IsIntColumn(i)) :: PhpValues(r)[i].BCast?
  {
    assert UpsertColumns[10] == "latitude" && UpsertColumns[18] == "longitude";
    assert UpsertColumns[12] == "dayOfWeekCode" && UpsertColumns[17] == "seq";
  }

  // ---------------------------------------------------------------------
  // bind_param

  /** The type character a bound value asks for: 'd' or 'i' for a cast, 's' for text. */
  function KindOf(b: Bound): char
  {
    match b
    case BCast(_, kind) => kind
    case BInt(_) => 'i'
    case _ => 's'
  }

  /**
   * bind_param accepts a type string of exactly one character per
   * variable, each one of "i", "d", "s" and "b"; otherwise it throws.
   */
  predicate BindOk(types: string, values: seq<Bound>)
  {
    |types| == |values| && forall i | 0 <= i < |types| :: types[i] in "idsb"
  }

  /** The type string the importer passes: twenty characters for nineteen variables. */
  const AsWrittenTypes: string := "ssssssssssdsissssiid"

  /** The type string of the nineteen columns: one character per variable, of its own kind. */
  const CorrectedTypes: string := "ssssssssssdsissssid"

  /** As written, bind_param throws for every record that is not skipped. */
  lemma AsWrittenBindThrows(r: Json)
    ensures |AsWrittenTypes| == 20 && |PhpValues(r)| == 19
    ensures !BindOk(AsWrittenTypes, PhpValues(r))
  {
  }

  /** The kind of column i: 'd' for the coordinates, 'i' for the day and seq, 's' for the rest. */
  function ColumnKind(i: nat): char
  {
    if IsFloatColumn(i) then 'd' else if IsIntColumn(i) then 'i' else 's'
  }

  /** Every value of a kept record is of its column's kind. */
  lemma ValuesOfColumnKind(r: Json)
    requires !PhpSkips(r)
    ensures forall i | 0 <= i < |UpsertColumns| :: KindOf(PhpValues(r)[i]) == ColumnKind(i)
  {
    KeptRecordHasNumbers(r);
  }

  /** The corrected type string spells out the column kinds, all of them accepted by bind_param. */
  lemma CorrectedTypesSpellKinds()
    ensures |CorrectedTypes| == |UpsertColumns|
    ensures forall i | 0 <= i < |CorrectedTypes| :: CorrectedTypes[i] == ColumnKind(i) && CorrectedTypes[i] in "idsb"
  {
  }

  /**
   * The corrected type string binds every kept record, and each of its
   * characters is the kind of the value it binds.
   */
  lemma CorrectedTypesFit(r: Json)
    requires !PhpSkips(r)
    ensures BindOk(CorrectedTypes, PhpValues(r))
    ensures forall i | 0 <= i < |CorrectedTypes| :: CorrectedTypes[i] == KindOf(PhpValues(r)[i])
  {
    ValuesOfColumnKind(r);
    CorrectedTypesSpellKinds();
  }

  /** The upsert's VALUES list has one `?` per bound variable. */
  lemma UpsertPlaceholders()
    ensures Count(MarkRow("?", |UpsertColumns|), '?') == |UpsertColumns| == |CorrectedTypes|
  {
    assert Count("?", '?') == 1;
    MarkRowCount("?", '?', |UpsertColumns|);
  }

  // ---------------------------------------------------------------------
  // The loop over the records

  /** What happens to one record. */
  datatype Fate = Skipped | Upserted | BindThrew | ExecuteThrew

  predicate Throws(f: Fate) { f == BindThrew || f == ExecuteThrew }

  /**
   * The fate of record idx: skipped, or bound and executed; binding with an
   * unfit type string throws, and so does an execution that fails.
   */
  function FateOf(r: Json, idx: nat, types: string, failing: set<nat>): Fate
  {
    if PhpSkips(r) then Skipped
    else if !BindOk(types, PhpValues(r)) then BindThrew
    else if idx in failing then ExecuteThrew
    else Upserted
  }

  function Fates(rows: seq<Json>, types: string, failing: set<nat>): (fs: seq<Fate>)
    ensures |fs| == |rows| && forall i | 0 <= i < |rows| :: fs[i] == FateOf(rows[i], i, types, failing)
  {
    seq(|rows|, i requires 0 <= i < |rows| => FateOf(rows[i], i, types, failing))
  }

  /** The index of the first record whose bind or execution throws, if any. */
  function FirstThrow(fs: seq<Fate>): (r: Option<nat>)
    ensures r.None? <==> forall i | 0 <= i < |fs| :: !Throws(fs[i])
    ensures r.Some? ==> r.value < |fs| && Throws(fs[r.value]) && forall i | 0 <= i < r.value :: !Throws(fs[i])
  {
    if fs == [] then None
    else if Throws(fs[0]) then Some(0)
    else
      var rest := FirstThrow(fs[1..]);
      if rest.None? then None else Some(rest.value + 1)
  }

  /** The payloads executed without error, in order. */
  function UpsertedValues(rows: seq<Json>, fs: seq<Fate>): (vs: seq<seq<Bound>>)
    requires |fs| == |rows|
    ensures |vs| == Count(fs, Upserted)
  {
    if fs == [] then []
    else
      var n := |fs| - 1;
      assert fs == fs[..n] + [fs[n]];
      CountAppend(fs[..n], [fs[n]], Upserted);
      UpsertedValues(rows[..n], fs[..n]) + (if fs[n] == Upserted then [PhpValues(rows[n])] else [])
  }

  /** The line echoed at the end of a completed import. */
  function Summary(ok: nat, skip: nat): string
  {
    "Import completed. Upserted: " + DecimalString(ok) + ", Skipped: " + DecimalString(skip) + "\n"
  }

  /** Why the script stops before the transaction begins. */
  datatype ExitReason = FileNotFound | InvalidJson | NoRecordArray

  /** The text the script exits with, for a JSON file at the given path. */
  function ExitMessage(reason: ExitReason, jsonFile: string): string
  {
    match reason
    case FileNotFound => "JSON file not found: " + jsonFile + "\n"
    case InvalidJson => "Invalid JSON file\n"
    case NoRecordArray => "JSON does not contain an array of records\n"
  }

  /** How a run of the importer ends. */
  datatype Run =
    | Exited(reason: ExitReason)
      // stops before the transaction begins
    | Threw(at: nat, ok: nat, skip: nat, upserted: seq<seq<Bound>>)
      // an uncaught error at record `at`; the transaction is begun and never committed
    | Completed(ok: nat, skip: nat, upserted: seq<seq<Bound>>, output: string)
      // the transaction is committed and the summary echoed

  /** The counts and the executed payloads after one more record that does not throw. */
  lemma PrefixNext(rows: seq<Json>, fs: seq<Fate>, i: nat)
    requires |fs| == |rows| && i < |fs|
    ensures Count(fs[..i + 1], Upserted) == Count(fs[..i], Upserted) + (if fs[i] == Upserted then 1 else 0)
    ensures Count(fs[..i + 1], Skipped) == Count(fs[..i], Skipped) + (if fs[i] == Skipped then 1 else 0)
    ensures UpsertedValues(rows[..i + 1], fs[..i + 1])
         == UpsertedValues(rows[..i], fs[..i]) + (if fs[i] == Upserted then [PhpValues(rows[i])] else [])
  {
    assert fs[..i + 1] == fs[..i] + [fs[i]];
    assert rows[..i + 1][..i] == rows[..i];
    CountAppend(fs[..i], [fs[i]], Upserted);
    CountAppend(fs[..i], [fs[i]], Skipped);
  }

  /** The record at idx is the first to throw when none before it does. */
  lemma ThrowFound(fs: seq<Fate>, idx: nat)
    requires idx < |fs| && Throws(fs[idx]) && BindThrew !in fs[..idx] && ExecuteThrew !in fs[..idx]
    ensures FirstThrow(fs) == Some(idx)
  {
    forall i | 0 <= i < idx ensures !Throws(fs[i]) {
      assert fs[i] == fs[..idx][i];
    }
  }

  /** The prefix stays free of throws when the next record does not throw. */
  lemma NoThrowNext(fs: seq<Fate>, idx: nat)
    requires idx < |fs| && !Throws(fs[idx]) && BindThrew !in fs[..idx] && ExecuteThrew !in fs[..idx]
    ensures BindThrew !in fs[..idx + 1] && ExecuteThrew !in fs[..idx + 1]
  {
    assert fs[..idx + 1] == fs[..idx] + [fs[idx]];
  }

  /** A sequence of fates without either throw has no first throw. */
  lemma NoThrow(fs: seq<Fate>)
    requires BindThrew !in fs && ExecuteThrew !in fs
    ensures FirstThrow(fs).None?
  {
  }

  /** One record as the loop body handles it: its fate and, when kept, its values. */
  method ImportRecord(r: Json, idx: nat, types: string, failing: set<nat>) returns (fate: Fate, values: seq<Bound>)
    ensures fate == FateOf(r, idx, types, failing)
    ensures fate == Upserted ==> values == PhpValues(r)
  {
    values := PhpValues(r);
    if PhpString(Get(r, "mobileCode")) == BText("") || !IsSet(r, "latitude") || !IsSet(r, "longitude")
      || !IsSet(r, "seq") || !IsSet(r, "dayOfWeekCode") {
      return Skipped, values;
    }
    if !BindOk(types, values) {
      return BindThrew, values;
    }
    if idx in failing {
      return ExecuteThrew, values;
    }
    fate := Upserted;
  }

  /**
   * The whole script: the file must exist and decode to something other
   * than null, and hold an array of records; then the records are
   * imported inside one transaction.
   */
  method RunImport(file: JsonFile, types: string, failing: set<nat>) returns (run: Run)
    ensures file.Missing? <==> run == Exited(FileNotFound)
    ensures (file.Unparsable? || file == Parsed(JNull)) <==> run == Exited(InvalidJson)
    ensures file.Parsed? && file.value != JNull && PhpRows(file.value).None? <==> run == Exited(NoRecordArray)
    ensures file.Parsed? && file.value != JNull && PhpRows(file.value).Some? ==>
      run == Outcome(PhpRows(file.value).value, types, failing)
  {
    if file.Missing? {
      return Exited(FileNotFound);
    }
    if file.Unparsable? || file.value == JNull {
      return Exited(InvalidJson);
    }
    var found := PhpRows(file.value);
    if found.None? {
      return Exited(NoRecordArray);
    }
    run := ImportRows(found.value, types, failing);
  }

  /**
   * How importing the records ends: at the first record that throws, with
   * the counts so far, or committed, with the counts of all records.
   */
  function Outcome(rows: seq<Json>, types: string, failing: set<nat>): (run: Run)
    ensures !run.Exited?
    ensures run.Completed? ==> run.ok + run.skip == |rows|
    ensures run.Threw? ==> run.at < |rows| && run.ok + run.skip == run.at
  {
    var fs := Fates(rows, types, failing);
    match FirstThrow(fs)
    case Some(at) =>
      NoThrowCounts(fs, at);
      Threw(at, Count(fs[..at], Upserted), Count(fs[..at], Skipped), UpsertedValues(rows[..at], fs[..at]))
    case None =>
      NoThrowCounts(fs, |fs|);
      assert fs[..|fs|] == fs;
      Completed(Count(fs, Upserted), Count(fs, Skipped), UpsertedValues(rows, fs), Summary(Count(fs, Upserted), Count(fs, Skipped)))
  }

  /** The counters after a record that is skipped (skip++) or upserted (ok++). */
  method Account(rows: seq<Json>, ghost fs: seq<Fate>, idx: nat, fate: Fate, values: seq<Bound>, ok: nat, skip: nat, upserted: seq<seq<Bound>>)
    returns (ok': nat, skip': nat, upserted': seq<seq<Bound>>)
    requires |fs| == |rows| && idx < |fs| && fate == fs[idx] && !Throws(fate)
    requires fate == Upserted ==> values == PhpValues(rows[idx])
    requires ok == Count(fs[..idx], Upserted) && skip == Count(fs[..idx], Skipped)
    requires upserted == UpsertedValues(rows[..idx], fs[..idx])
    ensures ok' == Count(fs[..idx + 1], Upserted) && skip' == Count(fs[..idx + 1], Skipped)
    ensures upserted' == UpsertedValues(rows[..idx + 1], fs[..idx + 1])
  {
    PrefixNext(rows, fs, idx);
    if fate == Skipped {
      ok', skip', upserted' := ok, skip + 1, upserted;
    } else {
      ok', skip', upserted' := ok + 1, skip, upserted + [values];
    }
  }

  /**
   * The transaction: every record is skipped or bound and executed, and
   * the transaction is committed with a summary of the counts. The first
   * error thrown ends the run uncommitted.
   */
  method ImportRows(rows: seq<Json>, types: string, failing: set<nat>) returns (run: Run)
    ensures run == Outcome(rows, types, failing)
  {
    ghost var fs := Fates(rows, types, failing);
    var ok, skip := 0, 0;
    var upserted: seq<seq<Bound>> := [];
    var idx := 0;
    while idx < |rows|
      invariant 0 <= idx <= |rows|
      invariant BindThrew !in fs[..idx] && ExecuteThrew !in fs[..idx]
      invariant ok == Count(fs[..idx], Upserted) && skip == Count(fs[..idx], Skipped)
      invariant upserted == UpsertedValues(rows[..idx], fs[..idx])
    {
      var fate, values := ImportRecord(rows[idx], idx, types, failing);
      assert fate == fs[idx];
      if fate == BindThrew || fate == ExecuteThrew {
        ThrowFound(fs, idx);
        return Threw(idx, ok, skip, upserted);
      }
      NoThrowNext(fs, idx);
      ok, skip, upserted := Account(rows, fs, idx, fate, values, ok, skip, upserted);
      idx := idx + 1;
    }
    assert rows[..idx] == rows && fs[..idx] == fs;
    NoThrow(fs);
    run := Completed(ok, skip, upserted, Summary(ok, skip));
  }

  // ---------------------------------------------------------------------
  // Properties of whole runs

  /**
   * As written, nothing is ever upserted: the run throws at the first
   * record that is not skipped, and completes only when every record is
   * skipped.
   */
  lemma AsWrittenNeverUpserts(rows: seq<Json>, failing: set<nat>)
    ensures var fs := Fates(rows, AsWrittenTypes, failing);
      && Count(fs, Upserted) == 0
      && (FirstThrow(fs).None? <==> forall i | 0 <= i < |rows| :: PhpSkips(rows[i]))
      && (FirstThrow(fs).Some? ==> !PhpSkips(rows[FirstThrow(fs).value]))
  {
    var fs := Fates(rows, AsWrittenTypes, failing);
    forall i | 0 <= i < |rows| ensures fs[i] != Upserted && (fs[i] == Skipped <==> PhpSkips(rows[i])) && (Throws(fs[i]) <==> !PhpSkips(rows[i])) {
      AsWrittenBindThrows(rows[i]);
    }
    assert Upserted !in fs;
    CountAbsent(fs, Upserted);
  }

  /**
   * With the corrected type string and no failing execution, the run
   * completes and every record is either upserted or skipped.
   */
  lemma CorrectedCompletes(rows: seq<Json>)
    ensures var fs := Fates(rows, CorrectedTypes, {});
      && FirstThrow(fs).None?
      && Count(fs, Upserted) + Count(fs, Skipped) == |rows|
  {
    var fs := Fates(rows, CorrectedTypes, {});
    forall i | 0 <= i < |rows| ensures fs[i] == Skipped || fs[i] == Upserted {
      if !PhpSkips(rows[i]) {
        CorrectedTypesFit(rows[i]);
      }
    }
    TwoFatesCount(fs);
  }

  /** Before the first throw every record was either upserted or skipped. */
  lemma NoThrowCounts(fs: seq<Fate>, n: nat)
    requires n <= |fs| && forall i | 0 <= i < n :: !Throws(fs[i])
    ensures Count(fs[..n], Upserted) + Count(fs[..n], Skipped) == n
  {
    var p := fs[..n];
    forall i | 0 <= i < |p| ensures p[i] == Skipped || p[i] == Upserted {
      assert !Throws(fs[i]);
    }
    TwoFatesCount(p);
  }

  lemma {:induction false} TwoFatesCount(fs: seq<Fate>)
    requires forall i | 0 <= i < |fs| :: fs[i] == Skipped || fs[i] == Upserted
    ensures Count(fs, Upserted) + Count(fs, Skipped) == |fs|
  {
    if fs != [] {
      TwoFatesCount(fs[1..]);
    }
  }

  /**
   * An empty array of records is not refused: the run commits an empty
   * transaction and reports zero of each, where the Python importer stops
   * with "No records to import".
   */
  lemma EmptyArrayCompletes(parsed: Json)
    requires parsed == JList([])
    ensures PhpRows(parsed) == Some([])
    ensures FirstThrow(Fates([], CorrectedTypes, {})).None? && Count(Fates([], AsWrittenTypes, {}), Upserted) == 0
    ensures ImportPy.RowsOf(parsed) == []
  {
  }

  /**
   * The two importers disagree on which records to keep: a mobileCode of 0
   * casts to "0" and is kept here, where Python finds it falsy and skips
   * the record; and a record without a latitude is skipped here, where
   * Python binds NULL.
   */
  lemma SkipRulesDiffer(r: Json)
    requires r.JObject?
    ensures Get(r, "mobileCode") == JInt(0) && IsSet(r, "latitude") && IsSet(r, "longitude") && IsSet(r, "seq") && IsSet(r, "dayOfWeekCode")
      ==> !PhpSkips(r) && ImportPy.Skips(r)
    ensures !IsSet(r, "latitude") ==> PhpSkips(r)
  {
    if Get(r, "mobileCode") == JInt(0) {
      assert IntText(0) == DecimalString(0) == "0";
    }
  }
}
