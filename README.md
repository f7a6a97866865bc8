# HKPO mobile post office API and importers, in Dafny

This project models the data path of a small Hong Kong Post "mobile post
office" service. It has four parts.

- **The Express API** in `server.mjs`. It reads the `mobilepost` table with a
  filtered search, reads, creates, partially updates and deletes single
  records, and normalises opening times with `normHHMM`.
- **The older copy of the API** in `backup.mjs`. It registers its routes in a
  different order, and its search refuses a malformed `openAt` instead of
  ignoring it. Its PUT handler calls a `normHHMM` that does not exist in that
  file.
- **The Python importer** in `db/import.py`. It loads the published JSON and
  upserts each record inside one transaction. It counts inserted, updated,
  unchanged, skipped and failed records, and keeps up to five error samples.
- **The PHP importer** in `db/import.php`. It does the same import with
  mysqli prepared statements.

Modules:

- `Common`: digits, decimal rendering, `Count`, `Split`/`Join`, trimming and
  replacing.
- `Js`: JavaScript values, `String(v)`, truthiness, `trim`, and what
  `Number.isInteger(Number(v))` decides.
- `Api`: the column names, the updatable fields, clock strings, query
  parameters, WHERE clauses, and rows.
- `Sql`: the statements the handlers send and their `?` placeholders.
- `Http`: replies from the store, responses, and Express route dispatch.
- `Server`: `server.mjs`.
- `Backup`: `backup.mjs`.
- `Records`: the parsed JSON values of the importers, and the upsert columns.
- `ImportPy`: `db/import.py`.
- `ImportPhp`: `db/import.php`.

## What the model covers, and how

**The store is an input.** A handler never talks to MySQL in this model.
It is a function or method that takes the store's reply as a parameter: a
`Reply<T>` that is either `Answered(value)` or `Raised(message)`. It returns
a `Handled` value, which holds the statements it sent and the response it
gives. So "refused before any store access" reads as `sent == []`. A few
lemmas also run a handler over a `Table` (a map from id to row) to relate
it to what the table holds, for example `DeleteTwice`.

**The importers.** The outcome of each `execute` is likewise an input:
`results` for the Python importer, and the set `failing` of record indexes
whose `execute` throws for the PHP one. Each import loop is a `while` loop
whose invariants tie its counters, its error samples and the values it sent
to functions over the prefix of records already handled. Each method's
postcondition states those functions over all the records.

**What the API sends, as the code is written.** The Angular front end reads
a `success` flag and an `errmsg` field from every reply
(post-app/src/app/create-post/create-post.ts:94-105,
post-app/src/app/update-post/update-post.ts:82-90,
post-app/src/app/delete-post/delete-post.ts:156-173), but neither copy of
the server sends them. The model follows the server:

- Errors are plain-text bodies with a status. No reply carries a
  `success` flag or an `errmsg` field.
- A successful POST answers 200, not 201.
- A search that matches nothing answers 200 with an empty array, not 404.
- GET by id answers the bare row.
- PUT reports 404 when no row was affected. It does not separately report an
  update that changed nothing.
- `backup.mjs` is an older copy, and it is modelled as written.

## Model

| member | source | states |
|---|---|---|
| Server.NormHHMM | server.mjs:18-25 | null and undefined give null; any accepted value's prepared text has the `^\d{1,2}:\d{2}$` shape and the result is a valid HH:MM |
| Server.ClockText | server.mjs:24 | the padded `HH:MM` of an hour ≤ 23 and a minute ≤ 59 is a valid clock string denoting h·3600 + m·60 seconds |
| Server.PrepareClockText | server.mjs:20 | replacing the first '.' by ':' and trimming turns digits, a separator and digits into `hh:mm` with that separator as ':' |
| Server.ClockSplit | server.mjs:22 | a string of the clock shape splits on ':' into exactly its hour digits and its minute digits |
| Server.NormHHMMOnClockText | server.mjs:20-24 | one or two hour digits, ':' or '.', two minute digits: accepted exactly when hour ≤ 23 and minute ≤ 59, and then padded |
| Server.ClockPartsAreNumbers | server.mjs:21-23 | a text of the `^\d{1,2}:\d{2}$` shape splits on ':' into two parts whose Number() values are the integers their digits spell, so the NaN and negative tests never fire |
| Server.NormHHMMFixesClocks | server.mjs:18-25 | every valid `HH:MM` string is returned unchanged |
| Server.NormHHMMIdempotent | server.mjs:18-25 | normalising an already normalised time gives it back |
| Server.ClockTextOfClock | server.mjs:24 | every valid clock string is the padded time of its own hour and minute |
| Server.ClockTextReadsBack | server.mjs:24 | the padded time has the shape hh:mm and reads back as the hour and minute it was built from, so distinct times render differently |
| Server.NormHHMMTo | server.mjs:18-25 | a well-shaped text whose hour and minute equal those of a clock string normalises to exactly that clock string |
| Server.NormClockOfParts | server.mjs:20-24 | once prepared to digits ':' two digits, the result is the padded time when the hour is at most 23 and the minute at most 59, else null |
| Server.NormHHMMDotted | server.mjs:20 | "9.30" is accepted as "09:30" |
| Server.NormHHMMOneDigitMinutes | server.mjs:21 | "9:5" fails the shape test and gives null |
| Server.NormHHMMHour24 | server.mjs:23 | "24:00" is out of range and gives null |
| Server.NormHHMMNumber | server.mjs:20-21 | the JSON number 9.3 becomes "9:3" and is refused |
| Server.ParseId | server.mjs:104-108 | an accepted `:id` is a positive integer |
| Server.ParseIdAcceptsDecimal | server.mjs:104-105 | the decimal text of every positive integer is accepted as that integer |
| Server.ParseIdRejectsZero | server.mjs:104-105 | "0" and "" (which Number() reads as 0) are refused |
| Server.ParseIdRejectsWords | server.mjs:104-105 | in this model of Number(), which reads plain decimal literals only, a parameter holding a letter is refused |
| Server.DayOf | server.mjs:58-63 | an absent dayOfWeekCode adds no filter; an accepted one is an integer 1..7 |
| Server.DayOfBoundaries | server.mjs:58-63 | the decimal n is accepted exactly when 1 ≤ n ≤ 7; an empty value is refused |
| Server.TextFilter | server.mjs:54-57 | districtEN and mobileCode filter exactly when given and non-empty, by the value given |
| Server.DayFilterOf | server.mjs:58-66 | the day filter is present exactly when the code is accepted, and is 1..7 |
| Server.ClauseOf | server.mjs:55-76 | every search clause names a plain column, holding no placeholder |
| Server.PushText | server.mjs:54-57 | the clause and its value are appended exactly when the parameter is truthy |
| Server.PushDay | server.mjs:58-66 | refuses exactly the bad codes; otherwise appends the day clause and integer exactly when a code is present |
| Server.PushOpenAt | server.mjs:71-79 | appends `openHour <= ?` and `closeHour > ?`, both bound to the normalised time, exactly when normHHMM accepts openAt |
| Server.BuildSearch | server.mjs:51-79 | refuses exactly the bad day codes; otherwise builds exactly the planned clauses and values |
| Server.PlannedIsSelection | server.mjs:54-79 | the clauses and values are the in-force filters, taken in the fixed order district, day, mobile, opening, closing |
| Server.PlannedOrder | server.mjs:54-79 | one value per clause, in the fixed filter order, and a filter appears exactly when it is in force |
| Server.WantedByFilters | server.mjs:54-79 | a row is wanted exactly when it satisfies the clause of every filter in force |
| Server.PlannedSelects | server.mjs:81-88 | the WHERE of the planned clauses selects exactly the rows the filters want |
| Server.PlannedMarks | server.mjs:81-88 | the WHERE text holds exactly one `?` per bound value |
| Server.NoFiltersNoWhere | server.mjs:85 | the WHERE part is empty exactly when no filter is in force |
| Server.RejectedOpenAtDropped | server.mjs:71-79 | an openAt that normHHMM refuses is ignored, as if it had not been given |
| Server.HoursWindowHalfOpen | server.mjs:74-77 | a post is open at its opening time and closed at its closing time |
| Server.FiltersOfOpenAt | server.mjs:71-79 | the time filter is in force exactly when openAt is truthy and normHHMM accepts it, and is then a valid clock |
| Server.PlannedStatementSound | server.mjs:81-91 | the SELECT is well formed, its placeholders match its values, and it selects exactly the wanted rows |
| Server.SearchStatementSound | server.mjs:44-91 | the same holds for the filters of every query |
| Server.HandleSearch | server.mjs:44-97 | a bad day code is a 400 before any query; otherwise exactly one SELECT is sent, its rows are returned as they are (an empty array included), and a failure is a 500 |
| Server.HandleGetOne | server.mjs:103-117 | an invalid id is a 400 before any query; otherwise one SELECT by id; 200 with the first row exactly when rows came back; 404 "Not found" for no rows, 500 "Database error" on failure |
| Server.GetOneFromTable | server.mjs:110-112 | over a table: the stored row when the id is present, 404 when it is not |
| Server.Field | server.mjs:123-127 | a key absent from the body reads as undefined |
| Server.FieldOfEntry | server.mjs:123-127 | with distinct keys, each key reads as its own value |
| Server.HandleCreate | server.mjs:121-164 | a falsy mobileCode or a nullish dayOfWeekCode or seq is a 400 before any query; otherwise one INSERT of the body's values; 200 with the insert id, 409 on a duplicate, 500 otherwise |
| Server.CreateValues | server.mjs:134-150 | nine values bound in column order: mobileCode as given, Number() of the day code and seq, and the others with `?? null` |
| Server.CreateAcceptsZero | server.mjs:129 | a day code 0 and seq 0 pass the required-field check |
| Server.CreateRefusesEmptyCode | server.mjs:129-131 | an empty mobileCode is refused with the missing-fields reply |
| Server.FirstBadTime | server.mjs:182-189 | finds the first allowed time field whose non-null value normHHMM refuses, and no earlier one |
| Server.EntryValue | server.mjs:183-195 | one body entry is refused exactly when it is a bad time; otherwise it gives its bound value |
| Server.BuildUpdate | server.mjs:179-196 | stops at the first bad time and names its key; otherwise the SET columns and values are exactly the allowed entries, in body order |
| Server.KeptNext | server.mjs:182-196 | each entry adds its column and value exactly when its key is allowed |
| Server.TimeFieldsUpdatable | server.mjs:173-177 | openHour and closeHour are in the allowed set |
| Server.ProtectedColumnsNotUpdatable | server.mjs:173-177 | id, mobileCode, dayOfWeekCode and seq can never be updated |
| Server.KeptMembers | server.mjs:182-183 | an entry is kept exactly when it is in the body and its key is allowed |
| Server.KeptDistinct | server.mjs:182-183 | kept keys stay distinct when the body's keys are |
| Server.UpdateSetsAllowed | server.mjs:173-196 | every SET column is allowed and never a key column; every allowed key of the body is set; no column is set twice |
| Server.UpdateValuesFaithful | server.mjs:184-195 | each set value is the body's value (null for undefined); a time is null when nullish, else its normalised valid HH:MM |
| Server.UpdateStatementSound | server.mjs:203-207 | the UPDATE is well formed, has one placeholder per set column plus one for the id, and the id is bound last |
| Server.HandleUpdate | server.mjs:166-214 | invalid id, bad time (named in the message) and no allowed field are 400s before any query; otherwise one UPDATE and the reply of UpdateResponse |
| Server.UpdateResponse | server.mjs:208-212 | 200 with the id exactly when some row was affected; 404 for none, 500 on failure |
| Server.UpdateOnTable | server.mjs:204-209 | over a table, updating an absent id is a 404 and a present one a 200 |
| Server.HandleDelete | server.mjs:217-237 | an invalid id is a 400 before any query; otherwise one DELETE; 200 exactly when a row was affected, else 404 or 500 |
| Server.DeleteTwice | server.mjs:225-232 | over a table: a delete removes exactly that id; deleting it again, or reading it afterwards, is a 404 |
| Server.ServerSearchRoutes | server.mjs:100-101 | GET /mobilepost/search and GET /mobilepost both reach the search handler, in any mix of letter case (Express routes ignore case by default) |
| Server.ServerIdRoutes | server.mjs:100-217 | a GET, PUT or DELETE /mobilepost/:id whose segment is not "search" in some letter case reaches the get, update or delete handler |
| Api.UpdatableFieldsArePlain | server.mjs:173-177 | every allowed field name is a plain column name |
| Api.SelectsExtend | server.mjs:85 | adding a clause with AND keeps exactly the rows that also satisfy it |
| Http.FirstMatch | server.mjs:100-103 | Express dispatches to the first registered route that matches, and no earlier one matches |
| Js.StringToNumberDecimal | server.mjs:104-105 | Number() of the decimal text of n is the integer n |
| Js.StringToNumberDigits | server.mjs:22 | Number() of a non-empty run of digits is the integer it spells |
| Js.StringToNumberRejectsLetters | server.mjs:59-60 | in this model of Number(), which reads plain decimal literals only, a text holding a letter is not an integer |
| Sql.SearchSqlMarks | server.mjs:81-88 | the search text holds one `?` per WHERE clause |
| Sql.ByIdStatementMarks | server.mjs:110 | a statement by id holds exactly one `?` |
| Sql.InsertSqlMarks | server.mjs:134-139 | the INSERT holds one `?` per inserted column |
| Sql.UpdateSqlMarks | server.mjs:205 | the UPDATE holds one `?` per set column plus the id's |
| Sql.PlaceholdersMatch | server.mjs:81-225 | every well-formed statement holds exactly as many `?` as it binds values |
| Backup.BackupSearchUnreachable | backup.mjs:34-51 | no GET path reaches the search handler, because `/mobilepost/:id` is registered first |
| Backup.BackupSearchRequest | backup.mjs:34-39 | GET /mobilepost/search, in any letter case, is handled as an id and answers "Invalid ID"; GET /mobilepost has no route |
| Backup.OpenAtRefusalIsNormHHMM | backup.mjs:73-83 | the strict search refuses exactly the truthy openAt values that normHHMM would reject |
| Backup.OpenAtMalformed | backup.mjs:75-77 | "9:5" is refused with "openAt must be HH:MM" |
| Backup.OpenAtOutOfRange | backup.mjs:79-82 | a well-shaped time with hour > 23 or minute > 59 is refused with "openAt must be valid HH:MM" |
| Backup.OpenAtHour24 | backup.mjs:80-81 | "24:00" is refused as out of range |
| Backup.CheckClock | backup.mjs:75-84 | the shape test, then the range test, of the prepared text; an accepted text gives its padded time |
| Backup.CheckOpenAt | backup.mjs:73-84 | refuses with the reason above; an accepted openAt gives the same time as normHHMM |
| Backup.PushStrictOpenAt | backup.mjs:73-89 | when not refused, appends the same two hour clauses and values as server.mjs |
| Backup.BuildStrictSearch | backup.mjs:52-89 | the day check first, then the openAt check; otherwise exactly the clauses and values of server.mjs |
| Backup.HandleStrictSearch | backup.mjs:51-107 | a bad day code or a refused openAt is a 400 with its reason before any query; otherwise as in server.mjs |
| Backup.FirstCall | backup.mjs:170-173 | finds the first allowed time field whose value is not nullish, where normHHMM would be called, and no earlier one |
| Backup.NoCallNoRefusal | backup.mjs:172-179 | with no such call, no time is refused and every time set is null |
| Backup.BuildUpdateAsWritten | backup.mjs:167-184 | throws exactly when some allowed time field is not nullish; otherwise the same SET columns and values as server.mjs |
| Backup.HandleUpdateAsWritten | backup.mjs:154-202 | invalid id is a 400; a non-null time makes the handler throw before any query; otherwise as in server.mjs |
| Backup.ValidTimeThrows | backup.mjs:172-173 | a body setting openHour to a valid time throws here, while server.mjs accepts it |
| Backup.ValidTimeAccepted | server.mjs:184-191 | server.mjs finds no bad time in that body and binds the time as given |
| Backup.ValidTimeKept | server.mjs:182-195 | that body is kept whole and its one value is the time |
| Records.Lookup | db/import.py:97-99 | a key is missing exactly when no entry has it; a found value is the value of an entry with that key |
| Records.MarkRowCount | db/import.py:63 | a row of n marks, comma separated, holds n placeholders |
| ImportPy.PyIntTextDigits | db/import.py:25 | int() of a non-empty run of digits is its decimal value |
| ImportPy.NormTime | db/import.py:17-30 | a falsy value gives None; any result is a valid HH:MM |
| ImportPy.NormText | db/import.py:20-30 | any result of the text path is a valid HH:MM |
| ImportPy.Clock | db/import.py:27 | the `{h:02d}:{m:02d}` of in-range numbers is a valid clock whose halves are the padded numbers |
| ImportPy.ClockOfText | db/import.py:27 | re-rendering a clock's own hour and minute gives that clock |
| ImportPy.ClockCharsStrip | db/import.py:20 | strip leaves a text of digits and separators unchanged |
| ImportPy.DotsBecomeColon | db/import.py:20 | every '.' of the text becomes ':' |
| ImportPy.SplitClockParts | db/import.py:21 | split(':') of `h:m` gives the two parts |
| ImportPy.NormTextOnParts | db/import.py:20-30 | digits, ':' or '.', digits: accepted exactly when hour ≤ 23 and minute ≤ 59, then padded |
| ImportPy.NormTimeOnParts | db/import.py:17-30 | the same for a JSON string |
| ImportPy.NormTimeTo | db/import.py:17-30 | such a text normalises to the clock with the same hour and minute |
| ImportPy.NormTimeFixesClocks | db/import.py:17-30 | every valid HH:MM is returned unchanged |
| ImportPy.NormTimeIdempotent | db/import.py:17-30 | normalising a normalised time gives it back |
| ImportPy.NormTimeOneDigitMinutes | db/import.py:25-27 | "9:5" becomes "09:05" here, while normHHMM in server.mjs refuses it |
| ImportPy.NormTimeDotted | db/import.py:20 | "9.30" becomes "09:30" |
| ImportPy.NormTimeTwoSeparators | db/import.py:21-23 | a text with two separators is refused |
| ImportPy.NormTextManyParts | db/import.py:21-23 | more than two parts after splitting gives None |
| ImportPy.NormTimeTwoDots | db/import.py:20-23 | "9.30.1" is refused |
| ImportPy.NormTimeHour24 | db/import.py:26 | "24:00" is refused |
| ImportPy.RowsOf | db/import.py:42-43 | the records are the top-level list, else a dict's "data" list, else none |
| ImportPy.PyPayload | db/import.py:105-125 | the 19-value payload exists exactly when no column raises, and each value is that column's |
| ImportPy.PayloadRaisesOnNumbers | db/import.py:116-124 | building the payload raises exactly when a coordinate is not float()-able or the day code or seq is not int()-able |
| ImportPy.PayloadTimes | db/import.py:113-117 | closeHour and openHour are bound as NULL or as valid HH:MM |
| ImportPy.CoordinatesOptional | db/import.py:116-124 | a null latitude and an empty longitude are bound as NULL; the record is not refused |
| ImportPy.CoordinateColumns | db/import.py:116-124 | columns 10 and 18 are the latitude and longitude conversions |
| ImportPy.PyIntTextRefusesWord | db/import.py:118 | int() of a word of letters raises |
| ImportPy.DayCodeWordRaises | db/import.py:118 | a day code "Mon" makes the payload raise, outside the try |
| ImportPy.UpsertPlaceholders | db/import.py:57-63 | the VALUES row holds 19 `%s`, one per column |
| ImportPy.Fates | db/import.py:93-140 | one fate per record, each that record's own |
| ImportPy.Next | db/import.py:94-138 | each record increments "read" |
| ImportPy.Tally | db/import.py:83-140 | read counts every record; read equals inserted + updated + unchanged + skipped + errors + dry-run checks + crashes |
| ImportPy.ErrorLog | db/import.py:137-140 | no execution, no error samples |
| ImportPy.FirstFive | db/import.py:139-140 | at most five samples, the first ones, and five whenever there were five |
| ImportPy.FirstFiveNext | db/import.py:139-140 | a new sample is kept exactly while fewer than five are held |
| ImportPy.Sent | db/import.py:130-131 | every executed payload has 19 values; no execution sends nothing |
| ImportPy.FirstCrash | db/import.py:93-125 | finds the first record that raises outside the try, and none before it |
| ImportPy.CheckRecord | db/import.py:97-128 | the fate of one record, with its payload whenever it is executed |
| ImportPy.Record | db/import.py:130-140 | the samples and sent payloads after one more record |
| ImportPy.RunImport | db/import.py:42-143 | no records stops early; a raise outside the try stops at that record; otherwise the counts, first five samples, sent payloads and lastUpdateDate of all records, with begin and commit exactly on a real run; a crash at record `at` reports the payloads sent for the records before it |
| ImportPy.RealRunBalances | db/import.py:94-138 | in a finished real run read = inserted + updated + unchanged + skipped + errors |
| ImportPy.NoExecutionNoCounts | db/import.py:127-128 | without execution only read and skipped grow |
| ImportPy.DryRunExecutesNothing | db/import.py:89-143 | a dry run sends nothing and records no insert, update, unchanged or error |
| ImportPy.SkippedNeverExecuted | db/import.py:100-102 | a record missing its key is skipped and never executed |
| ImportPhp.ArrayValues | db/import.php:59 | foreach visits a list's items, or an object's values, in order |
| ImportPhp.PhpRows | db/import.php:23-27 | "data" when it is an array, else the whole value when it is one; there are no records exactly when neither is an array |
| ImportPhp.PhpValues | db/import.php:61-79 | 19 values, each the cast of its column |
| ImportPhp.NonArrayRecordSkipped | db/import.php:61-84 | a record that is not an object is skipped |
| ImportPhp.KeptRecordHasNumbers | db/import.php:71-84 | a record that is not skipped has its coordinates, day code and seq as numeric casts |
| ImportPhp.ValuesOfColumnKind | db/import.php:61-79 | for a kept record, each value has the kind its column dictates |
| ImportPhp.AsWrittenBindThrows | db/import.php:86-93 | the 20-character type string meets 19 variables, so bind_param throws for every record |
| ImportPhp.CorrectedTypesSpellKinds | db/import.php:86-93 | the 19-character string names, column by column, the kind of each value |
| ImportPhp.CorrectedTypesFit | db/import.php:87-93 | with that string, every kept record binds |
| ImportPhp.UpsertPlaceholders | db/import.php:29-35 | the VALUES row holds 19 `?`, as many as the corrected type string has characters |
| ImportPhp.Fates | db/import.php:59-96 | one fate per record, each that record's own |
| ImportPhp.FirstThrow | db/import.php:59-96 | finds the first record whose bind or execute throws, and none before it |
| ImportPhp.UpsertedValues | db/import.php:94-95 | one bound row per upserted record |
| ImportPhp.ImportRecord | db/import.php:60-95 | the fate of one record, with its bound values whenever it is upserted |
| ImportPhp.Account | db/import.php:81-95 | `$skip` and `$ok` after one more record |
| ImportPhp.ImportRows | db/import.php:55-99 | the run stops at the first throw with the counts so far, or completes with the counts of all records and the summary line |
| ImportPhp.Outcome | db/import.php:55-99 | importing records never ends in an early exit; a completed run counts every record as upserted or skipped, and a run that throws at record `at` has counted each record before it |
| ImportPhp.RunImport | db/import.php:15-99 | a missing file, an undecodable or null document, and no record array each exit with their message; otherwise the records are imported |
| ImportPhp.AsWrittenNeverUpserts | db/import.php:86-96 | as written, nothing is ever upserted; the run completes only when every record is skipped, else it throws at the first kept record |
| ImportPhp.CorrectedCompletes | db/import.php:59-99 | with the corrected types and no failing execute, the run completes and every record is upserted or skipped |
| ImportPhp.EmptyArrayCompletes | db/import.php:23-27 | an empty record array completes with nothing imported, where db/import.py exits with "No records to import" |
| ImportPhp.SkipRulesDiffer | db/import.php:81-84 | mobileCode 0 is kept by PHP but skipped by Python; a missing latitude is skipped by PHP only |

## Left out

- Express, mysql2 and pymysql/mysqli setup, pooling, connection close and logging are I/O, and are not modelled. So are the `GET /` dump of the whole table and the server start.
- Real SQL semantics are not modelled. A SELECT is given meaning through `Selects` over rows of typed cells. Store replies, affected-row counts, insert ids and `execute` outcomes are inputs.
- What an exception escaping an Express handler becomes is not modelled. The model stops at `Threw` (`Backup.HandleUpdateAsWritten`).
- JavaScript `Number()` is modelled only as far as `Number.isInteger` tells values apart: decimal literals with a sign and a fraction. Exponents, the `0x`, `0o` and `0b` prefixes, `Infinity` and numbers past 2^53 count as not-an-integer or are not distinguished. So `Number("1e3")` is 1000 and `Number("0x10")` is 16 in JavaScript, and `GET /mobilepost/1e3` reads row 1000, while the model refuses such an id or day code.
- Js.StringToNumberRejectsLetters: holds of the model of `Number()` only. In JavaScript an exponent letter or a `0x`, `0o` or `0b` prefix can still give an integer.
- Server.ParseIdRejectsWords: holds of the model only. server.mjs accepts ids such as "1e3" and "0x10".
- Python `int()` and `float()` are modelled for plain signed decimal text. Underscores, exponents, `inf`/`nan` and non-ASCII digits are not modelled. PHP `(int)`/`(float)` casts are recorded as `BCast` and are not evaluated.
- A JSON float is carried as Python's repr() text of the parsed value, which is also what `str()` gives in db/import.py. The rendering of floats by PHP's `(string)` and by MySQL is not modelled. Such a value is recorded as `BRendered`.
- JSON parsing, the byte-order-mark strip, file reading, command-line arguments and the printed JSON or summary are left out. Each importer starts from a parsed `Json` value, or from a `JsonFile` outcome for PHP.
- A route path is given as its list of segments. Express's tolerance of a trailing slash (`/mobilepost/` for `/mobilepost`) and the percent-decoding of `:id` are not modelled.
- Query-string values that are arrays, and request bodies that are JSON arrays or scalars, are not modelled. Nor are body field values that are arrays or objects: `String(["09:30"])` is "09:30" and an object renders as "[object Object]", and neither is computed.
- `Object.entries` order for integer-like keys is not modelled. Body entries are taken in the order given.
- Records.Lookup returns the first entry of a key, where Python's `json.loads` and PHP's `json_decode` keep the last. Objects with duplicate keys are not modelled in either importer.
- Server.Field likewise returns the first entry of a key, where `JSON.parse` keeps the last. Request bodies with duplicate keys are not modelled; the lemmas about body values (`FieldOfEntry`, `KeptDistinct`, `UpdateValuesFaithful`, and the clause of `UpdateSetsAllowed` that no column is set twice) assume distinct keys.
- The PHP "Array to string conversion" warning is not modelled.
- The rollback MySQL performs when a connection closes with an open transaction is not modelled. A run that throws or crashes is reported with `began` set and nothing committed.
- The Angular front end under `post-app` is not part of this model.

## Findings

| source | as written | input that shows it | evidently intended | confidence | as-written member | corrected member |
|---|---|---|---|---|---|---|
| db/import.php:87-93 | `bind_param` gets the 20-character type string "ssssssssssdsissssiid" for 19 variables | any record that passes the skip check | the 19-character "ssssssssssdsissssid", one kind per column | high, not executed | ImportPhp.AsWrittenNeverUpserts | ImportPhp.CorrectedCompletes |
| backup.mjs:172-173 | the PUT handler calls `normHHMM`, which this file never defines | a body `{"openHour": "09:30"}` | normalise the time as server.mjs:18-25 does | high, not executed | Backup.ValidTimeThrows | Server.HandleUpdate |
| backup.mjs:34-51 | `/mobilepost/:id` is registered before `/mobilepost/search` | `GET /mobilepost/search` | the search route wins, as in server.mjs:100-103 | high, not executed | Backup.BackupSearchUnreachable | Server.ServerSearchRoutes |
