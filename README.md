# WeatherPi in Dafny

A model of the WeatherPi weather-station bridge and its ingestion server.

The client (`client/client.py`) reads one JSON object per line from a radio receiver process. It renames the vendor fields through a fixed nine-entry table into canonical names. It merges the result into the shared reading `DATA`, and an uploader posts `DATA` once all nine canonical fields are set. The server (`server/app.py`, `server/db.py`) authenticates a station by its `X-Api-Key`, validates the nine fields against a type schema, and stores the reading in SQLite. It also answers with a station's latest reading.

Files:

- `values.dfy` (module `Values`): `Option`, `Result`, and the decoded JSON `Value` (int, float, bool, str, null, list, object), plus Python's `== 1` on such a value.
- `client.dfy` (module `Client`): the field table, `update_data` as a loop in the class `SharedReading` proved against the merge function `MergeFields`, the per-line coercions, the upload gate, `_require`, and `cmd.split(" ")`.
- `database.dfy` (module `Database`): the `station` and `record` tables as sequences in the class `DB`, with the AUTOINCREMENT counter, and the `DB.INSTANCE` singleton as the class `DBSingleton`.
- `app.dfy` (module `App`): the guard ladder of `add_record` as the pure function `AddRecord`, the `get_last_record` answer, and two handler methods that run the ladder against the shared connection.

Two behaviours of the code that are easy to misread:

- `battery_ok` becomes `data["battery_ok"] == 1`, which Python makes true for the integer `1`, for JSON `true` (`True == 1`) and for `1.0` (`Values.EqualsOne`).
- A decoded line that is not a JSON object never writes to `DATA`. On a number, a bool or null, the `in` test raises `TypeError`. On a list or a string, `in` tests membership or substring. So either indexing by a string key raises `TypeError`, or the value passes through `update_data`, where every `k in data` is false, and nothing is written. The model treats all of these as a line that leaves `DATA` unchanged (`Client.Normalize` returns nothing).

## Model

| member | source | states |
|---|---|---|
| `Client.TableIsInjective` | client/client.py:103-117 | the nine vendor keys are distinct and map to nine distinct canonical names |
| `Client.MergeFieldsKeys` | client/client.py:123-125 | after the loop, the key set is the old key set plus exactly the canonical names whose vendor key is in the message; no key is removed |
| `Client.MergeFieldsCopies` | client/client.py:123-125 | for each table entry whose vendor key is present, the merged reading holds the message's value under the canonical name |
| `Client.MergeFieldsFrame` | client/client.py:123-125 | a canonical name that no present vendor key maps to keeps its presence and its value |
| `Client.MergeFieldsReadsOnlyTable` | client/client.py:123-125 | two messages that agree on the table's vendor keys give the same merged reading |
| `Client.MergeFields` | client/client.py:123-125 | the `for k, v in REMOTE2LOCAL_FIELD.items()` loop as a left fold over a prefix of the table; its properties are the `MergeFields*` lemmas |
| `Client.Merge` | client/client.py:120-125 | `update_data` over the fixed table; its properties are `Client.MergeSpec` and the lemmas after it |
| `Client.MergeSpec` | client/client.py:120-125 | over the fixed table: present fields are copied, absent ones are untouched, and the new key set is the old one plus the written names |
| `Client.MergeKeepsKeys` | client/client.py:57 | no key is ever removed from `DATA`, and `DATA` holds only canonical names if it did before |
| `Client.MergeIgnoresUnknownKeys` | client/client.py:123-125 | adding or changing a key outside the table leaves the merge result unchanged |
| `Client.MergeIdempotent` | client/client.py:120-125 | merging the same message twice gives the same `DATA` as merging it once |
| `Client.GateOpen` | client/client.py:73 | the uploader's test `len(DATA) == len(REMOTE2LOCAL_FIELD)`; what it means is `Client.GateMeansComplete` |
| `Client.GateMeansComplete` | client/client.py:73 | while `DATA` holds only canonical names, `len(DATA) == len(REMOTE2LOCAL_FIELD)` holds exactly when every canonical name is a key |
| `Client.CoerceTime` | client/client.py:158-159 | the line is dropped iff `time` is present and is not a string that parses; otherwise the keys are kept, `time` becomes the parsed epoch and every other value is unchanged |
| `Client.CoerceBattery` | client/client.py:161-162 | the keys are kept, a present `battery_ok` becomes the boolean `battery_ok == 1`, and every other value is unchanged |
| `Values.EqualsOne` | client/client.py:162 | Python's `v == 1` holds exactly for the integer 1, the float 1.0 and `true` |
| `Client.Normalize` | client/client.py:154-163 | a line is merged into `DATA` as an object iff it decodes to an object whose `time` (if any) is a string that parses (every other line leaves `DATA` unchanged); coercion keeps the key set; `time` becomes the parsed epoch, `battery_ok` becomes `battery_ok == 1`, and other values are unchanged |
| `Client.Absorb` | client/client.py:154-171 | the collector's line loop as a left fold of per-line merges over the lines read so far; its properties are `Client.AbsorbKeepsKeys` and `Client.SharedReading.Collect` |
| `Client.AbsorbKeepsKeys` | client/client.py:154-171 | over any stream of lines, `DATA` only gains keys and holds only canonical names |
| `Client.SharedReading.constructor` | client/client.py:57 | `DATA` starts empty |
| `Client.SharedReading.UpdateData` | client/client.py:120-125 | the table loop leaves `DATA` equal to the merge of the old `DATA` with the message; old keys are kept; only canonical names are keys |
| `Client.SharedReading.ProcessLine` | client/client.py:154-171 | a line that is not merged (decode error, non-object, bad `time`) leaves `DATA` unchanged; otherwise `DATA` becomes the merge with the coerced message |
| `Client.SharedReading.Collect` | client/client.py:154-171 | reading a stretch of lines leaves `DATA` as the fold of per-line merges and never removes a key |
| `Client.ScenarioLine` | client/client.py:154-164 | the line `{"id": 7, "battery_ok": 1, "time": "2025-10-05 19:55:21", "temperature_C": 18.5}` sets exactly the station id, battery `true`, the parsed timestamp and the temperature |
| `Client.ScenarioMerge` | client/client.py:123-125 | merging that coerced message updates those four canonical fields and no others |
| `Client.Require` | client/client.py:24-27 | an absent or empty variable is an error naming it; a non-empty one is returned as is |
| `Client.LoadConfig` | client/client.py:30-32 | start-up succeeds iff all three variables are non-empty; otherwise the error names the first missing one in the order `RTL_CMD`, `UPLOAD_URL`, `API_KEY` |
| `Client.Split` | client/client.py:131 | `cmd.split(" ")` always yields at least one argument, even for the empty command |
| `Client.SplitHasNoSpaces` | client/client.py:131 | no argument produced by the split contains a space |
| `Client.JoinSplit` | client/client.py:131 | joining the arguments with single spaces gives back the command string |
| `Client.SplitJoin` | client/client.py:131 | splitting a join of space-free arguments gives back the arguments |
| `Client.SplitAtSpace` | client/client.py:131 | splitting `a + " " + b` gives the arguments of `a` followed by those of `b` |
| `Client.ConsecutiveSpaces` | client/client.py:131 | two consecutive spaces produce an empty argument between the halves |
| `Database.Stored` | server/db.py:43-51 | a bound int, bool or float is stored as the same number and never as a bool; an int is kept, a bool becomes 0/1, and a float stays a float exactly when it is not an integer strictly inside the signed 64-bit range |
| `Database.LargeIntegralFloatStaysReal` | server/db.py:45-48 | `1e20` is stored as the real 1e20, while `18.0` is stored as the integer 18 |
| `Database.AsInt` | server/db.py:43-51 | the integer kept in the `timestamp` column stands for the same number as the submitted int or bool |
| `Database.FindStation` | server/db.py:37-40 | the result is a station whose `api_token` equals the token, or nothing exactly when no station has that token |
| `Database.NewRecord` | server/db.py:45-48 | the inserted row carries the given id and `station["id"]`, an integer timestamp for the submitted int or bool, and each other reading as the same number |
| `Database.DB.constructor` | server/db.py:21-26 | the connection sees the tables of the database file |
| `Database.DB.GetStationByToken` | server/db.py:37-40 | returns a station with that token, or nothing iff none has it; reads only |
| `Database.DB.AddRecord` | server/db.py:43-51 | for nine numeric readings, appends exactly one row with the nine stored readings and `station["id"]`; earlier rows and stations are unchanged; the returned id exceeds every existing id |
| `Database.DB.GetLastRecord` | server/db.py:54-65 | nothing iff no row has that `station_id`; otherwise a row of that station whose timestamp is at least every other timestamp of that station; reads only |
| `Database.DBSingleton.constructor` | server/db.py:11 | `DB.INSTANCE` starts as `None` |
| `Database.DBSingleton.GetInstance` | server/db.py:13-18 | the first call connects to a fresh `DB`; every later call returns that same object; the tables are not changed |
| `App.AddRecord` | server/app.py:7-54 | no or empty key gives 401 "Missing API token"; an unknown key gives 401 "Invalid API token"; with a valid key, a missing schema key gives 400 "Missing field", else a wrong type gives 400 "Wrong type", else 201 with an empty object; a store happens iff the answer is 201, and only for a body with nine numeric columns |
| `App.IsInstance` | server/app.py:46-49 | Python's `isinstance` on a decoded value: only numbers pass; the `int` check accepts exactly ints and bools; an int passes only the `int` check; a bool fails only the `float` check; a float passes only the `float` check |
| `App.MissingField` | server/app.py:41-44 | the `any(x not in data …)` test over the schema keys; `App.MissingFieldIffNoColumns` relates it to the stored columns |
| `App.MissingFieldIffNoColumns` | server/app.py:41-44 | a schema key is missing exactly when one of the nine columns `db.add_record` reads is missing |
| `App.WrongType` | server/app.py:46-49 | the `any(not isinstance(data[k], t) …)` test over the schema; `App.IntFailsFloatCheck`, `App.BoolPassesIntCheck` and `App.ValidBodyHasColumns` are about it |
| `App.AuthenticationFirst` | server/app.py:9-24 | with a bad or absent key, every body gets the same 401 and nothing is stored |
| `App.ExtraKeysIgnored` | server/app.py:29-49 | keys beyond the nine schema keys do not change the outcome |
| `App.BoolPassesIntCheck` | server/app.py:46-49 | a bool passes the `int` check, so `timestamp: true` is accepted |
| `App.IntFailsFloatCheck` | server/app.py:46-49 | an int fails the `float` check, so `temperature: 18` gives 400 "Wrong type" |
| `App.MissingRainRejected` | server/app.py:41-44 | a body without `rain` gives 400 "Missing field" whatever the other values |
| `App.ValidBodyHasColumns` | server/app.py:29-52 | a body that passes validation has every column `db.add_record` reads, each an int, bool or float, and an integer timestamp |
| `App.LastRecordResponse` | server/app.py:57-66 | 200 with the record when one was found, 404 with an empty object otherwise |
| `App.PostData` | server/app.py:7-54 | the answer is the guard ladder's; no connection is opened without a key; on 201 exactly one row is appended and the AUTOINCREMENT counter goes up by one; no table changes otherwise |
| `App.GetData` | server/app.py:57-66 | 200 iff the station has a row, with a row of latest timestamp; otherwise 404 with an empty object; no table changes |

## Left out

- The `Uploader` and `Collector` threads, `Event` waits, `join`, `stop`, and the supervisor loop in `__main__`. These are concurrency and timing. The model keeps the upload gate as a predicate and the collector's line loop as a method over a finite list of lines.
- `subprocess.Popen`, reading the receiver's stdout, `requests.post`, logging and `dotenv`. These are I/O. Lines arrive already decoded (`Client.Line`), and environment variables arrive as parameters of `Client.LoadConfig`.
- `json.loads`. A line is modelled as "undecodable" or as a decoded `Value`.
- `datetime.strptime(...).timestamp()`. The naive-local-time conversion depends on the host's time zone. It is the parameter `parseTime`, a partial function from strings to epoch seconds.
- Floating point. JSON floats are carried as reals. They are only compared (with `1.0`, with their own floor), never computed with.
- Concurrent access to `DATA` by the two threads, and any use of the shared connection from a request thread. `sqlite3.connect` (server/db.py:23) keeps its default `check_same_thread=True`, and `app.run` (server/app.py:70) serves each request on its own thread. So a request that reuses the singleton connection created by an earlier request normally raises `ProgrammingError` and gets a 500. The model lets every request use the one connection.
- The SQLite connection failure (`DBException`), `__del__`, commit durability, the install script and random token generation. The database file's contents are the parameter `Tables`.
- Database.Stored: defined on ints, bools and floats only. SQLite's conversion of a numeric-looking string (such as `"60"`) in a NUMERIC column, and sqlite3's refusal to bind a list or an object, are not modelled. `Database.DB.AddRecord` and `Database.NewRecord` therefore require all nine readings to be numbers, which every body that passed validation satisfies (`App.ValidBodyHasColumns`).
- Database.DB.AddRecord: requires an int or bool timestamp (`IsIntLike`), which every caller that passed validation supplies. SQLite's cross-type ordering of other timestamps is not modelled.
- Database.DB.AddRecord: integers outside 64 bits are not modelled. In the source, Python's sqlite3 refuses them and AUTOINCREMENT stops at 2^63 - 1.
- App.AddRecord and App.PostData: a valid body holding an int outside the signed 64-bit range (such as `humidity: 2**70`) gets 201 and a stored row in the model. In the source, sqlite3 raises `OverflowError` at server/db.py:45-48, Flask answers 500, and nothing is stored.
- Database.FindStation: takes the first matching station in table order. SQLite's `fetchone` without `ORDER BY` promises no particular row among several with the same token.
- Flask routing, `jsonify`, the `<int:station_id>` converter, and a request body that is not JSON at all. These are framework paths.
- A JSON request body that is not an object (a list, a string, a number, a bool or `null`). The model's body is a map from strings to values, so it cannot express these. The handler itself answers them (server/app.py:41-49): a list or string missing a schema key gets 400 "Missing field"; a list or string holding all nine keys raises `TypeError` at `data[k]`, and a number, bool or `null` raises `TypeError` at `x not in data`, both giving 500. Nothing is stored in any of these cases.
- The `Collector` object itself (`log`, `process`, `stop`). Of `Collector.__init__`, only the argument list `cmd.split(" ")` is modelled (`Client.Split`).
- The id returned by `db.add_record` is ignored by the handler, as in the source.
