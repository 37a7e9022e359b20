/** The weather-station client (client/client.py): the vendor-to-canonical
    field table, the shared reading `DATA` that the collector merges each
    sensor message into, the per-line coercions of `Collector.run`, the
    uploader's completeness gate, the configuration check `_require` and the
    splitting of the receiver command into arguments. */
module Client {
  import opened Values

  // ---------------------------------------------------------------------
  // Field table
  // ---------------------------------------------------------------------

  /** `Collector.REMOTE2LOCAL_FIELD` in the dictionary's insertion order:
      (vendor key, canonical key). */
  const RemoteToLocalField: seq<(string, string)> := [
    ("id", "broadcasted_station_id"),
    ("battery_ok", "battery"),
    ("time", "timestamp"),
    ("temperature_C", "temperature"),
    ("humidity", "humidity"),
    ("wind_avg_m_s", "wind_speed"),
    ("wind_dir_deg", "wind_dir"),
    ("wind_max_m_s", "wind_gust"),
    ("rain_mm", "rain")
  ]

  function RawNames(t: seq<(string, string)>): set<string>
  {
    set i | 0 <= i < |t| :: t[i].0
  }

  function CanonicalNames(t: seq<(string, string)>): set<string>
  {
    set i | 0 <= i < |t| :: t[i].1
  }

  predicate DistinctRaw(t: seq<(string, string)>)
  {
    forall i, j :: 0 <= i < j < |t| ==> t[i].0 != t[j].0
  }

  predicate DistinctCanonical(t: seq<(string, string)>)
  {
    forall i, j :: 0 <= i < j < |t| ==> t[i].1 != t[j].1
  }

  /** A table whose canonical keys are pairwise distinct has exactly as many
      canonical names as entries. */
  lemma {:induction false} CanonicalNamesCount(t: seq<(string, string)>)
    requires DistinctCanonical(t)
    ensures |CanonicalNames(t)| == |t|
  {
    if t != [] {
      var init := t[..|t| - 1];
      CanonicalNamesCount(init);
      CanonicalNamesSnoc(t);
      assert t[|t| - 1].1 !in CanonicalNames(init) by {
        forall i | 0 <= i < |init| ensures init[i].1 != t[|t| - 1].1 {
          assert init[i] == t[i];
        }
      }
    }
  }

  lemma {:induction false} CanonicalNamesSnoc(t: seq<(string, string)>)
    requires t != []
    ensures CanonicalNames(t) == CanonicalNames(t[..|t| - 1]) + {t[|t| - 1].1}
  {
    var init := t[..|t| - 1];
    forall c | c in CanonicalNames(t)
      ensures c in CanonicalNames(init) + {t[|t| - 1].1}
    {
      var i :| 0 <= i < |t| && t[i].1 == c;
      if i < |t| - 1 { assert init[i].1 == c; }
    }
    forall c | c in CanonicalNames(init)
      ensures c in CanonicalNames(t)
    {
      var i :| 0 <= i < |init| && init[i].1 == c;
      assert t[i].1 == c;
    }
  }

  /** The nine vendor keys are distinct (so the dictionary has nine entries)
      and name nine distinct canonical fields. */
  lemma TableIsInjective()
    ensures DistinctRaw(RemoteToLocalField)
    ensures DistinctCanonical(RemoteToLocalField)
    ensures |CanonicalNames(RemoteToLocalField)| == |RemoteToLocalField| == 9
  {
    RawKeysDistinct();
    CanonicalKeysDistinct();
    CanonicalNamesCount(RemoteToLocalField);
  }

  lemma RawKeysDistinct()
    ensures DistinctRaw(RemoteToLocalField)
  {
  }

  lemma CanonicalKeysDistinct()
    ensures DistinctCanonical(RemoteToLocalField)
  {
  }

  // ---------------------------------------------------------------------
  // Merging one message into the shared reading (Collector.update_data)
  // ---------------------------------------------------------------------

  /** The shared reading after the loop of `update_data` has visited the
      table entries `t`, in order: each vendor key present in the message
      writes its value under its canonical key. */
  function MergeFields(data: map<string, Value>, msg: map<string, Value>, t: seq<(string, string)>): map<string, Value>
    decreases |t|
  {
    if t == [] then data
    else
      var before := MergeFields(data, msg, t[..|t| - 1]);
      var (raw, canonical) := t[|t| - 1];
      if raw in msg then before[canonical := msg[raw]] else before
  }

  /** The canonical keys written by merging `msg` over the table `t`. */
  function Written(msg: map<string, Value>, t: seq<(string, string)>): set<string>
  {
    set i | 0 <= i < |t| && t[i].0 in msg :: t[i].1
  }

  /** Merging adds exactly the canonical keys whose vendor key is present and
      removes none. */
  lemma {:induction false} MergeFieldsKeys(data: map<string, Value>, msg: map<string, Value>, t: seq<(string, string)>)
    ensures MergeFields(data, msg, t).Keys == data.Keys + Written(msg, t)
    decreases |t|
  {
    if t != [] {
      var init := t[..|t| - 1];
      MergeFieldsKeys(data, msg, init);
      var last := t[|t| - 1];
      assert Written(msg, t) == Written(msg, init) + (if last.0 in msg then {last.1} else {}) by {
        forall c | c in Written(msg, t)
          ensures c in Written(msg, init) + (if last.0 in msg then {last.1} else {})
        {
          var i :| 0 <= i < |t| && t[i].0 in msg && t[i].1 == c;
          if i < |t| - 1 { assert init[i] == t[i]; }
        }
        forall c | c in Written(msg, init)
          ensures c in Written(msg, t)
        {
          var i :| 0 <= i < |init| && init[i].0 in msg && init[i].1 == c;
          assert t[i] == init[i];
        }
      }
    }
  }

  /** For every table entry whose vendor key is present, the merged reading
      holds the message's value under the canonical key. */
  lemma {:induction false} MergeFieldsCopies(data: map<string, Value>, msg: map<string, Value>, t: seq<(string, string)>, j: int)
    requires DistinctCanonical(t)
    requires 0 <= j < |t| && t[j].0 in msg
    ensures t[j].1 in MergeFields(data, msg, t)
    ensures MergeFields(data, msg, t)[t[j].1] == msg[t[j].0]
    decreases |t|
  {
    var init := t[..|t| - 1];
    if j < |t| - 1 {
      assert init[j] == t[j];
      MergeFieldsCopies(data, msg, init, j);
    }
  }

  /** A canonical key that no present vendor key maps to keeps its presence
      and its value. */
  lemma {:induction false} MergeFieldsFrame(data: map<string, Value>, msg: map<string, Value>, t: seq<(string, string)>, c: string)
    requires c !in Written(msg, t)
    ensures c in MergeFields(data, msg, t) <==> c in data
    ensures c in data ==> MergeFields(data, msg, t)[c] == data[c]
    decreases |t|
  {
    if t != [] {
      var init := t[..|t| - 1];
      forall i | 0 <= i < |init| && init[i].0 in msg ensures init[i].1 != c {
        assert t[i] == init[i];
      }
      MergeFieldsFrame(data, msg, init, c);
      assert t[|t| - 1].0 in msg ==> t[|t| - 1].1 != c;
    }
  }

  /** The merge reads the message only at the table's vendor keys. */
  lemma {:induction false} MergeFieldsReadsOnlyTable(data: map<string, Value>, msg: map<string, Value>, msg': map<string, Value>, t: seq<(string, string)>)
    requires forall i :: 0 <= i < |t| ==> (t[i].0 in msg <==> t[i].0 in msg')
    requires forall i :: 0 <= i < |t| && t[i].0 in msg ==> msg[t[i].0] == msg'[t[i].0]
    ensures MergeFields(data, msg, t) == MergeFields(data, msg', t)
    decreases |t|
  {
    if t != [] {
      var init := t[..|t| - 1];
      forall i | 0 <= i < |init| ensures init[i] == t[i] { }
      MergeFieldsReadsOnlyTable(data, msg, msg', init);
    }
  }

  /** `Collector.update_data(msg)` as a value: `data` after the merge. */
  function Merge(data: map<string, Value>, msg: map<string, Value>): map<string, Value>
  {
    MergeFields(data, msg, RemoteToLocalField)
  }

  /** Everything update_data promises, over the fixed table: present vendor
      keys are copied, other canonical keys are untouched, and only
      canonical keys are ever added. */
  lemma MergeSpec(data: map<string, Value>, msg: map<string, Value>)
    ensures forall j :: 0 <= j < |RemoteToLocalField| && RemoteToLocalField[j].0 in msg ==>
      RemoteToLocalField[j].1 in Merge(data, msg) && Merge(data, msg)[RemoteToLocalField[j].1] == msg[RemoteToLocalField[j].0]
    ensures forall c :: c !in Written(msg, RemoteToLocalField) ==>
      (c in Merge(data, msg) <==> c in data) && (c in data ==> Merge(data, msg)[c] == data[c])
    ensures Merge(data, msg).Keys == data.Keys + Written(msg, RemoteToLocalField)
  {
    TableIsInjective();
    MergeFieldsKeys(data, msg, RemoteToLocalField);
    forall j | 0 <= j < |RemoteToLocalField| && RemoteToLocalField[j].0 in msg
      ensures RemoteToLocalField[j].1 in Merge(data, msg)
      ensures Merge(data, msg)[RemoteToLocalField[j].1] == msg[RemoteToLocalField[j].0]
    {
      MergeFieldsCopies(data, msg, RemoteToLocalField, j);
    }
    forall c | c !in Written(msg, RemoteToLocalField)
      ensures (c in Merge(data, msg) <==> c in data) && (c in data ==> Merge(data, msg)[c] == data[c])
    {
      MergeFieldsFrame(data, msg, RemoteToLocalField, c);
    }
  }

  /** Keys are never removed from the shared reading, and a reading holding
      only canonical names keeps holding only canonical names. */
  lemma MergeKeepsKeys(data: map<string, Value>, msg: map<string, Value>)
    ensures data.Keys <= Merge(data, msg).Keys
    ensures data.Keys <= CanonicalNames(RemoteToLocalField) ==>
      Merge(data, msg).Keys <= CanonicalNames(RemoteToLocalField)
  {
    MergeFieldsKeys(data, msg, RemoteToLocalField);
  }

  /** Vendor keys outside the table have no effect on the merge. */
  lemma MergeIgnoresUnknownKeys(data: map<string, Value>, msg: map<string, Value>, key: string, v: Value)
    requires key !in RawNames(RemoteToLocalField)
    ensures Merge(data, msg[key := v]) == Merge(data, msg)
  {
    MergeFieldsReadsOnlyTable(data, msg[key := v], msg, RemoteToLocalField);
  }

  /** Merging the same message twice gives the same reading as merging it
      once. */
  lemma MergeIdempotent(data: map<string, Value>, msg: map<string, Value>)
    ensures Merge(Merge(data, msg), msg) == Merge(data, msg)
  {
    var once := Merge(data, msg);
    var twice := Merge(once, msg);
    MergeSpec(data, msg);
    MergeSpec(once, msg);
    forall c | c in twice ensures c in once && twice[c] == once[c] {
      if c in Written(msg, RemoteToLocalField) {
        var j :| 0 <= j < |RemoteToLocalField| && RemoteToLocalField[j].0 in msg && RemoteToLocalField[j].1 == c;
        assert twice[c] == msg[RemoteToLocalField[j].0] == once[c];
      }
    }
    assert twice.Keys == once.Keys;
  }

  // ---------------------------------------------------------------------
  // The uploader's gate (Uploader.run, first loop)
  // ---------------------------------------------------------------------

  /** The uploader stops waiting once `len(DATA) == len(REMOTE2LOCAL_FIELD)`. */
  predicate GateOpen(data: map<string, Value>)
  {
    |data| == |RemoteToLocalField|
  }

  /** While the shared reading holds only canonical names, the size test of
      the gate holds exactly when every canonical field has been set. */
  lemma {:induction false} GateMeansComplete(data: map<string, Value>)
    requires data.Keys <= CanonicalNames(RemoteToLocalField)
    ensures GateOpen(data) <==> CanonicalNames(RemoteToLocalField) <= data.Keys
  {
    TableIsInjective();
    var all := CanonicalNames(RemoteToLocalField);
    assert |data| == |data.Keys|;
    if GateOpen(data) && !(all <= data.Keys) {
      var c :| c in all && c !in data.Keys;
      assert data.Keys <= all - {c};
      SubsetCardinality(data.Keys, all - {c});
      assert false;
    }
    if all <= data.Keys {
      assert data.Keys == all;
    }
  }

  lemma {:induction false} SubsetCardinality(a: set<string>, b: set<string>)
    requires a <= b
    ensures |a| <= |b|
  {
    assert b == a + (b - a);
  }

  // ---------------------------------------------------------------------
  // One line of the receiver's output (Collector.run, per-line body)
  // ---------------------------------------------------------------------

  /** What `json.loads` made of one line of output. */
  datatype Line = Undecodable | Decoded(json: Value)

  /** The `time` coercion: a present `time` must be a string that `parseTime`
      (strptime with '%Y-%m-%d %H:%M:%S', then the epoch seconds, truncated)
      accepts; it is replaced by that integer. A non-string raises TypeError
      and an unparsable string ValueError: either way the line is dropped. */
  function CoerceTime(msg: map<string, Value>, parseTime: string -> Option<int>): (r: Option<map<string, Value>>)
    ensures r.None? <==> "time" in msg && !(msg["time"].StrV? && parseTime(msg["time"].s).Some?)
    ensures r.Some? ==> r.value.Keys == msg.Keys
    ensures r.Some? && "time" in msg ==> r.value["time"] == IntV(parseTime(msg["time"].s).value)
    ensures r.Some? ==> forall k :: k in msg && k != "time" ==> r.value[k] == msg[k]
  {
    if "time" !in msg then Some(msg)
    else match msg["time"]
      case StrV(s) =>
        (match parseTime(s)
         case Some(epoch) => Some(msg["time" := IntV(epoch)])
         case None => None)
      case _ => None
  }

  /** The `battery_ok` coercion: a present `battery_ok` becomes the boolean
      `battery_ok == 1`. */
  function CoerceBattery(msg: map<string, Value>): (r: map<string, Value>)
    ensures r.Keys == msg.Keys
    ensures "battery_ok" in msg ==> r["battery_ok"] == BoolV(EqualsOne(msg["battery_ok"]))
    ensures forall k :: k in msg && k != "battery_ok" ==> r[k] == msg[k]
  {
    if "battery_ok" in msg then msg["battery_ok" := BoolV(EqualsOne(msg["battery_ok"]))] else msg
  }

  /** The message `Collector.run` merges into `DATA` for one line, or None
      when the line leaves `DATA` as it was. A decoded value that is not an
      object never writes to `DATA`: on a number, a bool or null the `in`
      test raises TypeError; on a list or a string `in` tests membership or
      substring, so either indexing by a string key raises TypeError, or
      the value reaches `update_data`, where no `data[k]` is read, and it
      writes nothing. Both end with `DATA` unchanged, which is what None
      stands for here. */
  function Normalize(line: Line, parseTime: string -> Option<int>): (r: Option<map<string, Value>>)
    ensures r.Some? <==>
      line.Decoded? && line.json.ObjectV? &&
      ("time" in line.json.fields ==>
        line.json.fields["time"].StrV? && parseTime(line.json.fields["time"].s).Some?)
    ensures r.Some? ==> r.value.Keys == line.json.fields.Keys
    ensures r.Some? && "time" in r.value ==>
      r.value["time"] == IntV(parseTime(line.json.fields["time"].s).value)
    ensures r.Some? && "battery_ok" in r.value ==>
      r.value["battery_ok"] == BoolV(EqualsOne(line.json.fields["battery_ok"]))
    ensures r.Some? ==> forall k :: k in r.value && k != "time" && k != "battery_ok" ==>
      r.value[k] == line.json.fields[k]
  {
    match line
    case Undecodable => None
    case Decoded(v) =>
      if !v.ObjectV? then None
      else match CoerceTime(v.fields, parseTime)
        case None => None
        case Some(m) => Some(CoerceBattery(m))
  }

  /** The reading after a sequence of lines, each merged or skipped. */
  function Absorb(data: map<string, Value>, lines: seq<Line>, parseTime: string -> Option<int>): map<string, Value>
    decreases |lines|
  {
    if lines == [] then data
    else
      var before := Absorb(data, lines[..|lines| - 1], parseTime);
      match Normalize(lines[|lines| - 1], parseTime)
      case None => before
      case Some(msg) => Merge(before, msg)
  }

  /** Over any stream of lines the reading only grows, and it never holds a
      name outside the canonical ones. */
  lemma {:induction false} AbsorbKeepsKeys(data: map<string, Value>, lines: seq<Line>, parseTime: string -> Option<int>)
    ensures data.Keys <= Absorb(data, lines, parseTime).Keys
    ensures data.Keys <= CanonicalNames(RemoteToLocalField) ==>
      Absorb(data, lines, parseTime).Keys <= CanonicalNames(RemoteToLocalField)
    decreases |lines|
  {
    if lines != [] {
      var before := Absorb(data, lines[..|lines| - 1], parseTime);
      AbsorbKeepsKeys(data, lines[..|lines| - 1], parseTime);
      match Normalize(lines[|lines| - 1], parseTime)
      case None =>
      case Some(msg) => MergeKeepsKeys(before, msg);
    }
  }

  /** The shared reading `DATA`, written by the collector and read by the
      uploader. */
  class SharedReading {
    var data: map<string, Value>

    /** Only canonical names are ever keys of `DATA`. */
    ghost predicate Valid()
      reads this
    {
      data.Keys <= CanonicalNames(RemoteToLocalField)
    }

    /** `DATA = {}` at module load. */
    constructor ()
      ensures Valid() && data == map[]
    {
      data := map[];
    }

    /** `Collector.update_data`: for each table entry, in order, copy the
        message's value under the canonical key when the vendor key is
        present. */
    method UpdateData(msg: map<string, Value>)
      requires Valid()
      modifies this
      ensures Valid()
      ensures data == Merge(old(data), msg)
      ensures old(data).Keys <= data.Keys
    {
      for i := 0 to |RemoteToLocalField|
        invariant data == MergeFields(old(data), msg, RemoteToLocalField[..i])
      {
        var (raw, canonical) := RemoteToLocalField[i];
        assert RemoteToLocalField[..i + 1][..i] == RemoteToLocalField[..i];
        if raw in msg {
          data := data[canonical := msg[raw]];
        }
      }
      assert RemoteToLocalField[..|RemoteToLocalField|] == RemoteToLocalField;
      MergeKeepsKeys(old(data), msg);
    }

    /** The body of the `for line in self.process.stdout` loop: decode,
        rewrite `time` and `battery_ok` in the decoded message, then merge.
        Returns whether the line was merged into `DATA` as an object. */
    method ProcessLine(line: Line, parseTime: string -> Option<int>) returns (merged: bool)
      requires Valid()
      modifies this
      ensures Valid()
      ensures merged <==> Normalize(line, parseTime).Some?
      ensures merged ==> data == Merge(old(data), Normalize(line, parseTime).value)
      ensures !merged ==> data == old(data)
    {
      merged := false;
      if line.Undecodable? {
        return;  // json.JSONDecodeError: silently skipped
      }
      if !line.json.ObjectV? {
        return;  // not a dict: TypeError, or `update_data` writes nothing
      }
      var msg := line.json.fields;
      if "time" in msg {
        if !msg["time"].StrV? {
          return;  // TypeError from strptime
        }
        var epoch := parseTime(msg["time"].s);
        if epoch.None? {
          return;  // ValueError from strptime
        }
        msg := msg["time" := IntV(epoch.value)];
      }
      if "battery_ok" in msg {
        msg := msg["battery_ok" := BoolV(EqualsOne(msg["battery_ok"]))];
      }
      assert Normalize(line, parseTime) == Some(msg);
      UpdateData(msg);
      merged := true;
    }

    /** `Collector.run` over a finite stretch of output lines. */
    method Collect(lines: seq<Line>, parseTime: string -> Option<int>)
      requires Valid()
      modifies this
      ensures Valid()
      ensures data == Absorb(old(data), lines, parseTime)
      ensures old(data).Keys <= data.Keys
    {
      for i := 0 to |lines|
        invariant Valid()
        invariant data == Absorb(old(data), lines[..i], parseTime)
      {
        assert lines[..i + 1][..i] == lines[..i];
        var _ := ProcessLine(lines[i], parseTime);
      }
      assert lines[..|lines|] == lines;
      AbsorbKeepsKeys(old(data), lines, parseTime);
    }
  }

  /** The scenario of a typical receiver line: id 7, battery_ok 1, a time
      string and a temperature update exactly those four canonical fields
      and leave the others as they were. */
  lemma ScenarioLine(data: map<string, Value>, parseTime: string -> Option<int>, epoch: int)
    requires parseTime("2025-10-05 19:55:21") == Some(epoch)
    ensures
      var line := Decoded(ObjectV(map["id" := IntV(7), "battery_ok" := IntV(1),
                                      "time" := StrV("2025-10-05 19:55:21"),
                                      "temperature_C" := FloatV(18.5)]));
      Normalize(line, parseTime).Some? &&
      Merge(data, Normalize(line, parseTime).value) ==
        data["broadcasted_station_id" := IntV(7)]["battery" := BoolV(true)]
            ["timestamp" := IntV(epoch)]["temperature" := FloatV(18.5)]
  {
    var fields := map["id" := IntV(7), "battery_ok" := IntV(1),
                      "time" := StrV("2025-10-05 19:55:21"),
                      "temperature_C" := FloatV(18.5)];
    var msg := map["id" := IntV(7), "battery_ok" := BoolV(true),
                   "time" := IntV(epoch), "temperature_C" := FloatV(18.5)];
    assert CoerceTime(fields, parseTime) == Some(fields["time" := IntV(epoch)]);
    assert fields["time" := IntV(epoch)]["battery_ok" := BoolV(true)] == msg;
    assert Normalize(Decoded(ObjectV(fields)), parseTime) == Some(msg);
    ScenarioMerge(data, epoch);
  }

  lemma ScenarioMerge(data: map<string, Value>, epoch: int)
    ensures
      Merge(data, map["id" := IntV(7), "battery_ok" := BoolV(true),
                      "time" := IntV(epoch), "temperature_C" := FloatV(18.5)]) ==
        data["broadcasted_station_id" := IntV(7)]["battery" := BoolV(true)]
            ["timestamp" := IntV(epoch)]["temperature" := FloatV(18.5)]
  {
    var msg := map["id" := IntV(7), "battery_ok" := BoolV(true),
                   "time" := IntV(epoch), "temperature_C" := FloatV(18.5)];
    var t := RemoteToLocalField;
    var d := data;
    assert MergeFields(data, msg, t[..0]) == d;
    for n := 0 to 9
      invariant MergeFields(data, msg, t[..n]) == d
      invariant n <= 4 ==> d == ScenarioPrefix(data, epoch, n)
      invariant n >= 4 ==> d == ScenarioPrefix(data, epoch, 4)
    {
      assert t[..n + 1][..n] == t[..n];
      assert t[..n + 1][n] == t[n];
      if n < 4 {
        d := d[t[n].1 := msg[t[n].0]];
      } else {
        assert t[n].0 !in msg;
      }
    }
    assert t[..9] == t;
  }

  /** The reading after the first `n` (at most four) writes of the scenario. */
  function ScenarioPrefix(data: map<string, Value>, epoch: int, n: nat): map<string, Value>
  {
    var d1 := if n >= 1 then data["broadcasted_station_id" := IntV(7)] else data;
    var d2 := if n >= 2 then d1["battery" := BoolV(true)] else d1;
    var d3 := if n >= 3 then d2["timestamp" := IntV(epoch)] else d2;
    if n >= 4 then d3["temperature" := FloatV(18.5)] else d3
  }

  // ---------------------------------------------------------------------
  // Configuration and the receiver command
  // ---------------------------------------------------------------------

  /** `_require`: an absent or empty environment variable is an error naming
      it; otherwise its value. */
  function Require(value: Option<string>, name: string): (r: Result<string, string>)
    ensures r.Success? <==> value.Some? && value.value != ""
    ensures r.Success? ==> r.value == value.value
    ensures r.Failure? ==> r.error == "Missing required environment variable: " + name
  {
    if value.None? || value.value == "" then Failure("Missing required environment variable: " + name)
    else Success(value.value)
  }

  datatype Config = Config(rtlCmd: string, uploadUrl: string, apiKey: string)

  /** The three `_require` calls at module load, in order: the first missing
      variable aborts start-up. */
  function LoadConfig(rtlCmd: Option<string>, uploadUrl: Option<string>, apiKey: Option<string>): (r: Result<Config, string>)
    ensures r.Success? <==> Require(rtlCmd, "RTL_CMD").Success? && Require(uploadUrl, "UPLOAD_URL").Success? && Require(apiKey, "API_KEY").Success?
    ensures r.Success? ==> r.value == Config(rtlCmd.value, uploadUrl.value, apiKey.value)
    ensures Require(rtlCmd, "RTL_CMD").Failure? ==> r == Failure(Require(rtlCmd, "RTL_CMD").error)
    ensures Require(rtlCmd, "RTL_CMD").Success? && Require(uploadUrl, "UPLOAD_URL").Failure? ==>
      r == Failure(Require(uploadUrl, "UPLOAD_URL").error)
    ensures (Require(rtlCmd, "RTL_CMD").Success? && Require(uploadUrl, "UPLOAD_URL").Success? &&
             Require(apiKey, "API_KEY").Failure?) ==>
      r == Failure(Require(apiKey, "API_KEY").error)
  {
    match Require(rtlCmd, "RTL_CMD")
    case Failure(e) => Failure(e)
    case Success(cmd) =>
      match Require(uploadUrl, "UPLOAD_URL")
      case Failure(e) => Failure(e)
      case Success(url) =>
        match Require(apiKey, "API_KEY")
        case Failure(e) => Failure(e)
        case Success(key) => Success(Config(cmd, url, key))
  }

  /** `cmd.split(" ")`: cut at every single space; consecutive, leading or
      trailing spaces give empty arguments, and the empty string gives one
      empty argument. */
  function Split(s: string): (parts: seq<string>)
    ensures |parts| >= 1
    decreases |s|
  {
    if s == [] then [""]
    else if s[0] == ' ' then [""] + Split(s[1..])
    else
      var rest := Split(s[1..]);
      [[s[0]] + rest[0]] + rest[1..]
  }

  /** No argument contains a space. */
  lemma {:induction false} SplitHasNoSpaces(s: string)
    ensures forall i :: 0 <= i < |Split(s)| ==> ' ' !in Split(s)[i]
    decreases |s|
  {
    if s != [] {
      SplitHasNoSpaces(s[1..]);
      var rest := Split(s[1..]);
      if s[0] != ' ' {
        assert ' ' !in [s[0]] + rest[0];
        forall i | 1 <= i < |Split(s)| ensures Split(s)[i] == rest[i] { }
      }
    }
  }

  /** `" ".join(parts)`. */
  function Join(parts: seq<string>): string
    requires |parts| >= 1
    decreases |parts|
  {
    if |parts| == 1 then parts[0] else parts[0] + " " + Join(parts[1..])
  }

  /** Re-joining the arguments with single spaces gives back the command. */
  lemma {:induction false} JoinSplit(s: string)
    ensures Join(Split(s)) == s
    decreases |s|
  {
    if s != [] {
      JoinSplit(s[1..]);
      SplitConsOne(s[0], s[1..]);
      JoinConsParts(s[0], Split(s[1..]));
      assert [s[0]] + s[1..] == s;
    }
  }

  /** Joining the arguments of `[c] + s` gives `c` before the join of those
      of `s`. */
  lemma {:induction false} JoinConsParts(c: char, rest: seq<string>)
    requires |rest| >= 1
    ensures Join(ConsParts(c, rest)) == [c] + Join(rest)
  {
    if c == ' ' {
      var parts := [""] + rest;
      assert |parts| > 1 && parts[0] == "" && parts[1..] == rest;
      assert Join(parts) == parts[0] + " " + Join(parts[1..]);
      assert "" + " " + Join(rest) == [c] + Join(rest);
    } else {
      JoinConsChar(c, rest[0], rest[1..]);
      assert [rest[0]] + rest[1..] == rest;
    }
  }

  /** Splitting a join of space-free arguments gives back the arguments. */
  lemma {:induction false} SplitJoin(parts: seq<string>)
    requires |parts| >= 1
    requires forall i :: 0 <= i < |parts| ==> ' ' !in parts[i]
    ensures Split(Join(parts)) == parts
    decreases |parts|, |parts[0]|
  {
    if parts[0] == [] {
      if |parts| > 1 {
        SplitJoin(parts[1..]);
        SplitConsOne(' ', Join(parts[1..]));
        assert Join(parts) == [' '] + Join(parts[1..]);
      }
    } else {
      var c, w := parts[0][0], parts[0][1..];
      var tail := [w] + parts[1..];
      forall k | 0 <= k < |w| ensures w[k] != ' ' {
        assert w[k] == parts[0][k + 1];
      }
      assert forall i :: 1 <= i < |tail| ==> tail[i] == parts[i];
      SplitJoin(tail);
      JoinConsChar(c, w, parts[1..]);
      assert [c] + w == parts[0];
      SplitConsOne(c, Join(tail));
      assert c != ' ';
      assert parts == [[c] + w] + tail[1..];
    }
  }

  /** Prefixing the first argument with a character prefixes the join. */
  lemma {:induction false} JoinConsChar(c: char, w: string, more: seq<string>)
    ensures Join([[c] + w] + more) == [c] + Join([w] + more)
  {
    if more != [] {
      assert ([[c] + w] + more)[1..] == more;
      assert ([w] + more)[1..] == more;
    }
  }

  /** Cutting at one space splits the argument list in two. */
  lemma {:induction false} SplitAtSpace(a: string, b: string)
    ensures Split(a + " " + b) == Split(a) + Split(b)
    decreases |a|
  {
    if a == [] {
      assert a + " " + b == [' '] + b;
      assert ([' '] + b)[1..] == b;
    } else {
      assert (a + " " + b)[1..] == a[1..] + " " + b;
      SplitAtSpace(a[1..], b);
      SplitConsOne(a[0], a[1..] + " " + b);
      SplitConsOne(a[0], a[1..]);
      ConsPartsAppend(a[0], Split(a[1..]), Split(b));
      assert [a[0]] + (a[1..] + " " + b) == a + " " + b;
      assert [a[0]] + a[1..] == a;
    }
  }

  /** One unfolding of `Split` on a string with a known first character. */
  lemma {:induction false} SplitConsOne(c: char, s: string)
    ensures Split([c] + s) == ConsParts(c, Split(s))
  {
    assert ([c] + s)[0] == c;
    assert ([c] + s)[1..] == s;
  }

  /** The argument list of `[c] + s` given that of `s`. */
  function ConsParts(c: char, rest: seq<string>): seq<string>
    requires |rest| >= 1
  {
    if c == ' ' then [""] + rest else [[c] + rest[0]] + rest[1..]
  }

  lemma {:induction false} ConsPartsAppend(c: char, rest: seq<string>, more: seq<string>)
    requires |rest| >= 1
    ensures ConsParts(c, rest + more) == ConsParts(c, rest) + more
  {
    if c != ' ' {
      assert (rest + more)[0] == rest[0];
      assert (rest + more)[1..] == rest[1..] + more;
    }
  }

  /** Two consecutive spaces yield an empty argument between the two
      halves. */
  lemma ConsecutiveSpaces(a: string, b: string)
    ensures Split(a + "  " + b) == Split(a) + [""] + Split(b)
  {
    assert a + "  " + b == a + " " + (" " + b);
    SplitAtSpace(a, " " + b);
    assert (" " + b)[0] == ' ' && (" " + b)[1..] == b;
  }
}
