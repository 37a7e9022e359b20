/** The ingestion API (server/app.py): `POST /api/v1/data` authenticates
    the station by its API key, validates the reading against the record
    schema and stores it; `GET /api/v1/data/<station_id>` answers with the
    station's latest reading. */
module App {
  import opened Values
  import opened Database

  /** The Python types the schema names. */
  datatype PyType = PyInt | PyBool | PyFloat

  /** `record_schema`, in its insertion order. */
  const RecordSchema: seq<(string, PyType)> := [
    ("broadcasted_station_id", PyInt),
    ("battery", PyBool),
    ("timestamp", PyInt),
    ("temperature", PyFloat),
    ("humidity", PyInt),
    ("wind_speed", PyFloat),
    ("wind_dir", PyInt),
    ("wind_gust", PyFloat),
    ("rain", PyFloat)
  ]

  /** Python's `isinstance(v, t)` on a decoded JSON value: `bool` is a
      subclass of `int`, and an `int` is not a `float`. */
  predicate IsInstance(v: Value, t: PyType): (r: bool)
    ensures r ==> IsNumber(v)
    ensures t.PyInt? ==> (r <==> IsIntLike(v))
    ensures v.IntV? ==> (r <==> t.PyInt?)
    ensures v.BoolV? ==> (r <==> !t.PyFloat?)
    ensures v.FloatV? ==> (r <==> t.PyFloat?)
  {
    match t
    case PyInt => v.IntV? || v.BoolV?
    case PyBool => v.BoolV?
    case PyFloat => v.FloatV?
  }

  /** `any([x not in data for x in record_schema.keys()])` */
  predicate MissingField(body: map<string, Value>)
  {
    exists i :: 0 <= i < |RecordSchema| && RecordSchema[i].0 !in body
  }

  /** `any([not isinstance(data[k], t) for k, t in record_schema.items()])` */
  predicate WrongType(body: map<string, Value>)
    requires !MissingField(body)
  {
    exists i :: 0 <= i < |RecordSchema| && !IsInstance(body[RecordSchema[i].0], RecordSchema[i].1)
  }

  /** The JSON body of a response. */
  datatype Body = Error(message: string) | EmptyObject | RecordObject(record: Record)

  datatype Response = Response(status: int, body: Body)

  /** What `add_record` answers, and the station on whose behalf it calls
      `db.add_record(data, station)`, if it does. */
  datatype Ingestion = Ingestion(response: Response, storedFor: Option<Station>)

  /** The guard ladder of `add_record`, given the `X-Api-Key` header (None
      when absent), the JSON body and the `station` table. */
  function AddRecord(token: Option<string>, body: map<string, Value>, stations: seq<Station>): (d: Ingestion)
    ensures d.response.status == 201 <==> d.storedFor.Some?
    ensures token.None? || token.value == "" ==> d.response == Response(401, Error("Missing API token"))
    ensures token.Some? && token.value != "" && FindStation(stations, token.value).None? ==>
      d.response == Response(401, Error("Invalid API token"))
    ensures d.response.status == 401 <==>
      token.None? || token.value == "" || FindStation(stations, token.value).None?
    ensures d.storedFor.Some? <==>
      && token.Some? && token.value != ""
      && FindStation(stations, token.value).Some?
      && !MissingField(body) && !WrongType(body)
    ensures d.storedFor.Some? ==>
      d.storedFor.value in stations && d.storedFor.value.apiToken == token.value
    ensures d.storedFor.Some? ==> HasColumns(body) && NumericReadings(body) && IsIntLike(body["timestamp"])
    ensures d.response.status == 400 ==>
      d.response.body == (if MissingField(body) then Error("Missing field") else Error("Wrong type"))
    ensures token.Some? && token.value != "" && FindStation(stations, token.value).Some? && MissingField(body) ==>
      d.response == Response(400, Error("Missing field"))
    ensures (token.Some? && token.value != "" && FindStation(stations, token.value).Some? &&
             !MissingField(body) && WrongType(body)) ==>
      d.response == Response(400, Error("Wrong type"))
    ensures d.storedFor.Some? ==> d.response == Response(201, EmptyObject)
  {
    if token.None? || token.value == "" then
      Ingestion(Response(401, Error("Missing API token")), None)
    else
      match FindStation(stations, token.value)
      case None => Ingestion(Response(401, Error("Invalid API token")), None)
      case Some(station) =>
        if MissingField(body) then Ingestion(Response(400, Error("Missing field")), None)
        else if WrongType(body) then Ingestion(Response(400, Error("Wrong type")), None)
        else
          ValidBodyHasColumns(body);
          Ingestion(Response(201, EmptyObject), Some(station))
  }

  /** Authentication comes first: without a valid key the body is never
      looked at, so every body gets the same 401 and nothing is stored. */
  lemma AuthenticationFirst(token: Option<string>, body: map<string, Value>, body': map<string, Value>, stations: seq<Station>)
    requires token.None? || token.value == "" || FindStation(stations, token.value).None?
    ensures AddRecord(token, body, stations) == AddRecord(token, body', stations)
    ensures AddRecord(token, body, stations).response.status == 401
    ensures AddRecord(token, body, stations).storedFor.None?
  {
  }

  /** Keys beyond the nine schema keys do not affect the outcome. */
  lemma {:induction false} ExtraKeysIgnored(token: Option<string>, body: map<string, Value>, key: string, v: Value, stations: seq<Station>)
    requires forall i :: 0 <= i < |RecordSchema| ==> RecordSchema[i].0 != key
    ensures AddRecord(token, body[key := v], stations) == AddRecord(token, body, stations)
  {
  }

  /** A body holding the nine keys with the expected types: integers for the
      int fields, `true` for `battery`, reals for the float fields. */
  function WellTypedBody(ts: Value, temperature: Value): map<string, Value>
  {
    map["broadcasted_station_id" := IntV(7), "battery" := BoolV(true), "timestamp" := ts,
        "temperature" := temperature, "humidity" := IntV(60), "wind_speed" := FloatV(1.5),
        "wind_dir" := IntV(180), "wind_gust" := FloatV(3.5), "rain" := FloatV(0.25)]
  }

  /** A bool passes the `int` check: `timestamp: true` is accepted. */
  lemma BoolPassesIntCheck(token: string, stations: seq<Station>)
    requires token != "" && FindStation(stations, token).Some?
    ensures AddRecord(Some(token), WellTypedBody(BoolV(true), FloatV(18.5)), stations).response.status == 201
  {
  }

  /** An int fails the `float` check: `temperature: 18` is rejected with
      "Wrong type". */
  lemma IntFailsFloatCheck(token: string, stations: seq<Station>)
    requires token != "" && FindStation(stations, token).Some?
    ensures AddRecord(Some(token), WellTypedBody(IntV(1759686921), IntV(18)), stations).response ==
      Response(400, Error("Wrong type"))
  {
    var body := WellTypedBody(IntV(1759686921), IntV(18));
    assert !MissingField(body);
    assert !IsInstance(body[RecordSchema[3].0], RecordSchema[3].1);
  }

  /** A body without `rain` is rejected with "Missing field", whatever the
      types of the other values. */
  lemma MissingRainRejected(token: string, body: map<string, Value>, stations: seq<Station>)
    requires token != "" && FindStation(stations, token).Some?
    requires "rain" !in body
    ensures AddRecord(Some(token), body, stations).response == Response(400, Error("Missing field"))
  {
    assert RecordSchema[8].0 !in body;
  }

  /** The schema's keys are exactly the columns `db.add_record` reads: a
      field is missing exactly when a column would be. */
  lemma {:induction false} MissingFieldIffNoColumns(body: map<string, Value>)
    ensures MissingField(body) <==> !HasColumns(body)
  {
    if !HasColumns(body) {
      assert RecordSchema[0].0 !in body || RecordSchema[1].0 !in body || RecordSchema[2].0 !in body ||
             RecordSchema[3].0 !in body || RecordSchema[4].0 !in body || RecordSchema[5].0 !in body ||
             RecordSchema[6].0 !in body || RecordSchema[7].0 !in body || RecordSchema[8].0 !in body;
    } else {
      forall i | 0 <= i < |RecordSchema| ensures RecordSchema[i].0 in body {
      }
    }
  }

  /** A body that passes validation has every column `db.add_record` reads,
      and an integer timestamp. */
  lemma {:induction false} ValidBodyHasColumns(body: map<string, Value>)
    requires !MissingField(body) && !WrongType(body)
    ensures HasColumns(body)
    ensures NumericReadings(body)
    ensures IsIntLike(body["timestamp"])
  {
    assert RecordSchema[0].0 in body && RecordSchema[1].0 in body && RecordSchema[2].0 in body;
    assert RecordSchema[3].0 in body && RecordSchema[4].0 in body && RecordSchema[5].0 in body;
    assert RecordSchema[6].0 in body && RecordSchema[7].0 in body && RecordSchema[8].0 in body;
    assert IsInstance(body[RecordSchema[0].0], RecordSchema[0].1);
    assert IsInstance(body[RecordSchema[1].0], RecordSchema[1].1);
    assert IsInstance(body[RecordSchema[2].0], RecordSchema[2].1);
    assert IsInstance(body[RecordSchema[3].0], RecordSchema[3].1);
    assert IsInstance(body[RecordSchema[4].0], RecordSchema[4].1);
    assert IsInstance(body[RecordSchema[5].0], RecordSchema[5].1);
    assert IsInstance(body[RecordSchema[6].0], RecordSchema[6].1);
    assert IsInstance(body[RecordSchema[7].0], RecordSchema[7].1);
    assert IsInstance(body[RecordSchema[8].0], RecordSchema[8].1);
  }

  /** The answer of `get_last_record` for what the store returned. */
  function LastRecordResponse(record: Option<Record>): (r: Response)
    ensures r.status == 200 <==> record.Some?
    ensures record.Some? ==> r.body == RecordObject(record.value)
    ensures record.None? ==> r == Response(404, EmptyObject)
  {
    match record
    case Some(rec) => Response(200, RecordObject(rec))
    case None => Response(404, EmptyObject)
  }

  /** The `POST /api/v1/data` handler against the shared connection: the
      connection is opened only once the key is present, the answer is the
      guard ladder's, and a row is appended exactly when the answer is
      201. */
  method PostData(registry: DBSingleton, persisted: Tables, token: Option<string>, body: map<string, Value>)
    returns (response: Response)
    requires registry.Valid() && persisted.WellFormed()
    modifies registry, registry.instance
    ensures registry.Valid()
    ensures response == AddRecord(token, body, old(registry.Current(persisted)).stations).response
    ensures token.None? || token.value == "" ==> registry.instance == old(registry.instance)
    ensures registry.Current(persisted).stations == old(registry.Current(persisted)).stations
    ensures response.status == 201 ==>
      registry.Current(persisted).records ==
        old(registry.Current(persisted)).records +
        [NewRecord(old(registry.Current(persisted)).lastRecordId + 1, body,
                   AddRecord(token, body, old(registry.Current(persisted)).stations).storedFor.value)]
    ensures response.status == 201 ==>
      registry.Current(persisted).lastRecordId == old(registry.Current(persisted)).lastRecordId + 1
    ensures response.status != 201 ==> registry.Current(persisted) == old(registry.Current(persisted))
  {
    if token.None? || token.value == "" {
      return Response(401, Error("Missing API token"));
    }
    var db := registry.GetInstance(persisted);
    var station := db.GetStationByToken(token.value);
    if station.None? {
      return Response(401, Error("Invalid API token"));
    }
    if MissingField(body) {
      return Response(400, Error("Missing field"));
    }
    if WrongType(body) {
      return Response(400, Error("Wrong type"));
    }
    ValidBodyHasColumns(body);
    var _ := db.AddRecord(body, station.value);
    return Response(201, EmptyObject);
  }

  /** The `GET /api/v1/data/<station_id>` handler: 200 with a latest row of
      the station, or 404 when it has none; the tables are left as they
      were. */
  method GetData(registry: DBSingleton, persisted: Tables, stationId: int) returns (response: Response)
    requires registry.Valid() && persisted.WellFormed()
    modifies registry
    ensures registry.Valid()
    ensures registry.Current(persisted) == old(registry.Current(persisted))
    ensures var records := registry.Current(persisted).records;
      && (response.status == 200 <==> exists i :: 0 <= i < |records| && records[i].stationId == stationId)
      && (response.status != 200 ==> response == Response(404, EmptyObject))
      && (response.status == 200 ==>
            response.body.RecordObject? && response.body.record in records &&
            response.body.record.stationId == stationId &&
            forall i :: 0 <= i < |records| && records[i].stationId == stationId ==>
              records[i].timestamp <= response.body.record.timestamp)
  {
    var db := registry.GetInstance(persisted);
    var record := db.GetLastRecord(stationId);
    response := LastRecordResponse(record);
  }
}
