/** The server's storage layer (server/db.py): the `station` and `record`
    tables of the SQLite file, held in memory, with the lookups and the
    insert the ingestion API uses, and the lazily created `DB.INSTANCE`. */
module Database {
  import opened Values

  /** A row of the `station` table. */
  datatype Station = Station(id: int, name: string, description: string, apiToken: string)

  /** A row of the `record` table. `timestamp` is kept as the integer the
      rows are ordered by; the other readings are kept as SQLite stores
      them (see `Stored`). */
  datatype Record = Record(
    id: int,
    broadcastedStationId: Value,
    battery: Value,
    timestamp: int,
    temperature: Value,
    humidity: Value,
    windSpeed: Value,
    windDir: Value,
    windGust: Value,
    rain: Value,
    stationId: int)

  /** The data holds the nine reading columns of `record` that `add_record`
      reads (a missing one raises KeyError). */
  predicate HasColumns(data: map<string, Value>)
  {
    && "broadcasted_station_id" in data && "battery" in data && "timestamp" in data
    && "temperature" in data && "humidity" in data && "wind_speed" in data
    && "wind_dir" in data && "wind_gust" in data && "rain" in data
  }

  /** A value Python's `isinstance(v, int)` accepts: an int or a bool. */
  predicate IsIntLike(v: Value)
  {
    v.IntV? || v.BoolV?
  }

  /** A JSON number or bool: the values sqlite3 binds as SQLite numbers. */
  predicate IsNumber(v: Value)
  {
    v.IntV? || v.BoolV? || v.FloatV?
  }

  /** Every one of the nine reading columns holds a number or a bool. */
  predicate NumericReadings(data: map<string, Value>)
    requires HasColumns(data)
  {
    && IsNumber(data["broadcasted_station_id"]) && IsNumber(data["battery"])
    && IsNumber(data["timestamp"]) && IsNumber(data["temperature"])
    && IsNumber(data["humidity"]) && IsNumber(data["wind_speed"])
    && IsNumber(data["wind_dir"]) && IsNumber(data["wind_gust"])
    && IsNumber(data["rain"])
  }

  /** The number a numeric JSON value stands for. */
  function Numeric(v: Value): real
    requires IsNumber(v)
  {
    match v
    case IntV(i) => i as real
    case BoolV(b) => if b then 1.0 else 0.0
    case FloatV(f) => f
  }

  /** `a` and `b` are numbers that stand for the same value. */
  predicate SameNumber(a: Value, b: Value)
  {
    IsNumber(a) && IsNumber(b) && Numeric(a) == Numeric(b)
  }

  /** The smallest and the largest signed 64-bit integer. */
  const MinInt64: int := -0x8000_0000_0000_0000
  const MaxInt64: int := 0x7FFF_FFFF_FFFF_FFFF

  /** A real SQLite converts to an INTEGER under NUMERIC affinity: exactly an
      integer, and strictly between the smallest and the largest 64-bit
      integer. */
  predicate IntegralInRange(f: real)
  {
    f.Floor as real == f && MinInt64 < f.Floor < MaxInt64
  }

  /** What a column with NUMERIC affinity (BOOL, INTEGER, DECIMAL) keeps of a
      bound value: Python's sqlite3 binds a bool as the integer 0 or 1, and
      SQLite stores a real that is an integer strictly inside the 64-bit
      range as that integer; any other real stays a real. The stored value
      stands for the same number and is never a bool. */
  function Stored(v: Value): (r: Value)
    requires IsNumber(v)
    ensures (r.IntV? || r.FloatV?) && Numeric(r) == Numeric(v)
    ensures r.FloatV? <==> v.FloatV? && !IntegralInRange(v.f)
    ensures r.IntV? ==> MinInt64 < r.i < MaxInt64 || v.IntV?
    ensures v.IntV? ==> r == v
  {
    match v
    case BoolV(b) => IntV(if b then 1 else 0)
    case FloatV(f) => if IntegralInRange(f) then IntV(f.Floor) else v
    case IntV(_) => v
  }

  /** An integral float outside the 64-bit range stays a real: `1e20` is
      kept as the REAL 1e20, not as an integer. */
  lemma LargeIntegralFloatStaysReal()
    ensures Stored(FloatV(1.0e20)) == FloatV(1.0e20)
    ensures Stored(FloatV(18.0)) == IntV(18)
  {
  }

  /** The value SQLite keeps in an INTEGER column for an int or a bool. */
  function AsInt(v: Value): (n: int)
    requires IsIntLike(v)
    ensures n as real == Numeric(v)
  {
    if v.IntV? then v.i else if v.b then 1 else 0
  }

  /** The row `add_record` inserts for `data` on behalf of `station`. */
  function NewRecord(id: int, data: map<string, Value>, station: Station): (r: Record)
    requires HasColumns(data) && NumericReadings(data)
    requires IsIntLike(data["timestamp"])
    ensures r.id == id && r.stationId == station.id
    ensures r.timestamp as real == Numeric(data["timestamp"])
    ensures SameNumber(r.broadcastedStationId, data["broadcasted_station_id"])
    ensures SameNumber(r.battery, data["battery"])
    ensures SameNumber(r.temperature, data["temperature"])
    ensures SameNumber(r.humidity, data["humidity"])
    ensures SameNumber(r.windSpeed, data["wind_speed"])
    ensures SameNumber(r.windDir, data["wind_dir"])
    ensures SameNumber(r.windGust, data["wind_gust"])
    ensures SameNumber(r.rain, data["rain"])
  {
    Record(id,
      Stored(data["broadcasted_station_id"]), Stored(data["battery"]),
      AsInt(data["timestamp"]), Stored(data["temperature"]), Stored(data["humidity"]),
      Stored(data["wind_speed"]), Stored(data["wind_dir"]), Stored(data["wind_gust"]),
      Stored(data["rain"]), station.id)
  }

  /** The first station whose `api_token` is `token`: the row
      `SELECT * FROM station WHERE api_token = ?` fetches first. */
  function FindStation(stations: seq<Station>, token: string): (r: Option<Station>)
    ensures r.Some? ==> r.value in stations && r.value.apiToken == token
    ensures r.None? <==> forall i :: 0 <= i < |stations| ==> stations[i].apiToken != token
    decreases |stations|
  {
    if stations == [] then None
    else if stations[0].apiToken == token then Some(stations[0])
    else FindStation(stations[1..], token)
  }

  /** The contents of the database file: both tables and the AUTOINCREMENT
      counter of `record` (its `sqlite_sequence` entry). */
  datatype Tables = Tables(stations: seq<Station>, records: seq<Record>, lastRecordId: int)
  {
    /** AUTOINCREMENT keeps row ids increasing in insertion order and never
        above the counter. */
    predicate WellFormed()
    {
      && 0 <= lastRecordId
      && (forall i :: 0 <= i < |records| ==> records[i].id <= lastRecordId)
      && (forall i, j :: 0 <= i < j < |records| ==> records[i].id < records[j].id)
    }
  }

  /** A connection to the database, `DB`. */
  class DB {
    var stations: seq<Station>
    var records: seq<Record>
    var lastRecordId: int

    function Contents(): Tables
      reads this
    {
      Tables(stations, records, lastRecordId)
    }

    ghost predicate Valid()
      reads this
    {
      Contents().WellFormed()
    }

    /** `DB.__init__`: connect to the file holding `persisted`. */
    constructor (persisted: Tables)
      requires persisted.WellFormed()
      ensures Valid() && Contents() == persisted
    {
      stations := persisted.stations;
      records := persisted.records;
      lastRecordId := persisted.lastRecordId;
    }

    /** `get_station_by_token`: a station holding the token, or nothing when
        no station does. */
    method GetStationByToken(token: string) returns (station: Option<Station>)
      ensures station == FindStation(stations, token)
      ensures station.Some? ==> station.value in stations && station.value.apiToken == token
      ensures station.None? <==> forall i :: 0 <= i < |stations| ==> stations[i].apiToken != token
    {
      var i := 0;
      while i < |stations|
        invariant 0 <= i <= |stations|
        invariant FindStation(stations, token) == FindStation(stations[i..], token)
        invariant forall j :: 0 <= j < i ==> stations[j].apiToken != token
      {
        assert stations[i..][1..] == stations[i + 1..];
        if stations[i].apiToken == token {
          return Some(stations[i]);
        }
        i := i + 1;
      }
      return None;
    }

    /** `add_record`: insert one row with the nine readings of `data` and the
        station's id, commit, and return the new row's id. */
    method AddRecord(data: map<string, Value>, station: Station) returns (id: int)
      requires Valid()
      requires HasColumns(data) && NumericReadings(data)
      requires IsIntLike(data["timestamp"])
      modifies this
      ensures Valid()
      ensures id == old(lastRecordId) + 1 && lastRecordId == id
      ensures forall i :: 0 <= i < |old(records)| ==> old(records)[i].id < id
      ensures records == old(records) + [NewRecord(id, data, station)]
      ensures stations == old(stations)
    {
      id := lastRecordId + 1;
      records := records + [NewRecord(id, data, station)];
      lastRecordId := id;
    }

    /** `get_last_record`: a row of the station with the greatest
        timestamp, or nothing when the station has no row. Which of several
        rows sharing the greatest timestamp is returned is not fixed. */
    method GetLastRecord(stationId: int) returns (record: Option<Record>)
      ensures record.None? <==> forall i :: 0 <= i < |records| ==> records[i].stationId != stationId
      ensures record.Some? ==> record.value in records && record.value.stationId == stationId
      ensures record.Some? ==> forall i :: 0 <= i < |records| && records[i].stationId == stationId ==>
        records[i].timestamp <= record.value.timestamp
    {
      record := None;
      for i := 0 to |records|
        invariant record.None? <==> forall j :: 0 <= j < i ==> records[j].stationId != stationId
        invariant record.Some? ==> record.value in records && record.value.stationId == stationId
        invariant record.Some? ==> forall j :: 0 <= j < i && records[j].stationId == stationId ==>
          records[j].timestamp <= record.value.timestamp
      {
        if records[i].stationId == stationId {
          if record.None? || record.value.timestamp < records[i].timestamp {
            record := Some(records[i]);
          }
        }
      }
    }
  }

  /** The class attribute `DB.INSTANCE`, shared by every request. */
  class DBSingleton {
    var instance: DB?

    ghost predicate Valid()
      reads this, instance
    {
      instance != null ==> instance.Valid()
    }

    /** The tables a request sees: the open connection's, or the file's when
        no connection has been made yet. */
    function Current(persisted: Tables): Tables
      reads this, instance
    {
      if instance == null then persisted else instance.Contents()
    }

    constructor ()
      ensures Valid() && instance == null
    {
      instance := null;
    }

    /** `DB.get_instance`: connect on the first call, and return that same
        connection on this and every later call. */
    method GetInstance(persisted: Tables) returns (db: DB)
      requires Valid() && persisted.WellFormed()
      modifies this
      ensures Valid() && instance == db
      ensures old(instance) != null ==> db == old(instance)
      ensures old(instance) == null ==> fresh(db)
      ensures Current(persisted) == old(Current(persisted))
    {
      if instance == null {
        instance := new DB(persisted);
      }
      db := instance;
    }
  }
}
