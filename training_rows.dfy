/** The reading half of src/model/data/create_training_set.py (and of its
    older copy src/solar_production_prediction/training/data/create_training_set.py,
    whose reading is the same but for the air-quality table): the production
    records, the hourly weather records grouped by date, and the daily
    air-quality table. CSV rows are given as maps from column name to text;
    `strptime`, `locale.atoi`, `fromisoformat` and `float` are given as
    functions that yield None where they raise. */
module TrainingRows {
  import opened Common
  import opened FieldKey

  type Row = map<string, string>

  datatype Parsers = Parsers(
    usDate: string -> Option<Date>,          // datetime.strptime(ds, "%m/%d/%Y").date()
    atoi: string -> Option<int>,             // locale.atoi
    isoDateTime: string -> Option<DateTime>, // datetime.fromisoformat
    isoDate: string -> Option<Date>,         // date.fromisoformat
    float: string -> Option<real>)           // float

  datatype BuildError =
    | MissingColumn(column: string)            // KeyError on a row
    | Unparsable(column: string, text: string) // ValueError from a parser
    | NoAqiForDate(date: Date)                 // KeyError on the air-quality table
    | NoWeatherForDate(date: Date)             // KeyError on the weather table
    | NoRecords                                // IndexError on the first joined record
    | FieldsNotInHeader(index: nat)            // ValueError from DictWriter.writerows

  /** The column the production export holds the energy in. */
  const ENERGY_PRODUCED_COLUMN: string := "energy_produced_Wh"
  const DATETIME_COLUMN: string := "datetime"
  const PM25_COLUMN: string := "pm25_daily_avg"

  /** The weather observations kept per hour, in this order. */
  const OBSERVATIONS: seq<string> := ["temp", "humidity", "cloudcover"]

  /** `formatter(row[column])`. */
  function Field<T>(row: Row, column: string, parse: string -> Option<T>): (r: Result<T, BuildError>)
    ensures r.Ok? <==> column in row && parse(row[column]).Some?
    ensures r.Ok? ==> Some(r.value) == parse(row[column])
    ensures r.Err? ==> r.error == if column in row then Unparsable(column, row[column]) else MissingColumn(column)
  {
    if column !in row then Err(MissingColumn(column))
    else
      match parse(row[column])
      case None => Err(Unparsable(column, row[column]))
      case Some(v) => Ok(v)
  }

  // ---------------------------------------------------------------------
  // Production records

  /** A production record; its energy column is renamed on the way in. */
  datatype SolarProductionRecord = SolarProductionRecord(date: Date, energyProductionWh: int)

  function ParseProduction(row: Row, p: Parsers): (r: Result<SolarProductionRecord, BuildError>)
    ensures r.Ok? <==> Field(row, DATE_FIELD, p.usDate).Ok? && Field(row, ENERGY_PRODUCED_COLUMN, p.atoi).Ok?
    ensures r.Ok? ==> (r.value.date == Field(row, DATE_FIELD, p.usDate).value &&
      r.value.energyProductionWh == Field(row, ENERGY_PRODUCED_COLUMN, p.atoi).value)
    ensures Field(row, DATE_FIELD, p.usDate).Err? ==> r == Err(Field(row, DATE_FIELD, p.usDate).error)
  {
    match Field(row, DATE_FIELD, p.usDate)
    case Err(e) => Err(e)
    case Ok(d) =>
      match Field(row, ENERGY_PRODUCED_COLUMN, p.atoi)
      case Err(e) => Err(e)
      case Ok(n) => Ok(SolarProductionRecord(d, n))
  }

  function ProductionRecords(rows: seq<Row>, p: Parsers): Result<seq<SolarProductionRecord>, BuildError>
  {
    if rows == [] then Ok([])
    else
      match ProductionRecords(rows[..|rows| - 1], p)
      case Err(e) => Err(e)
      case Ok(rs) =>
        match ParseProduction(rows[|rows| - 1], p)
        case Err(e) => Err(e)
        case Ok(rec) => Ok(rs + [rec])
  }

  /** One production record per row, in row order, or the first row's error. */
  lemma {:induction false} ProductionRecordsPositional(rows: seq<Row>, p: Parsers)
    ensures ProductionRecords(rows, p).Ok? <==> forall i :: 0 <= i < |rows| ==> ParseProduction(rows[i], p).Ok?
    ensures ProductionRecords(rows, p).Ok? ==>
      |ProductionRecords(rows, p).value| == |rows| &&
      forall i :: 0 <= i < |rows| ==> ProductionRecords(rows, p).value[i] == ParseProduction(rows[i], p).value
  {
    if rows != [] {
      var pre := rows[..|rows| - 1];
      ProductionRecordsPositional(pre, p);
      assert forall i :: 0 <= i < |pre| ==> pre[i] == rows[i];
      if ProductionRecords(pre, p).Err? {
        var i :| 0 <= i < |pre| && !ParseProduction(pre[i], p).Ok?;
        assert !ParseProduction(rows[i], p).Ok?;
      }
    }
  }

  lemma {:induction false} ProductionErrorPersists(rows: seq<Row>, k: nat, p: Parsers)
    requires k <= |rows| && ProductionRecords(rows[..k], p).Err?
    ensures ProductionRecords(rows, p) == ProductionRecords(rows[..k], p)
    decreases |rows|
  {
    if k < |rows| {
      var pre := rows[..|rows| - 1];
      assert pre[..k] == rows[..k];
      ProductionErrorPersists(pre, k, p);
    } else {
      assert rows[..k] == rows;
    }
  }

  /** The loop over the production export. */
  method ReadProduction(rows: seq<Row>, p: Parsers) returns (r: Result<seq<SolarProductionRecord>, BuildError>)
    ensures r == ProductionRecords(rows, p)
  {
    var records: seq<SolarProductionRecord> := [];
    for i := 0 to |rows|
      invariant ProductionRecords(rows[..i], p) == Ok(records)
    {
      assert rows[..i + 1][..i] == rows[..i];
      var record := ParseProduction(rows[i], p);
      if record.Err? {
        ProductionErrorPersists(rows, i + 1, p);
        return Err(record.error);
      }
      records := records + [record.value];
    }
    assert rows[..|rows|] == rows;
    r := Ok(records);
  }

  // ---------------------------------------------------------------------
  // Hourly weather records, grouped by date

  datatype WeatherRecordHourly = WeatherRecordHourly(datetime: DateTime, observations: seq<(string, real)>)
  datatype WeatherRecordDaily = WeatherRecordDaily(date: Date, hours: seq<WeatherRecordHourly>)

  /** The observations `names` of a row, in order. */
  function ReadObservations(row: Row, names: seq<string>, p: Parsers): Result<seq<(string, real)>, BuildError>
  {
    if names == [] then Ok([])
    else
      match ReadObservations(row, names[..|names| - 1], p)
      case Err(e) => Err(e)
      case Ok(obs) =>
        match Field(row, names[|names| - 1], p.float)
        case Err(e) => Err(e)
        case Ok(v) => Ok(obs + [(names[|names| - 1], v)])
  }

  /** Each observation is read from its own column, under its own name. */
  lemma {:induction false} ReadObservationsNames(row: Row, names: seq<string>, p: Parsers)
    ensures ReadObservations(row, names, p).Ok? <==> forall k :: 0 <= k < |names| ==> Field(row, names[k], p.float).Ok?
    ensures ReadObservations(row, names, p).Ok? ==>
      var obs := ReadObservations(row, names, p).value;
      |obs| == |names| &&
      forall k :: 0 <= k < |names| ==> obs[k].0 == names[k] && Field(row, names[k], p.float) == Ok(obs[k].1)
  {
    if names != [] {
      var pre := names[..|names| - 1];
      ReadObservationsNames(row, pre, p);
      assert forall k :: 0 <= k < |pre| ==> pre[k] == names[k];
      if ReadObservations(row, pre, p).Err? {
        var k :| 0 <= k < |pre| && !Field(row, pre[k], p.float).Ok?;
        assert !Field(row, names[k], p.float).Ok?;
      }
    }
  }

  lemma {:induction false} ReadObservationsErrorPersists(row: Row, names: seq<string>, k: nat, p: Parsers)
    requires k <= |names| && ReadObservations(row, names[..k], p).Err?
    ensures ReadObservations(row, names, p) == ReadObservations(row, names[..k], p)
    decreases |names|
  {
    if k < |names| {
      var pre := names[..|names| - 1];
      assert pre[..k] == names[..k];
      ReadObservationsErrorPersists(row, pre, k, p);
    } else {
      assert names[..k] == names;
    }
  }

  /** One weather row: its datetime, then its observations. */
  function ParseHour(row: Row, p: Parsers): Result<WeatherRecordHourly, BuildError>
  {
    match Field(row, DATETIME_COLUMN, p.isoDateTime)
    case Err(e) => Err(e)
    case Ok(dt) =>
      match ReadObservations(row, OBSERVATIONS, p)
      case Err(e) => Err(e)
      case Ok(obs) => Ok(WeatherRecordHourly(dt, obs))
  }

  /** The observations of an hourly record are those named, in that order. */
  predicate HasObservations(h: WeatherRecordHourly)
  {
    |h.observations| == |OBSERVATIONS| &&
    forall k :: 0 <= k < |OBSERVATIONS| ==> h.observations[k].0 == OBSERVATIONS[k]
  }

  /** Every weather row gives one hourly record holding temp, humidity and
      cloudcover in this order, each read from its column. */
  lemma ParseHourMeaning(row: Row, p: Parsers)
    ensures ParseHour(row, p).Ok? <==> (Field(row, DATETIME_COLUMN, p.isoDateTime).Ok? &&
      forall k :: 0 <= k < |OBSERVATIONS| ==> Field(row, OBSERVATIONS[k], p.float).Ok?)
    ensures ParseHour(row, p).Ok? ==>
      var h := ParseHour(row, p).value;
      HasObservations(h) && Field(row, DATETIME_COLUMN, p.isoDateTime) == Ok(h.datetime) &&
      forall k :: 0 <= k < |OBSERVATIONS| ==> Field(row, OBSERVATIONS[k], p.float) == Ok(h.observations[k].1)
  {
    ReadObservationsNames(row, OBSERVATIONS, p);
  }

  function WeatherHours(rows: seq<Row>, p: Parsers): Result<seq<WeatherRecordHourly>, BuildError>
  {
    if rows == [] then Ok([])
    else
      match WeatherHours(rows[..|rows| - 1], p)
      case Err(e) => Err(e)
      case Ok(hs) =>
        match ParseHour(rows[|rows| - 1], p)
        case Err(e) => Err(e)
        case Ok(h) => Ok(hs + [h])
  }

  lemma {:induction false} WeatherHoursPositional(rows: seq<Row>, p: Parsers)
    requires WeatherHours(rows, p).Ok?
    ensures |WeatherHours(rows, p).value| == |rows|
    ensures forall i :: 0 <= i < |rows| ==> ParseHour(rows[i], p) == Ok(WeatherHours(rows, p).value[i])
  {
    if rows != [] {
      var pre := rows[..|rows| - 1];
      WeatherHoursPositional(pre, p);
      assert forall i :: 0 <= i < |pre| ==> pre[i] == rows[i];
    }
  }

  lemma {:induction false} WeatherHoursErrorPersists(rows: seq<Row>, k: nat, p: Parsers)
    requires k <= |rows| && WeatherHours(rows[..k], p).Err?
    ensures WeatherHours(rows, p) == WeatherHours(rows[..k], p)
    decreases |rows|
  {
    if k < |rows| {
      var pre := rows[..|rows| - 1];
      assert pre[..k] == rows[..k];
      WeatherHoursErrorPersists(pre, k, p);
    } else {
      assert rows[..k] == rows;
    }
  }

  /** Appends `h` to the daily record of its date, creating that record on
      first sight. */
  function AddHour(table: map<Date, WeatherRecordDaily>, h: WeatherRecordHourly): (r: map<Date, WeatherRecordDaily>)
    ensures r.Keys == table.Keys + {h.datetime.date}
    ensures forall d :: d in table && d != h.datetime.date ==> r[d] == table[d]
    ensures r[h.datetime.date].hours ==
      (if h.datetime.date in table then table[h.datetime.date].hours else []) + [h]
    ensures r[h.datetime.date].date ==
      if h.datetime.date in table then table[h.datetime.date].date else h.datetime.date
  {
    var d := h.datetime.date;
    var seen := if d in table then table else table[d := WeatherRecordDaily(d, [])];
    seen[d := seen[d].(hours := seen[d].hours + [h])]
  }

  function GroupHours(hs: seq<WeatherRecordHourly>): map<Date, WeatherRecordDaily>
  {
    if hs == [] then map[] else AddHour(GroupHours(hs[..|hs| - 1]), hs[|hs| - 1])
  }

  /** The hourly records of date `d`, in order. */
  function HoursOn(hs: seq<WeatherRecordHourly>, d: Date): seq<WeatherRecordHourly>
  {
    if hs == [] then []
    else HoursOn(hs[..|hs| - 1], d) + (if hs[|hs| - 1].datetime.date == d then [hs[|hs| - 1]] else [])
  }

  lemma {:induction false} HoursOnNone(hs: seq<WeatherRecordHourly>, d: Date)
    requires forall i :: 0 <= i < |hs| ==> hs[i].datetime.date != d
    ensures HoursOn(hs, d) == []
  {
    if hs != [] {
      var pre := hs[..|hs| - 1];
      assert forall i :: 0 <= i < |pre| ==> pre[i] == hs[i];
      HoursOnNone(pre, d);
    }
  }

  /** The table has a daily record for exactly the dates seen. */
  lemma {:induction false} GroupHoursDomain(hs: seq<WeatherRecordHourly>)
    ensures forall d :: d in GroupHours(hs) <==> exists i :: 0 <= i < |hs| && hs[i].datetime.date == d
  {
    if hs != [] {
      var pre, h := hs[..|hs| - 1], hs[|hs| - 1];
      GroupHoursDomain(pre);
      var before, after := GroupHours(pre), GroupHours(hs);
      assert after == AddHour(before, h);
      assert after.Keys == before.Keys + {h.datetime.date};
      forall d
        ensures d in after <==> exists i :: 0 <= i < |hs| && hs[i].datetime.date == d
      {
        if d == h.datetime.date {
          assert hs[|hs| - 1].datetime.date == d;
        } else if d in before {
          var i :| 0 <= i < |pre| && pre[i].datetime.date == d;
          assert hs[i] == pre[i];
        } else {
          forall i | 0 <= i < |hs|
            ensures hs[i].datetime.date != d
          {
            if i < |pre| {
              assert hs[i] == pre[i];
            }
          }
        }
      }
    }
  }

  /** Each daily record holds its own date and exactly the hourly records of
      that date, in file order; appending to one date leaves the others as
      they were. */
  lemma {:induction false} GroupHoursContents(hs: seq<WeatherRecordHourly>)
    ensures forall d :: d in GroupHours(hs) ==> GroupHours(hs)[d] == WeatherRecordDaily(d, HoursOn(hs, d))
  {
    if hs != [] {
      var pre, h := hs[..|hs| - 1], hs[|hs| - 1];
      GroupHoursContents(pre);
      assert GroupHours(hs) == AddHour(GroupHours(pre), h);
      forall d | d in GroupHours(hs)
        ensures GroupHours(hs)[d] == WeatherRecordDaily(d, HoursOn(hs, d))
      {
        if d == h.datetime.date {
          assert HoursOn(hs, d) == HoursOn(pre, d) + [h];
          if d !in GroupHours(pre) {
            GroupHoursDomain(pre);
            HoursOnNone(pre, d);
          }
        } else {
          assert HoursOn(hs, d) == HoursOn(pre, d) + [];
        }
      }
    }
  }

  /** Every hourly record of the table holds the named observations. */
  lemma {:induction false} GroupHoursKeepsObservations(hs: seq<WeatherRecordHourly>)
    requires forall i :: 0 <= i < |hs| ==> HasObservations(hs[i])
    ensures forall d, j :: d in GroupHours(hs) && 0 <= j < |GroupHours(hs)[d].hours| ==>
      HasObservations(GroupHours(hs)[d].hours[j])
  {
    if hs != [] {
      var pre := hs[..|hs| - 1];
      assert forall i :: 0 <= i < |pre| ==> pre[i] == hs[i];
      GroupHoursKeepsObservations(pre);
    }
  }

  /** The weather table, or the first row's error. */
  function WeatherTable(rows: seq<Row>, p: Parsers): Result<map<Date, WeatherRecordDaily>, BuildError>
  {
    match WeatherHours(rows, p)
    case Err(e) => Err(e)
    case Ok(hs) => Ok(GroupHours(hs))
  }

  /** One weather row: the datetime, then the loop over the observations. */
  method ReadHour(row: Row, p: Parsers) returns (r: Result<WeatherRecordHourly, BuildError>)
    ensures r == ParseHour(row, p)
  {
    var hourDatetime := Field(row, DATETIME_COLUMN, p.isoDateTime);
    if hourDatetime.Err? {
      return Err(hourDatetime.error);
    }
    var observations: seq<(string, real)> := [];
    for k := 0 to |OBSERVATIONS|
      invariant ReadObservations(row, OBSERVATIONS[..k], p) == Ok(observations)
    {
      assert OBSERVATIONS[..k + 1][..k] == OBSERVATIONS[..k];
      var value := Field(row, OBSERVATIONS[k], p.float);
      if value.Err? {
        ReadObservationsErrorPersists(row, OBSERVATIONS, k + 1, p);
        return Err(value.error);
      }
      observations := observations + [(OBSERVATIONS[k], value.value)];
    }
    assert OBSERVATIONS[..|OBSERVATIONS|] == OBSERVATIONS;
    r := Ok(WeatherRecordHourly(hourDatetime.value, observations));
  }

  /** The loop over the weather export. */
  method ReadWeather(rows: seq<Row>, p: Parsers) returns (r: Result<map<Date, WeatherRecordDaily>, BuildError>)
    ensures r == WeatherTable(rows, p)
  {
    ghost var hs: seq<WeatherRecordHourly> := [];
    var weatherRecords: map<Date, WeatherRecordDaily> := map[];
    for i := 0 to |rows|
      invariant WeatherHours(rows[..i], p) == Ok(hs)
      invariant weatherRecords == GroupHours(hs)
    {
      assert rows[..i + 1][..i] == rows[..i];
      var hour := ReadHour(rows[i], p);
      if hour.Err? {
        WeatherHoursErrorPersists(rows, i + 1, p);
        return Err(hour.error);
      }
      var date := hour.value.datetime.date;
      ghost var before := weatherRecords;
      if date !in weatherRecords {
        weatherRecords := weatherRecords[date := WeatherRecordDaily(date, [])];
      }
      var daily := weatherRecords[date];
      weatherRecords := weatherRecords[date := daily.(hours := daily.hours + [hour.value])];
      assert weatherRecords == AddHour(before, hour.value);
      hs := hs + [hour.value];
      assert (hs[..|hs| - 1], hs[|hs| - 1]) == (hs[..|hs| - 1], hour.value);
    }
    assert rows[..|rows|] == rows;
    r := Ok(weatherRecords);
  }

  // ---------------------------------------------------------------------
  // Daily air quality

  function ParseAqi(row: Row, p: Parsers): Result<(Date, real), BuildError>
  {
    match Field(row, DATE_FIELD, p.isoDate)
    case Err(e) => Err(e)
    case Ok(d) =>
      match Field(row, PM25_COLUMN, p.float)
      case Err(e) => Err(e)
      case Ok(v) => Ok((d, v))
  }

  function AqiReadings(rows: seq<Row>, p: Parsers): Result<seq<(Date, real)>, BuildError>
  {
    if rows == [] then Ok([])
    else
      match AqiReadings(rows[..|rows| - 1], p)
      case Err(e) => Err(e)
      case Ok(rs) =>
        match ParseAqi(rows[|rows| - 1], p)
        case Err(e) => Err(e)
        case Ok(r) => Ok(rs + [r])
  }

  function AqiTable(readings: seq<(Date, real)>): map<Date, real>
  {
    if readings == [] then map[]
    else AqiTable(readings[..|readings| - 1])[readings[|readings| - 1].0 := readings[|readings| - 1].1]
  }

  /** The table holds the dates read, and for each the value of the last
      reading of that date. */
  lemma {:induction false} AqiLastWriteWins(readings: seq<(Date, real)>)
    ensures forall d :: d in AqiTable(readings) <==> exists i :: 0 <= i < |readings| && readings[i].0 == d
    ensures forall i :: 0 <= i < |readings| && (forall j :: i < j < |readings| ==> readings[j].0 != readings[i].0) ==>
      AqiTable(readings)[readings[i].0] == readings[i].1
  {
    if readings != [] {
      var pre := readings[..|readings| - 1];
      AqiLastWriteWins(pre);
      assert forall i :: 0 <= i < |pre| ==> pre[i] == readings[i];
      forall d | exists i :: 0 <= i < |readings| && readings[i].0 == d
        ensures d in AqiTable(readings)
      {
        var i :| 0 <= i < |readings| && readings[i].0 == d;
        if i < |pre| {
          assert pre[i].0 == d;
        }
      }
      forall d | d in AqiTable(readings)
        ensures exists i :: 0 <= i < |readings| && readings[i].0 == d
      {
        if d != readings[|readings| - 1].0 {
          var i :| 0 <= i < |pre| && pre[i].0 == d;
          assert readings[i].0 == d;
        }
      }
    }
  }

  lemma {:induction false} AqiErrorPersists(rows: seq<Row>, k: nat, p: Parsers)
    requires k <= |rows| && AqiReadings(rows[..k], p).Err?
    ensures AqiReadings(rows, p) == AqiReadings(rows[..k], p)
    decreases |rows|
  {
    if k < |rows| {
      var pre := rows[..|rows| - 1];
      assert pre[..k] == rows[..k];
      AqiErrorPersists(pre, k, p);
    } else {
      assert rows[..k] == rows;
    }
  }

  /** The readings are the rows read in order, one per row. */
  lemma {:induction false} AqiReadingsPositional(rows: seq<Row>, p: Parsers)
    ensures AqiReadings(rows, p).Ok? <==> forall i :: 0 <= i < |rows| ==> ParseAqi(rows[i], p).Ok?
    ensures AqiReadings(rows, p).Ok? ==> (|AqiReadings(rows, p).value| == |rows| &&
      forall i :: 0 <= i < |rows| ==> ParseAqi(rows[i], p) == Ok(AqiReadings(rows, p).value[i]))
  {
    if rows != [] {
      var pre := rows[..|rows| - 1];
      AqiReadingsPositional(pre, p);
      assert forall i :: 0 <= i < |pre| ==> pre[i] == rows[i];
      if AqiReadings(pre, p).Err? {
        var i :| 0 <= i < |pre| && !ParseAqi(pre[i], p).Ok?;
        assert !ParseAqi(rows[i], p).Ok?;
      }
    }
  }

  /** The loop over the air-quality export. */
  method ReadAqi(rows: seq<Row>, p: Parsers) returns (r: Result<map<Date, real>, BuildError>)
    ensures AqiReadings(rows, p).Err? ==> r == Err(AqiReadings(rows, p).error)
    ensures AqiReadings(rows, p).Ok? ==> r == Ok(AqiTable(AqiReadings(rows, p).value))
  {
    ghost var readings: seq<(Date, real)> := [];
    var aqiRecords: map<Date, real> := map[];
    for i := 0 to |rows|
      invariant AqiReadings(rows[..i], p) == Ok(readings)
      invariant aqiRecords == AqiTable(readings)
    {
      assert rows[..i + 1][..i] == rows[..i];
      var reading := ParseAqi(rows[i], p);
      if reading.Err? {
        AqiErrorPersists(rows, i + 1, p);
        return Err(reading.error);
      }
      aqiRecords := aqiRecords[reading.value.0 := reading.value.1];
      readings := readings + [reading.value];
    }
    assert rows[..|rows|] == rows;
    r := Ok(aqiRecords);
  }
}
