/** The joining half of src/model/data/create_training_set.py: one record per
    production record, starting with its date and energy, to which every
    observation of every hour from 7 to 19 of that day's weather is added
    under the key `"<observation>|<hour>"`; then the header of the output,
    which is the first record's keys. */
module TrainingJoin {
  import opened Common
  import opened FieldKey
  import opened TrainingRows

  /** The first and the last hour of the day whose weather is kept (7am, 7pm). */
  const MIN_HOUR: int := 7
  const MAX_HOUR: int := 19

  predicate InWindow(hour: int)
  {
    MIN_HOUR <= hour <= MAX_HOUR
  }

  /** The values a joined record holds: a date, the integer energy, or an
      observation. */
  datatype Cell = DateCell(date: Date) | IntCell(whole: int) | RealCell(number: real)

  /** A dict: its keys in insertion order and the value under each. */
  datatype Record = Record(keys: seq<string>, values: map<string, Cell>)

  ghost predicate Valid(rec: Record)
  {
    NoDuplicates(rec.keys) && forall k :: k in rec.values <==> k in rec.keys
  }

  function Lookup(rec: Record, k: string): Option<Cell>
  {
    if k in rec.values then Some(rec.values[k]) else None
  }

  /** `rec[k] = v`: a new key goes last, an existing key keeps its place. */
  function Put(rec: Record, k: string, v: Cell): (r: Record)
    ensures Valid(rec) ==> Valid(r)
    ensures rec.keys <= r.keys
    ensures Lookup(r, k) == Some(v)
    ensures forall k' :: k' != k ==> Lookup(r, k') == Lookup(rec, k')
    ensures Valid(rec) ==> (r.keys == rec.keys <==> k in rec.values)
    ensures r.keys == rec.keys || r.keys == rec.keys + [k]
  {
    if k in rec.values then Record(rec.keys, rec.values[k := v])
    else Record(rec.keys + [k], rec.values[k := v])
  }

  /** `{**solar_production_record}`. */
  function Initial(prod: SolarProductionRecord): Record
  {
    Record([DATE_FIELD, RESPONSE_FIELD],
      map[DATE_FIELD := DateCell(prod.date), RESPONSE_FIELD := IntCell(prod.energyProductionWh)])
  }

  /** The loop over one hour's observations. */
  function PutObservations(rec: Record, hour: int, obs: seq<(string, real)>): Record
  {
    if obs == [] then rec
    else
      var r := PutObservations(rec, hour, obs[..|obs| - 1]);
      var (name, v) := obs[|obs| - 1];
      if name != DATETIME_COLUMN then Put(r, Key(name, hour), RealCell(v)) else r
  }

  /** One hourly record, kept only inside the window. */
  function PutHour(rec: Record, h: WeatherRecordHourly): Record
  {
    if InWindow(h.datetime.hour) then PutObservations(rec, h.datetime.hour, h.observations) else rec
  }

  /** The loop over the hourly records of the day. */
  function PutHours(rec: Record, hours: seq<WeatherRecordHourly>): Record
  {
    if hours == [] then rec else PutHour(PutHours(rec, hours[..|hours| - 1]), hours[|hours| - 1])
  }

  /** The joined record of one production record and its day's hours. */
  function JoinDay(prod: SolarProductionRecord, hours: seq<WeatherRecordHourly>): Record
  {
    PutHours(Initial(prod), hours)
  }

  /** One production record: the air-quality lookup (when there is a table),
      then the weather lookup, then the join. */
  function JoinOne(prod: SolarProductionRecord, weather: map<Date, WeatherRecordDaily>,
                   aqi: Option<map<Date, real>>): (r: Result<Record, BuildError>)
    ensures r.Err? <==> (aqi.Some? && prod.date !in aqi.value) || prod.date !in weather
    ensures aqi.Some? && prod.date !in aqi.value ==> r == Err(NoAqiForDate(prod.date))
    ensures (aqi.None? || prod.date in aqi.value) && prod.date !in weather ==> r == Err(NoWeatherForDate(prod.date))
    ensures r.Ok? ==> r.value == JoinDay(prod, weather[prod.date].hours)
  {
    if aqi.Some? && prod.date !in aqi.value then Err(NoAqiForDate(prod.date))
    else if prod.date !in weather then Err(NoWeatherForDate(prod.date))
    else Ok(JoinDay(prod, weather[prod.date].hours))
  }

  function JoinAll(production: seq<SolarProductionRecord>, weather: map<Date, WeatherRecordDaily>,
                   aqi: Option<map<Date, real>>): Result<seq<Record>, BuildError>
  {
    if production == [] then Ok([])
    else
      match JoinAll(production[..|production| - 1], weather, aqi)
      case Err(e) => Err(e)
      case Ok(rs) =>
        match JoinOne(production[|production| - 1], weather, aqi)
        case Err(e) => Err(e)
        case Ok(rec) => Ok(rs + [rec])
  }

  // ---------------------------------------------------------------------
  // What the key writes change

  lemma KeyHasSeparator(obs: string, hour: int)
    ensures SEPARATOR in Key(obs, hour)
  {
    assert Key(obs, hour)[|obs|] == SEPARATOR;
  }

  /** The observations of one hour keep the record valid, only append keys,
      append only keys of this hour, and touch no other key. */
  lemma {:induction false} PutObservationsFrame(rec: Record, hour: int, obs: seq<(string, real)>)
    ensures Valid(rec) ==> Valid(PutObservations(rec, hour, obs))
    ensures rec.keys <= PutObservations(rec, hour, obs).keys
    ensures forall k :: (forall j :: 0 <= j < |obs| ==> k != Key(obs[j].0, hour)) ==>
      Lookup(PutObservations(rec, hour, obs), k) == Lookup(rec, k)
    ensures forall n :: |rec.keys| <= n < |PutObservations(rec, hour, obs).keys| ==>
      exists j :: 0 <= j < |obs| && PutObservations(rec, hour, obs).keys[n] == Key(obs[j].0, hour)
  {
    if obs != [] {
      var pre := obs[..|obs| - 1];
      PutObservationsFrame(rec, hour, pre);
      assert forall j :: 0 <= j < |pre| ==> pre[j] == obs[j];
      var r0 := PutObservations(rec, hour, pre);
      var r := PutObservations(rec, hour, obs);
      forall n | |rec.keys| <= n < |r.keys|
        ensures exists j :: 0 <= j < |obs| && r.keys[n] == Key(obs[j].0, hour)
      {
        if n < |r0.keys| {
          assert r.keys[n] == r0.keys[n];
          var j :| 0 <= j < |pre| && r0.keys[n] == Key(pre[j].0, hour);
          assert r.keys[n] == Key(obs[j].0, hour);
        } else {
          assert r.keys[n] == Key(obs[|obs| - 1].0, hour);
        }
      }
    }
  }

  /** The last value of the observation named `o`. */
  function LastObservation(obs: seq<(string, real)>, o: string): Option<real>
  {
    if obs == [] then None
    else if obs[|obs| - 1].0 == o then Some(obs[|obs| - 1].1)
    else LastObservation(obs[..|obs| - 1], o)
  }

  predicate CleanNames(obs: seq<(string, real)>)
  {
    forall j :: 0 <= j < |obs| ==> SEPARATOR !in obs[j].0
  }

  function Written(last: Option<real>, before: Option<Cell>): Option<Cell>
  {
    match last
    case Some(v) => Some(RealCell(v))
    case None => before
  }

  /** Within one hour, the key of observation `o` holds its last value. */
  lemma {:induction false} PutObservationsLast(rec: Record, hour: int, obs: seq<(string, real)>, o: string)
    requires CleanNames(obs) && SEPARATOR !in o && o != DATETIME_COLUMN
    ensures Lookup(PutObservations(rec, hour, obs), Key(o, hour)) ==
      Written(LastObservation(obs, o), Lookup(rec, Key(o, hour)))
  {
    if obs != [] {
      var pre := obs[..|obs| - 1];
      assert CleanNames(pre) by {
        assert forall j :: 0 <= j < |pre| ==> pre[j] == obs[j];
      }
      PutObservationsLast(rec, hour, pre, o);
      var name := obs[|obs| - 1].0;
      if name != o && name != DATETIME_COLUMN {
        if Key(name, hour) == Key(o, hour) {
          KeyInjective(name, hour, o, hour);
        }
      }
    }
  }

  /** The last value of observation `o` at hour `h` among the hourly records
      kept by the window. */
  function LastReading(hours: seq<WeatherRecordHourly>, o: string, h: int): Option<real>
  {
    if hours == [] then None
    else
      var hr := hours[|hours| - 1];
      if hr.datetime.hour == h && InWindow(h) && LastObservation(hr.observations, o).Some? then
        LastObservation(hr.observations, o)
      else LastReading(hours[..|hours| - 1], o, h)
  }

  predicate CleanHours(hours: seq<WeatherRecordHourly>)
  {
    forall i :: 0 <= i < |hours| ==> CleanNames(hours[i].observations)
  }

  /** `k` is `"<o>|<h>"` for an observation `o` of an hourly record whose
      hour `h` is in the window. */
  ghost predicate IsObservationKey(hours: seq<WeatherRecordHourly>, k: string)
  {
    exists i, j :: 0 <= i < |hours| && 0 <= j < |hours[i].observations| && InWindow(hours[i].datetime.hour) &&
      k == Key(hours[i].observations[j].0, hours[i].datetime.hour)
  }

  /** The frame of the loop over the hours: the record stays valid, keys are
      only appended, every appended key is an observation key of an hour in
      the window, and every key without the separator is untouched. */
  lemma {:induction false} PutHoursFrame(rec: Record, hours: seq<WeatherRecordHourly>)
    ensures Valid(rec) ==> Valid(PutHours(rec, hours))
    ensures rec.keys <= PutHours(rec, hours).keys
    ensures forall k :: SEPARATOR !in k ==> Lookup(PutHours(rec, hours), k) == Lookup(rec, k)
    ensures forall n :: |rec.keys| <= n < |PutHours(rec, hours).keys| ==>
      IsObservationKey(hours, PutHours(rec, hours).keys[n])
  {
    if hours != [] {
      var pre, hr := hours[..|hours| - 1], hours[|hours| - 1];
      PutHoursFrame(rec, pre);
      assert forall i :: 0 <= i < |pre| ==> pre[i] == hours[i];
      var r0 := PutHours(rec, pre);
      var r := PutHours(rec, hours);
      if InWindow(hr.datetime.hour) {
        PutObservationsFrame(r0, hr.datetime.hour, hr.observations);
        forall k | SEPARATOR !in k
          ensures Lookup(r, k) == Lookup(r0, k)
        {
          forall j | 0 <= j < |hr.observations|
            ensures k != Key(hr.observations[j].0, hr.datetime.hour)
          {
            KeyHasSeparator(hr.observations[j].0, hr.datetime.hour);
          }
        }
        forall n | |rec.keys| <= n < |r.keys|
          ensures IsObservationKey(hours, r.keys[n])
        {
          if n < |r0.keys| {
            assert r.keys[n] == r0.keys[n];
            var i, j :| 0 <= i < |pre| && 0 <= j < |pre[i].observations| && InWindow(pre[i].datetime.hour) &&
              r0.keys[n] == Key(pre[i].observations[j].0, pre[i].datetime.hour);
            assert hours[i] == pre[i];
            assert IsObservationKey(hours, r.keys[n]);
          } else {
            var j :| 0 <= j < |hr.observations| && r.keys[n] == Key(hr.observations[j].0, hr.datetime.hour);
            assert hours[|hours| - 1] == hr;
            assert IsObservationKey(hours, r.keys[n]);
          }
        }
      }
    }
  }

  /** Last write wins: the key `"<o>|<h>"` holds the value of `o` in the last
      hourly record of hour `h`, when `h` is in the window and some record of
      that hour has `o`. */
  lemma {:induction false} PutHoursLast(rec: Record, hours: seq<WeatherRecordHourly>, o: string, h: int)
    requires CleanHours(hours) && SEPARATOR !in o && o != DATETIME_COLUMN
    ensures Lookup(PutHours(rec, hours), Key(o, h)) == Written(LastReading(hours, o, h), Lookup(rec, Key(o, h)))
  {
    if hours != [] {
      var pre, hr := hours[..|hours| - 1], hours[|hours| - 1];
      assert CleanHours(pre) by {
        assert forall i :: 0 <= i < |pre| ==> pre[i] == hours[i];
      }
      assert CleanNames(hr.observations);
      PutHoursLast(rec, pre, o, h);
      var r0 := PutHours(rec, pre);
      if InWindow(hr.datetime.hour) {
        if hr.datetime.hour == h {
          PutObservationsLast(r0, h, hr.observations, o);
        } else {
          PutObservationsFrame(r0, hr.datetime.hour, hr.observations);
          forall j | 0 <= j < |hr.observations|
            ensures Key(o, h) != Key(hr.observations[j].0, hr.datetime.hour)
          {
            if Key(o, h) == Key(hr.observations[j].0, hr.datetime.hour) {
              KeyInjective(o, h, hr.observations[j].0, hr.datetime.hour);
            }
          }
        }
      }
    }
  }

  // ---------------------------------------------------------------------
  // The joined record of one day

  /** The two production columns are distinct and hold no separator. */
  lemma ProductionColumnsPlain()
    ensures DATE_FIELD != RESPONSE_FIELD
    ensures SEPARATOR !in DATE_FIELD && SEPARATOR !in RESPONSE_FIELD
  {
    assert DATE_FIELD[0] != RESPONSE_FIELD[0];
  }

  lemma InitialValid(prod: SolarProductionRecord)
    ensures Valid(Initial(prod))
  {
    ProductionColumnsPlain();
  }

  /** The hours leave the production columns as they were. */
  lemma JoinDayKeepsProduction(prod: SolarProductionRecord, hours: seq<WeatherRecordHourly>)
    ensures Lookup(JoinDay(prod, hours), DATE_FIELD) == Some(DateCell(prod.date))
    ensures Lookup(JoinDay(prod, hours), RESPONSE_FIELD) == Some(IntCell(prod.energyProductionWh))
  {
    var init := Initial(prod);
    ProductionColumnsPlain();
    PutHoursFrame(init, hours);
    assert Lookup(init, DATE_FIELD) == Some(DateCell(prod.date));
    assert Lookup(init, RESPONSE_FIELD) == Some(IntCell(prod.energyProductionWh));
  }

  /** A joined record is a valid dict whose first two keys are `date` and
      `energy_production_Wh`, holding the production record's values. */
  lemma JoinDayShape(prod: SolarProductionRecord, hours: seq<WeatherRecordHourly>)
    ensures Valid(JoinDay(prod, hours))
    ensures |JoinDay(prod, hours).keys| >= 2 && JoinDay(prod, hours).keys[..2] == [DATE_FIELD, RESPONSE_FIELD]
    ensures Lookup(JoinDay(prod, hours), DATE_FIELD) == Some(DateCell(prod.date))
    ensures Lookup(JoinDay(prod, hours), RESPONSE_FIELD) == Some(IntCell(prod.energyProductionWh))
  {
    var init := Initial(prod);
    InitialValid(prod);
    PutHoursFrame(init, hours);
    assert init.keys == [DATE_FIELD, RESPONSE_FIELD];
    assert JoinDay(prod, hours).keys[..2] == init.keys;
    JoinDayKeepsProduction(prod, hours);
  }

  /** Every key of a joined record after the first two is
      `"<observation>|<hour>"` for an observation of an hourly record within
      the window. */
  lemma JoinDayObservationKeys(prod: SolarProductionRecord, hours: seq<WeatherRecordHourly>)
    ensures forall n :: 2 <= n < |JoinDay(prod, hours).keys| ==> IsObservationKey(hours, JoinDay(prod, hours).keys[n])
  {
    PutHoursFrame(Initial(prod), hours);
  }

  /** The observation columns of a joined record: the last value of each
      observation at each hour of the window, and nothing at other hours. */
  lemma JoinDayLastWriteWins(prod: SolarProductionRecord, hours: seq<WeatherRecordHourly>, o: string, h: int)
    requires CleanHours(hours) && SEPARATOR !in o && o != DATETIME_COLUMN
    ensures Lookup(JoinDay(prod, hours), Key(o, h)) == Written(LastReading(hours, o, h), None)
    ensures !InWindow(h) ==> Lookup(JoinDay(prod, hours), Key(o, h)) == None
  {
    PutHoursLast(Initial(prod), hours, o, h);
    KeyIsNotReserved(o, h);
    NoReadingOutsideWindow(hours, o, h);
  }

  lemma {:induction false} NoReadingOutsideWindow(hours: seq<WeatherRecordHourly>, o: string, h: int)
    ensures !InWindow(h) ==> LastReading(hours, o, h) == None
  {
    if hours != [] {
      NoReadingOutsideWindow(hours[..|hours| - 1], o, h);
    }
  }

  // ---------------------------------------------------------------------
  // All records

  /** One joined record per production record, in production order; the
      join fails exactly when some production date has no air-quality value
      (when there is a table) or no weather. */
  lemma {:induction false} JoinAllPositional(production: seq<SolarProductionRecord>, weather: map<Date, WeatherRecordDaily>,
                                             aqi: Option<map<Date, real>>)
    ensures JoinAll(production, weather, aqi).Ok? <==>
      forall i :: 0 <= i < |production| ==> JoinOne(production[i], weather, aqi).Ok?
    ensures JoinAll(production, weather, aqi).Ok? ==>
      |JoinAll(production, weather, aqi).value| == |production| &&
      forall i :: 0 <= i < |production| ==>
        JoinAll(production, weather, aqi).value[i] == JoinDay(production[i], weather[production[i].date].hours)
  {
    if production != [] {
      var pre := production[..|production| - 1];
      JoinAllPositional(pre, weather, aqi);
      assert forall i :: 0 <= i < |pre| ==> pre[i] == production[i];
      if JoinAll(pre, weather, aqi).Err? {
        var i :| 0 <= i < |pre| && !JoinOne(pre[i], weather, aqi).Ok?;
        assert !JoinOne(production[i], weather, aqi).Ok?;
      }
    }
  }

  lemma {:induction false} JoinErrorPersists(production: seq<SolarProductionRecord>, k: nat,
                                             weather: map<Date, WeatherRecordDaily>, aqi: Option<map<Date, real>>)
    requires k <= |production| && JoinAll(production[..k], weather, aqi).Err?
    ensures JoinAll(production, weather, aqi) == JoinAll(production[..k], weather, aqi)
    decreases |production|
  {
    if k < |production| {
      var pre := production[..|production| - 1];
      assert pre[..k] == production[..k];
      JoinErrorPersists(pre, k, weather, aqi);
    } else {
      assert production[..k] == production;
    }
  }

  /** The air-quality value is looked up but not used: with a table that has
      every production date, the records are those of the join without one. */
  lemma {:induction false} AqiValueUnused(production: seq<SolarProductionRecord>, weather: map<Date, WeatherRecordDaily>,
                                          aqi: map<Date, real>)
    requires forall i :: 0 <= i < |production| ==> production[i].date in aqi
    ensures JoinAll(production, weather, Some(aqi)) == JoinAll(production, weather, None)
  {
    if production != [] {
      var pre := production[..|production| - 1];
      assert forall i :: 0 <= i < |pre| ==> pre[i] == production[i];
      AqiValueUnused(pre, weather, aqi);
    }
  }

  /** The joining loop, with its nested loops over the hours and their
      observations. */
  method JoinRecords(production: seq<SolarProductionRecord>, weather: map<Date, WeatherRecordDaily>,
                     aqi: Option<map<Date, real>>) returns (r: Result<seq<Record>, BuildError>)
    ensures r == JoinAll(production, weather, aqi)
  {
    var joinedRecords: seq<Record> := [];
    for i := 0 to |production|
      invariant JoinAll(production[..i], weather, aqi) == Ok(joinedRecords)
    {
      assert production[..i + 1][..i] == production[..i];
      var prod := production[i];
      if aqi.Some? && prod.date !in aqi.value {
        JoinErrorPersists(production, i + 1, weather, aqi);
        return Err(NoAqiForDate(prod.date));
      }
      if prod.date !in weather {
        JoinErrorPersists(production, i + 1, weather, aqi);
        return Err(NoWeatherForDate(prod.date));
      }
      var joined := JoinHours(prod, weather[prod.date]);
      joinedRecords := joinedRecords + [joined];
    }
    assert production[..|production|] == production;
    r := Ok(joinedRecords);
  }

  /** The body of the joining loop for one production record. */
  method JoinHours(prod: SolarProductionRecord, daily: WeatherRecordDaily) returns (joined: Record)
    ensures joined == JoinDay(prod, daily.hours)
  {
    var hours := daily.hours;
    joined := Record([DATE_FIELD, RESPONSE_FIELD],
      map[DATE_FIELD := DateCell(prod.date), RESPONSE_FIELD := IntCell(prod.energyProductionWh)]);
    for j := 0 to |hours|
      invariant joined == PutHours(Initial(prod), hours[..j])
    {
      assert hours[..j + 1][..j] == hours[..j];
      var hour := hours[j].datetime.hour;
      if MIN_HOUR <= hour <= MAX_HOUR {
        var obs := hours[j].observations;
        ghost var before := joined;
        for k := 0 to |obs|
          invariant joined == PutObservations(before, hour, obs[..k])
        {
          assert obs[..k + 1][..k] == obs[..k];
          var (name, value) := obs[k];
          if name != DATETIME_COLUMN {
            var key := name + [SEPARATOR] + DecimalString(hour);
            joined := Put(joined, key, RealCell(value));
          }
        }
        assert obs[..|obs|] == obs;
      }
    }
    assert hours[..|hours|] == hours;
  }

  // ---------------------------------------------------------------------
  // The output header

  predicate FitsHeader(rec: Record, header: seq<string>)
  {
    forall k :: k in rec.values ==> k in header
  }

  /** `joined_records[0].keys()` as the header of the `DictWriter`, which
      refuses a record with a key outside it. */
  function OutputHeader(joined: seq<Record>): (r: Result<seq<string>, BuildError>)
    ensures r == Err(NoRecords) <==> joined == []
    ensures r.Ok? ==> (r.value == joined[0].keys &&
      forall i :: 0 <= i < |joined| ==> FitsHeader(joined[i], joined[0].keys))
    ensures r.Err? && joined != [] ==> (r.error.FieldsNotInHeader? &&
      r.error.index < |joined| && !FitsHeader(joined[r.error.index], joined[0].keys) &&
      forall i :: 0 <= i < r.error.index ==> FitsHeader(joined[i], joined[0].keys))
  {
    if joined == [] then Err(NoRecords)
    else
      match FirstMatch(joined, (rec: Record) => !FitsHeader(rec, joined[0].keys))
      case Some(i) => Err(FieldsNotInHeader(i))
      case None => Ok(joined[0].keys)
  }
}
