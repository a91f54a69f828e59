/** The positional contract between the two sides: the training set's header
    fixes the order of the evidence `load_data` builds, and the predictors
    must build their feature vectors in the same order from the same column
    names. The keys `"<observation>|<hour>"` written by the training-set
    script are read back by the predictors as that observation at that hour. */
module Alignment {
  import opened Common
  import opened FieldKey
  import opened Prediction
  import LegacyPrediction
  import Load
  import TrainingRows
  import TrainingJoin

  /** The columns a well-formed header holds: the response, the date, and
      observation keys. */
  predicate PlainColumns(fields: seq<string>)
  {
    forall k :: 0 <= k < |fields| ==> !Classify(fields[k]).Malformed? && !Classify(fields[k]).Pm25DailyAvg?
  }

  lemma RefsPrefix(fields: seq<string>)
    requires fields != []
    ensures Refs(fields[..|fields| - 1]) == Refs(fields)[..|fields| - 1]
    ensures Refs(fields)[|fields| - 1] == Classify(fields[|fields| - 1])
  {
  }

  /** Without a malformed or an air-quality column, the cases that add a
      position to the feature vector are, in order, those of the evidence
      columns `load_data` keeps: position `j` of both vectors is the same
      column. */
  lemma {:induction false} EvidenceMatchesFeatures(fields: seq<string>)
    requires PlainColumns(fields)
    ensures Contributing(Refs(fields)) == Refs(Load.EvidenceColumns(fields))
  {
    if fields != [] {
      var pre, x := fields[..|fields| - 1], fields[|fields| - 1];
      assert PlainColumns(pre) by {
        assert forall k :: 0 <= k < |pre| ==> pre[k] == fields[k];
      }
      EvidenceMatchesFeatures(pre);
      RefsPrefix(fields);
      ClassifyResponse(x);
      var ev := Load.EvidenceColumns(pre);
      if x == RESPONSE_FIELD {
        assert Load.EvidenceColumns(fields) == ev;
      } else {
        assert Load.EvidenceColumns(fields) == ev + [x];
        assert Refs(ev + [x]) == Refs(ev) + [Classify(x)];
      }
    }
  }

  /** What the last column adds to either vector. */
  lemma StepLengths(fields: seq<string>)
    requires fields != []
    ensures var pre, x := fields[..|fields| - 1], fields[|fields| - 1];
      |Contributing(Refs(fields))| == |Contributing(Refs(pre))| + (if Contributes(Classify(x)) then 1 else 0) &&
      |Load.EvidenceColumns(fields)| == |Load.EvidenceColumns(pre)| + (if x == RESPONSE_FIELD then 0 else 1)
  {
    RefsPrefix(fields);
  }

  /** A column that adds a position to the feature vector is never the response. */
  lemma ContributingIsEvidence(x: string)
    ensures Contributes(Classify(x)) ==> x != RESPONSE_FIELD
  {
    ClassifyResponse(x);
  }

  /** The feature vector never has more positions than the evidence. */
  lemma {:induction false} FeaturesNoLongerThanEvidence(fields: seq<string>)
    ensures |Contributing(Refs(fields))| <= |Load.EvidenceColumns(fields)|
  {
    if fields != [] {
      FeaturesNoLongerThanEvidence(fields[..|fields| - 1]);
      StepLengths(fields);
      ContributingIsEvidence(fields[|fields| - 1]);
    }
  }

  lemma Pm25IsEvidence()
    ensures !Contributes(Classify(PM25_FIELD)) && PM25_FIELD != RESPONSE_FIELD
  {
    ClassifyPm25(PM25_FIELD);
    assert PM25_FIELD[0] != RESPONSE_FIELD[0];
  }

  /** An air-quality column in the header misaligns the two sides: `load_data`
      reads it as evidence while the newer predictor leaves it out, so the
      feature vector is shorter than the rows the estimator was fitted on. */
  lemma {:induction false} Pm25Misaligns(fields: seq<string>, k: nat)
    requires k < |fields| && fields[k] == PM25_FIELD
    ensures |Contributing(Refs(fields))| < |Load.EvidenceColumns(fields)|
  {
    var pre := fields[..|fields| - 1];
    StepLengths(fields);
    if k == |fields| - 1 {
      FeaturesNoLongerThanEvidence(pre);
      Pm25IsEvidence();
    } else {
      assert pre[k] == fields[k];
      Pm25Misaligns(pre, k);
      ContributingIsEvidence(fields[|fields| - 1]);
    }
  }

  /** A header the training-set script writes: `date`, the response, then
      observation keys of the day's hours. */
  lemma TrainingHeaderShape(prod: TrainingRows.SolarProductionRecord, hours: seq<TrainingRows.WeatherRecordHourly>)
    ensures var keys := TrainingJoin.JoinDay(prod, hours).keys;
      |keys| >= 2 && keys[0] == DATE_FIELD && keys[1] == RESPONSE_FIELD &&
      forall n :: 2 <= n < |keys| ==> TrainingJoin.IsObservationKey(hours, keys[n])
  {
    var keys := TrainingJoin.JoinDay(prod, hours).keys;
    TrainingJoin.JoinDayShape(prod, hours);
    TrainingJoin.JoinDayObservationKeys(prod, hours);
    assert keys[..2][0] == keys[0] && keys[..2][1] == keys[1];
  }

  /** The older predictor also reads a separator-free observation key back
      as that observation and hour. */
  lemma KeyReadsBackLegacy(obs: string, hour: int)
    requires SEPARATOR !in obs
    ensures LegacyPrediction.ClassifyLegacy(Key(obs, hour)) == Observation(obs, hour)
  {
    ClassifyKey(obs, hour);
    LegacyPrediction.ClassifyLegacyAgrees(Key(obs, hour));
  }

  /** An observation key reads back, in both predictors, as the observation
      and the in-window hour it was built from, and is not the response. */
  lemma ObservationKeyReadsBack(hours: seq<TrainingRows.WeatherRecordHourly>, k: string)
    requires TrainingJoin.CleanHours(hours) && TrainingJoin.IsObservationKey(hours, k)
    ensures Classify(k).Observation? && TrainingJoin.InWindow(Classify(k).hour)
    ensures k == Key(Classify(k).kind, Classify(k).hour)
    ensures k != RESPONSE_FIELD
    ensures LegacyPrediction.ClassifyLegacy(k) == Classify(k)
  {
    var i, j :| 0 <= i < |hours| && 0 <= j < |hours[i].observations| && TrainingJoin.InWindow(hours[i].datetime.hour) &&
      k == Key(hours[i].observations[j].0, hours[i].datetime.hour);
    var obs, hour := hours[i].observations[j].0, hours[i].datetime.hour;
    assert TrainingJoin.CleanNames(hours[i].observations);
    assert SEPARATOR !in obs;
    ClassifyKey(obs, hour);
    KeyIsNotReserved(obs, hour);
    KeyReadsBackLegacy(obs, hour);
  }

  /** `date` and the response column read alike in both predictors. */
  lemma LeadingColumnsAgree()
    ensures Classify(DATE_FIELD) == MonthOfDate && Classify(RESPONSE_FIELD) == Response
    ensures LegacyPrediction.ClassifyLegacy(DATE_FIELD) == MonthOfDate
    ensures LegacyPrediction.ClassifyLegacy(RESPONSE_FIELD) == Response
    ensures DATE_FIELD != RESPONSE_FIELD
  {
    ClassifyDate(DATE_FIELD);
    ClassifyResponse(RESPONSE_FIELD);
    LegacyPrediction.ClassifyLegacyAgrees(DATE_FIELD);
    LegacyPrediction.ClassifyLegacyAgrees(RESPONSE_FIELD);
    assert DATE_FIELD[0] != RESPONSE_FIELD[0];
  }

  /** The shape `TrainingHeaderShape` gives, as a predicate on any keys. */
  ghost predicate HeaderShaped(keys: seq<string>, hours: seq<TrainingRows.WeatherRecordHourly>)
  {
    |keys| >= 2 && keys[0] == DATE_FIELD && keys[1] == RESPONSE_FIELD &&
    forall n :: 2 <= n < |keys| ==> TrainingJoin.IsObservationKey(hours, keys[n])
  }

  /** Each column of a header of that shape reads back in both predictors. */
  lemma ShapedColumnReadsBack(keys: seq<string>, hours: seq<TrainingRows.WeatherRecordHourly>, n: nat)
    requires TrainingJoin.CleanHours(hours) && HeaderShaped(keys, hours) && n < |keys|
    ensures LegacyPrediction.ClassifyLegacy(keys[n]) == Classify(keys[n])
    ensures !Classify(keys[n]).Malformed? && !Classify(keys[n]).Pm25DailyAvg?
    ensures n == 0 ==> Classify(keys[n]) == MonthOfDate
    ensures n == 1 ==> Classify(keys[n]) == Response
    ensures 2 <= n ==> (Classify(keys[n]).Observation? && TrainingJoin.InWindow(Classify(keys[n]).hour) &&
      keys[n] == Key(Classify(keys[n]).kind, Classify(keys[n]).hour))
  {
    if n == 0 {
      assert keys[n] == DATE_FIELD;
      LeadingColumnsAgree();
    } else if n == 1 {
      assert keys[n] == RESPONSE_FIELD;
      LeadingColumnsAgree();
    } else {
      assert TrainingJoin.IsObservationKey(hours, keys[n]);
      ObservationKeyReadsBack(hours, keys[n]);
    }
  }

  /** Every column the training-set script writes reads back in both
      predictors: `date` as the month, the response as skipped, and every
      further key as the observation and hour it was written from, with the
      hour in the window. */
  lemma TrainingHeaderClassifies(prod: TrainingRows.SolarProductionRecord, hours: seq<TrainingRows.WeatherRecordHourly>)
    requires TrainingJoin.CleanHours(hours)
    ensures var keys := TrainingJoin.JoinDay(prod, hours).keys;
      |keys| >= 2 && Classify(keys[0]) == MonthOfDate && Classify(keys[1]) == Response &&
      (forall n :: 2 <= n < |keys| ==>
        Classify(keys[n]).Observation? && TrainingJoin.InWindow(Classify(keys[n]).hour) &&
        keys[n] == Key(Classify(keys[n]).kind, Classify(keys[n]).hour)) &&
      (forall n :: 0 <= n < |keys| ==> LegacyPrediction.ClassifyLegacy(keys[n]) == Classify(keys[n]))
  {
    var keys := TrainingJoin.JoinDay(prod, hours).keys;
    TrainingHeaderShape(prod, hours);
    assert HeaderShaped(keys, hours);
    ShapedColumnReadsBack(keys, hours, 0);
    ShapedColumnReadsBack(keys, hours, 1);
    forall n | 0 <= n < |keys|
      ensures LegacyPrediction.ClassifyLegacy(keys[n]) == Classify(keys[n])
      ensures 2 <= n ==> (Classify(keys[n]).Observation? && TrainingJoin.InWindow(Classify(keys[n]).hour) &&
        keys[n] == Key(Classify(keys[n]).kind, Classify(keys[n]).hour))
    {
      ShapedColumnReadsBack(keys, hours, n);
    }
  }

  /** Both predictors read a training header alike, and find in it
      neither a malformed nor an air-quality column. */
  lemma TrainingHeaderPlain(prod: TrainingRows.SolarProductionRecord, hours: seq<TrainingRows.WeatherRecordHourly>)
    requires TrainingJoin.CleanHours(hours)
    ensures PlainColumns(TrainingJoin.JoinDay(prod, hours).keys)
    ensures LegacyPrediction.RefsLegacy(TrainingJoin.JoinDay(prod, hours).keys) == Refs(TrainingJoin.JoinDay(prod, hours).keys)
  {
    var keys := TrainingJoin.JoinDay(prod, hours).keys;
    TrainingHeaderShape(prod, hours);
    assert HeaderShaped(keys, hours);
    forall n | 0 <= n < |keys|
      ensures LegacyPrediction.RefsLegacy(keys)[n] == Refs(keys)[n]
      ensures !Classify(keys[n]).Malformed? && !Classify(keys[n]).Pm25DailyAvg?
    {
      ShapedColumnReadsBack(keys, hours, n);
    }
  }

  /** A header the training-set script writes has exactly one response
      column, so `load_data` yields one response per evidence row. */
  lemma TrainingHeaderHasOneResponse(prod: TrainingRows.SolarProductionRecord, hours: seq<TrainingRows.WeatherRecordHourly>)
    requires TrainingJoin.CleanHours(hours)
    ensures Load.ResponseCount(TrainingJoin.JoinDay(prod, hours).keys) == 1
  {
    var keys := TrainingJoin.JoinDay(prod, hours).keys;
    TrainingHeaderShape(prod, hours);
    LeadingColumnsAgree();
    forall n | 2 <= n < |keys|
      ensures keys[n] != RESPONSE_FIELD
    {
      ObservationKeyReadsBack(hours, keys[n]);
    }
    ResponseCountOnly(keys, 1);
  }

  lemma {:induction false} ResponseCountOnly(keys: seq<string>, n: nat)
    requires n < |keys| && forall m :: 0 <= m < |keys| ==> ((keys[m] == RESPONSE_FIELD) <==> m == n)
    ensures Load.ResponseCount(keys) == 1
  {
    var pre := keys[..|keys| - 1];
    if n < |keys| - 1 {
      ResponseCountOnly(pre, n);
    } else {
      ResponseCountNone(pre);
    }
  }

  lemma {:induction false} ResponseCountNone(keys: seq<string>)
    requires forall m :: 0 <= m < |keys| ==> keys[m] != RESPONSE_FIELD
    ensures Load.ResponseCount(keys) == 0
  {
    if keys != [] {
      ResponseCountNone(keys[..|keys| - 1]);
    }
  }

  /** The header a training set is written with lines up with both
      predictors: their feature vectors hold, position by position, the
      columns `load_data` reads as evidence. */
  lemma TrainingHeaderAligned(prod: TrainingRows.SolarProductionRecord, hours: seq<TrainingRows.WeatherRecordHourly>)
    requires TrainingJoin.CleanHours(hours)
    ensures var keys := TrainingJoin.JoinDay(prod, hours).keys;
      Contributing(Refs(keys)) == Refs(Load.EvidenceColumns(keys)) &&
      Contributing(LegacyPrediction.RefsLegacy(keys)) == Refs(Load.EvidenceColumns(keys)) &&
      |Load.EvidenceColumns(keys)| == |keys| - 1
  {
    var keys := TrainingJoin.JoinDay(prod, hours).keys;
    TrainingHeaderPlain(prod, hours);
    EvidenceMatchesFeatures(keys);
    TrainingHeaderHasOneResponse(prod, hours);
    EvidenceCount(keys);
  }

  lemma {:induction false} EvidenceCount(keys: seq<string>)
    ensures |Load.EvidenceColumns(keys)| + Load.ResponseCount(keys) == |keys|
  {
    if keys != [] {
      EvidenceCount(keys[..|keys| - 1]);
    }
  }

  /** The hourly records of a weather table read from rows all hold temp,
      humidity and cloudcover, whose names have no separator. */
  lemma WeatherTableHoursClean(rows: seq<TrainingRows.Row>, p: TrainingRows.Parsers)
    requires TrainingRows.WeatherTable(rows, p).Ok?
    ensures forall d :: d in TrainingRows.WeatherTable(rows, p).value ==>
      TrainingJoin.CleanHours(TrainingRows.WeatherTable(rows, p).value[d].hours)
  {
    var hs := TrainingRows.WeatherHours(rows, p).value;
    TrainingRows.WeatherHoursPositional(rows, p);
    forall i | 0 <= i < |hs|
      ensures TrainingRows.HasObservations(hs[i])
    {
      TrainingRows.ParseHourMeaning(rows[i], p);
    }
    TrainingRows.GroupHoursKeepsObservations(hs);
    var table := TrainingRows.GroupHours(hs);
    assert TrainingRows.WeatherTable(rows, p).value == table;
    forall d | d in table
      ensures TrainingJoin.CleanHours(table[d].hours)
    {
      forall i | 0 <= i < |table[d].hours|
        ensures TrainingJoin.CleanNames(table[d].hours[i].observations)
      {
        ObservationsClean(table[d].hours[i]);
      }
    }
  }

  /** An hourly record holding exactly temp, humidity and cloudcover has no
      separator in its observation names. */
  lemma ObservationsClean(h: TrainingRows.WeatherRecordHourly)
    requires TrainingRows.HasObservations(h)
    ensures TrainingJoin.CleanNames(h.observations)
  {
    assert forall k :: 0 <= k < |TrainingRows.OBSERVATIONS| ==> SEPARATOR !in TrainingRows.OBSERVATIONS[k];
  }

  /** The training set as written: with weather read from rows, the header
      is the first joined record's keys, and it lines up with both predictors
      and with `load_data`. */
  lemma OutputHeaderAligned(production: seq<TrainingRows.SolarProductionRecord>, rows: seq<TrainingRows.Row>,
                            p: TrainingRows.Parsers, aqi: Option<map<Date, real>>)
    requires TrainingRows.WeatherTable(rows, p).Ok?
    requires TrainingJoin.JoinAll(production, TrainingRows.WeatherTable(rows, p).value, aqi).Ok?
    requires TrainingJoin.OutputHeader(TrainingJoin.JoinAll(production, TrainingRows.WeatherTable(rows, p).value, aqi).value).Ok?
    ensures var header := TrainingJoin.OutputHeader(TrainingJoin.JoinAll(production, TrainingRows.WeatherTable(rows, p).value, aqi).value).value;
      Contributing(Refs(header)) == Refs(Load.EvidenceColumns(header)) &&
      Contributing(LegacyPrediction.RefsLegacy(header)) == Refs(Load.EvidenceColumns(header)) &&
      Load.ResponseCount(header) == 1
  {
    var table := TrainingRows.WeatherTable(rows, p).value;
    var joined := TrainingJoin.JoinAll(production, table, aqi).value;
    TrainingJoin.JoinAllPositional(production, table, aqi);
    assert joined != [];
    assert TrainingJoin.JoinOne(production[0], table, aqi).Ok?;
    WeatherTableHoursClean(rows, p);
    TrainingHeaderAligned(production[0], table[production[0].date].hours);
    TrainingHeaderHasOneResponse(production[0], table[production[0].date].hours);
  }
}
