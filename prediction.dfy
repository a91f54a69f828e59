/** The predictor of src/predict.py: the feature vector is built by walking
    the model's column names in order, and the estimator is applied to it. */
module Prediction {
  import opened Common
  import opened FieldKey
  import opened Noaa

  /** The air-quality column, which this predictor leaves out of the vector. */
  const PM25_FIELD: string := "pm25_daily_avg"

  /** A trained model: its ordered column names, its version, and the
      estimator's `predict`, which maps a batch of rows to one number per row. */
  datatype Model = Model(fieldnames: seq<string>, version: string, estimator: seq<seq<real>> -> seq<real>)

  datatype SolarProductionPrediction = SolarProductionPrediction(date: Date, energyProductionWh: real)

  datatype PredictError =
    | MissingHour(hour: int)                      // InsufficientHourlyForecastError
    | MissingPrediction(kind: string, hour: int)  // InsufficientHourlyForecastError
    | ValueError                                  // a column name of unknown shape
    | IndexError                                  // the estimator gave back no value

  predicate IsInsufficientHourlyForecast(e: PredictError)
  {
    e.MissingHour? || e.MissingPrediction?
  }

  /** The cases of the `match` on a column name. */
  datatype FieldRef =
    | Response                             // skipped: the value being predicted
    | MonthOfDate                          // `["date"]`
    | Pm25DailyAvg                         // `["pm25_daily_avg"]`
    | Observation(kind: string, hour: int) // `[kind, hour]`, `int(hour)` succeeding
    | Malformed                            // ValueError

  /** The case a column name falls into. */
  function Classify(field: string): FieldRef
  {
    if field == RESPONSE_FIELD then Response
    else
      var parts := Split(field, SEPARATOR);
      if parts == [DATE_FIELD] then MonthOfDate
      else if parts == [PM25_FIELD] then Pm25DailyAvg
      else if |parts| == 2 then
        match ParseInt(parts[1])
        case Some(h) => Observation(parts[0], h)
        case None => Malformed
      else Malformed
  }

  /** Only the response column is skipped as the response. */
  lemma ClassifyResponse(field: string)
    ensures Classify(field) == Response <==> field == RESPONSE_FIELD
  {
  }

  /** The month case is exactly the `date` column. */
  lemma ClassifyDate(field: string)
    ensures Classify(field) == MonthOfDate <==> field == DATE_FIELD
  {
    if field == DATE_FIELD {
      assert DATE_FIELD != RESPONSE_FIELD by { assert DATE_FIELD[0] != RESPONSE_FIELD[0]; }
      SplitNoSeparator(DATE_FIELD, SEPARATOR);
    }
    if Classify(field) == MonthOfDate {
      assert field == Join(Split(field, SEPARATOR), SEPARATOR) == Join([DATE_FIELD], SEPARATOR);
    }
  }

  /** The air-quality case is exactly the `pm25_daily_avg` column. */
  lemma ClassifyPm25(field: string)
    ensures Classify(field) == Pm25DailyAvg <==> field == PM25_FIELD
  {
    if field == PM25_FIELD {
      assert PM25_FIELD != RESPONSE_FIELD by { assert PM25_FIELD[0] != RESPONSE_FIELD[0]; }
      SplitNoSeparator(PM25_FIELD, SEPARATOR);
      assert [PM25_FIELD] != [DATE_FIELD] by { assert PM25_FIELD[0] != DATE_FIELD[0]; }
    }
    if Classify(field) == Pm25DailyAvg {
      assert field == Join(Split(field, SEPARATOR), SEPARATOR) == Join([PM25_FIELD], SEPARATOR);
    }
  }

  /** An observation column is its observation name, the separator and a
      text that `int` reads as the hour. */
  lemma ClassifyObservation(field: string)
    requires Classify(field).Observation?
    ensures SEPARATOR !in Classify(field).kind
    ensures exists text :: (ParseInt(text) == Some(Classify(field).hour) &&
      field == Classify(field).kind + [SEPARATOR] + text)
  {
    var parts := Split(field, SEPARATOR);
    assert field == Join(parts, SEPARATOR) == parts[0] + [SEPARATOR] + parts[1];
  }

  /** Every column name written as `f"{kind}|{hour}"` reads back as that
      observation at that hour. */
  lemma ClassifyKey(kind: string, hour: int)
    requires SEPARATOR !in kind
    ensures Classify(Key(kind, hour)) == Observation(kind, hour)
  {
    KeyRoundTrip(kind, hour);
    KeyIsNotReserved(kind, hour);
  }

  /** `get_forecast_for_hour`: the first hourly forecast of the hour. */
  function GetForecastForHour(daily: DailyForecast, hour: int): (r: Result<HourlyForecast, PredictError>)
    ensures r.Ok? ==> exists i :: (0 <= i < |daily.hourly| && daily.hourly[i] == r.value &&
      r.value.forecastHour.hour == hour &&
      forall j :: 0 <= j < i ==> daily.hourly[j].forecastHour.hour != hour)
    ensures r.Err? <==> forall i :: 0 <= i < |daily.hourly| ==> daily.hourly[i].forecastHour.hour != hour
    ensures r.Err? ==> r.error == MissingHour(hour)
  {
    match FirstMatch(daily.hourly, (f: HourlyForecast) => f.forecastHour.hour == hour)
    case Some(i) => Ok(daily.hourly[i])
    case None => Err(MissingHour(hour))
  }

  /** `get_weather_prediction`: the value of the first prediction of the kind. */
  function GetWeatherPrediction(forecast: HourlyForecast, kind: string): (r: Result<real, PredictError>)
    ensures r.Ok? ==> exists i :: (0 <= i < |forecast.predictions| &&
      forecast.predictions[i] == WeatherPrediction(kind, r.value) &&
      forall j :: 0 <= j < i ==> forecast.predictions[j].kind != kind)
    ensures r.Err? <==> forall i :: 0 <= i < |forecast.predictions| ==> forecast.predictions[i].kind != kind
    ensures r.Err? ==> r.error == MissingPrediction(kind, forecast.forecastHour.hour)
  {
    match FirstMatch(forecast.predictions, (p: WeatherPrediction) => p.kind == kind)
    case Some(i) => Ok(forecast.predictions[i].value)
    case None => Err(MissingPrediction(kind, forecast.forecastHour.hour))
  }

  /** Whether a case adds a position to the feature vector. */
  predicate Contributes(ref: FieldRef)
  {
    ref.MonthOfDate? || ref.Observation?
  }

  /** What one column adds to the feature vector: nothing, or one value. */
  function Resolve(daily: DailyForecast, ref: FieldRef): (r: Result<seq<real>, PredictError>)
    ensures r.Ok? ==> |r.value| == (if Contributes(ref) then 1 else 0)
    ensures ref.MonthOfDate? ==> r.Ok? && 1.0 <= r.value[0] <= 12.0
    ensures ref.Malformed? ==> r == Err(ValueError)
    ensures r.Err? ==> ref.Malformed? || IsInsufficientHourlyForecast(r.error)
  {
    match ref
    case Response => Ok([])
    case MonthOfDate => Ok([daily.date.month as real])
    case Pm25DailyAvg => Ok([])
    case Observation(kind, hour) =>
      (match GetForecastForHour(daily, hour)
       case Err(e) => Err(e)
       case Ok(forecast) =>
         match GetWeatherPrediction(forecast, kind)
         case Err(e) => Err(e)
         case Ok(v) => Ok([v]))
    case Malformed => Err(ValueError)
  }

  /** One turn of the loop: a raised error stays raised; otherwise the
      column's values are appended, or its error raised. */
  function Step(daily: DailyForecast, acc: Result<seq<real>, PredictError>, ref: FieldRef): Result<seq<real>, PredictError>
  {
    match acc
    case Err(e) => Err(e)
    case Ok(v) =>
      match Resolve(daily, ref)
      case Err(e) => Err(e)
      case Ok(c) => Ok(v + c)
  }

  /** The feature vector for the cases `refs`, or the first error met. */
  function Features(daily: DailyForecast, refs: seq<FieldRef>): Result<seq<real>, PredictError>
  {
    if refs == [] then Ok([])
    else Step(daily, Features(daily, refs[..|refs| - 1]), refs[|refs| - 1])
  }

  function Refs(fields: seq<string>): seq<FieldRef>
  {
    seq(|fields|, k requires 0 <= k < |fields| => Classify(fields[k]))
  }

  /** The feature vector `predict` builds from the column names `fields`. */
  function BuildFeatureVector(daily: DailyForecast, fields: seq<string>): Result<seq<real>, PredictError>
  {
    Features(daily, Refs(fields))
  }

  /** The cases of `refs` that add a position, in order. */
  function Contributing(refs: seq<FieldRef>): seq<FieldRef>
  {
    if refs == [] then []
    else Contributing(refs[..|refs| - 1]) + (if Contributes(refs[|refs| - 1]) then [refs[|refs| - 1]] else [])
  }

  /** Once a prefix fails, the whole vector fails with the same error. */
  lemma {:induction false} FeaturesErrorPersists(daily: DailyForecast, refs: seq<FieldRef>, k: nat)
    requires k <= |refs| && Features(daily, refs[..k]).Err?
    ensures Features(daily, refs) == Features(daily, refs[..k])
    decreases |refs|
  {
    if k < |refs| {
      var pre := refs[..|refs| - 1];
      assert pre[..k] == refs[..k];
      FeaturesErrorPersists(daily, pre, k);
    } else {
      assert refs[..k] == refs;
    }
  }

  /** All or nothing: the vector is built exactly when every column resolves. */
  lemma {:induction false} FeaturesOkIff(daily: DailyForecast, refs: seq<FieldRef>)
    ensures Features(daily, refs).Ok? <==> forall k :: 0 <= k < |refs| ==> Resolve(daily, refs[k]).Ok?
  {
    if refs != [] {
      var pre, last := refs[..|refs| - 1], refs[|refs| - 1];
      FeaturesOkIff(daily, pre);
      assert Features(daily, refs) == Step(daily, Features(daily, pre), last);
      assert Step(daily, Features(daily, pre), last).Ok? <==> Features(daily, pre).Ok? && Resolve(daily, last).Ok?;
      assert (forall k :: 0 <= k < |refs| ==> Resolve(daily, refs[k]).Ok?) <==>
        (forall k :: 0 <= k < |pre| ==> Resolve(daily, pre[k]).Ok?) && Resolve(daily, last).Ok? by {
        assert forall k :: 0 <= k < |pre| ==> pre[k] == refs[k];
      }
    }
  }

  /** One more column that resolves extends the vector by its values. */
  lemma FeaturesExtend(daily: DailyForecast, refs: seq<FieldRef>, i: nat, v: seq<real>)
    requires i < |refs| && Features(daily, refs[..i]) == Ok(v) && Resolve(daily, refs[i]).Ok?
    ensures Features(daily, refs[..i + 1]) == Ok(v + Resolve(daily, refs[i]).value)
  {
    assert refs[..i + 1][..i] == refs[..i];
  }

  /** One more column that does not resolve fails the whole vector with its error. */
  lemma FeaturesStop(daily: DailyForecast, refs: seq<FieldRef>, i: nat)
    requires i < |refs| && Features(daily, refs[..i]).Ok? && Resolve(daily, refs[i]).Err?
    ensures Features(daily, refs) == Err(Resolve(daily, refs[i]).error)
  {
    assert refs[..i + 1][..i] == refs[..i];
    FeaturesErrorPersists(daily, refs, i + 1);
  }

  /** A failure is the failure of the first column that does not resolve. */
  lemma {:induction false} FeaturesFirstError(daily: DailyForecast, refs: seq<FieldRef>)
    requires Features(daily, refs).Err?
    ensures exists k :: (0 <= k < |refs| && Resolve(daily, refs[k]) == Err(Features(daily, refs).error) &&
      forall j :: 0 <= j < k ==> Resolve(daily, refs[j]).Ok?)
  {
    var pre := refs[..|refs| - 1];
    assert forall k :: 0 <= k < |pre| ==> pre[k] == refs[k];
    if Features(daily, pre).Err? {
      FeaturesFirstError(daily, pre);
      var k :| 0 <= k < |pre| && Resolve(daily, pre[k]) == Err(Features(daily, pre).error) &&
        forall j :: 0 <= j < k ==> Resolve(daily, pre[j]).Ok?;
      assert Resolve(daily, refs[k]) == Err(Features(daily, refs).error);
    } else {
      FeaturesOkIff(daily, pre);
      assert Resolve(daily, refs[|pre|]) == Err(Features(daily, refs).error);
    }
  }

  /** The positional contract: position `j` of the vector holds the value of
      the `j`-th column that adds a position, and there is no other position. */
  lemma {:induction false} FeaturesPositional(daily: DailyForecast, refs: seq<FieldRef>)
    requires Features(daily, refs).Ok?
    ensures |Features(daily, refs).value| == |Contributing(refs)|
    ensures forall j :: 0 <= j < |Contributing(refs)| ==>
      Resolve(daily, Contributing(refs)[j]) == Ok([Features(daily, refs).value[j]])
  {
    if refs != [] {
      var pre, last := refs[..|refs| - 1], refs[|refs| - 1];
      FeaturesPositional(daily, pre);
      var v := Features(daily, pre).value;
      var c := Resolve(daily, last).value;
      if Contributes(last) {
        assert c == [c[0]];
      }
    }
  }

  /** A column that resolves to nothing can stand anywhere without changing
      the vector or its errors. */
  lemma {:induction false} SkippedColumnIsInvisible(daily: DailyForecast, a: seq<FieldRef>, ref: FieldRef, b: seq<FieldRef>)
    requires Resolve(daily, ref) == Ok([])
    ensures Features(daily, a + [ref] + b) == Features(daily, a + b)
  {
    if b == [] {
      assert a + [ref] + b == a + [ref] && (a + [ref])[..|a|] == a;
      assert a + b == a;
      if Features(daily, a).Ok? {
        assert Features(daily, a).value + [] == Features(daily, a).value;
      }
    } else {
      var b', y := b[..|b| - 1], b[|b| - 1];
      SkippedColumnIsInvisible(daily, a, ref, b');
      var s, t := a + [ref] + b, a + b;
      assert s[..|s| - 1] == a + [ref] + b' && s[|s| - 1] == y;
      assert t[..|t| - 1] == a + b' && t[|t| - 1] == y;
      assert Features(daily, s) == Step(daily, Features(daily, a + [ref] + b'), y);
      assert Features(daily, t) == Step(daily, Features(daily, a + b'), y);
    }
  }

  /** A malformed column stops the vector: it never reaches the estimator,
      and when every column before it resolves the error is `ValueError`. */
  lemma MalformedFails(daily: DailyForecast, refs: seq<FieldRef>, k: nat)
    requires k < |refs| && refs[k] == Malformed
    ensures Features(daily, refs).Err?
    ensures (forall j :: 0 <= j < k ==> Resolve(daily, refs[j]).Ok?) ==> Features(daily, refs) == Err(ValueError)
  {
    FeaturesOkIff(daily, refs);
    if forall j :: 0 <= j < k ==> Resolve(daily, refs[j]).Ok? {
      var pre := refs[..k];
      assert forall j :: 0 <= j < k ==> pre[j] == refs[j];
      FeaturesOkIff(daily, pre);
      FeaturesStop(daily, refs, k);
    }
  }

  lemma RefsAppend(u: seq<string>, v: seq<string>)
    ensures Refs(u + v) == Refs(u) + Refs(v)
  {
    forall k | 0 <= k < |u| + |v|
      ensures Refs(u + v)[k] == (Refs(u) + Refs(v))[k]
    {
      if k < |u| {
        assert (u + v)[k] == u[k];
      } else {
        assert (u + v)[k] == v[k - |u|];
      }
    }
  }

  lemma RefsSplit(a: seq<string>, x: string, b: seq<string>)
    ensures Refs(a + [x] + b) == Refs(a) + [Classify(x)] + Refs(b)
    ensures Refs(a + b) == Refs(a) + Refs(b)
  {
    RefsAppend(a, [x]);
    RefsAppend(a + [x], b);
    assert Refs([x]) == [Classify(x)];
    RefsAppend(a, b);
  }

  /** The response column never adds a position to the feature vector. */
  lemma ResponseColumnIsSkipped(daily: DailyForecast, a: seq<string>, b: seq<string>)
    ensures BuildFeatureVector(daily, a + [RESPONSE_FIELD] + b) == BuildFeatureVector(daily, a + b)
  {
    RefsSplit(a, RESPONSE_FIELD, b);
    SkippedColumnIsInvisible(daily, Refs(a), Response, Refs(b));
  }

  /** The air-quality column adds nothing and raises nothing. */
  lemma Pm25ColumnIsSkipped(daily: DailyForecast, a: seq<string>, b: seq<string>)
    ensures BuildFeatureVector(daily, a + [PM25_FIELD] + b) == BuildFeatureVector(daily, a + b)
  {
    ClassifyPm25(PM25_FIELD);
    RefsSplit(a, PM25_FIELD, b);
    assert Resolve(daily, Pm25DailyAvg) == Ok([]);
    SkippedColumnIsInvisible(daily, Refs(a), Pm25DailyAvg, Refs(b));
  }

  /** `predict`: builds the feature vector in column order and hands it, as a
      batch of one row, to the estimator. Any error is raised before the
      estimator is reached, so it does not depend on the estimator. */
  method Predict(daily: DailyForecast, model: Model) returns (r: Result<SolarProductionPrediction, PredictError>)
    ensures BuildFeatureVector(daily, model.fieldnames).Err? ==>
      r == Err(BuildFeatureVector(daily, model.fieldnames).error)
    ensures BuildFeatureVector(daily, model.fieldnames).Ok? ==>
      var out := model.estimator([BuildFeatureVector(daily, model.fieldnames).value]);
      r == if |out| == 0 then Err(IndexError) else Ok(SolarProductionPrediction(daily.date, out[0]))
  {
    ghost var refs := Refs(model.fieldnames);
    var featureVector: seq<real> := [];
    for i := 0 to |model.fieldnames|
      invariant Features(daily, refs[..i]) == Ok(featureVector)
    {
      assert refs[i] == Classify(model.fieldnames[i]);
      match Classify(model.fieldnames[i])
      case Response =>
        FeaturesExtend(daily, refs, i, featureVector);
        assert featureVector + [] == featureVector;
      case MonthOfDate =>
        FeaturesExtend(daily, refs, i, featureVector);
        featureVector := featureVector + [daily.date.month as real];
      case Pm25DailyAvg =>
        FeaturesExtend(daily, refs, i, featureVector);
        assert featureVector + [] == featureVector;
      case Observation(kind, hour) =>
        var forecast := GetForecastForHour(daily, hour);
        if forecast.Err? {
          FeaturesStop(daily, refs, i);
          return Err(forecast.error);
        }
        var value := GetWeatherPrediction(forecast.value, kind);
        if value.Err? {
          FeaturesStop(daily, refs, i);
          return Err(value.error);
        }
        FeaturesExtend(daily, refs, i, featureVector);
        featureVector := featureVector + [value.value];
      case Malformed =>
        FeaturesStop(daily, refs, i);
        return Err(ValueError);
    }
    assert refs[..|model.fieldnames|] == refs;
    var out := model.estimator([featureVector]);
    if |out| == 0 {
      return Err(IndexError);
    }
    r := Ok(SolarProductionPrediction(daily.date, out[0]));
  }
}
