/** The older predictor of src/solar_production_prediction/predict.py. It
    walks the column names like the newer one, but its `match` has no case for
    the air-quality column, so that column falls to the `ValueError` case. */
module LegacyPrediction {
  import opened Common
  import opened FieldKey
  import opened Noaa
  import opened Prediction

  /** The case a column name falls into under the older `match`. */
  function ClassifyLegacy(field: string): FieldRef
  {
    if field == RESPONSE_FIELD then Response
    else
      var parts := Split(field, SEPARATOR);
      if parts == [DATE_FIELD] then MonthOfDate
      else if |parts| == 2 then
        match ParseInt(parts[1])
        case Some(h) => Observation(parts[0], h)
        case None => Malformed
      else Malformed
  }

  /** The older `match` agrees with the newer one on every column name except
      the air-quality column, which it rejects. */
  lemma ClassifyLegacyAgrees(field: string)
    ensures ClassifyLegacy(field) == if Classify(field) == Pm25DailyAvg then Malformed else Classify(field)
    ensures ClassifyLegacy(field) == Malformed <==> Classify(field) == Malformed || field == PM25_FIELD
  {
    ClassifyPm25(field);
  }

  function RefsLegacy(fields: seq<string>): seq<FieldRef>
  {
    seq(|fields|, k requires 0 <= k < |fields| => ClassifyLegacy(fields[k]))
  }

  /** The evidence vector the older `predict` builds from the column names `fields`. */
  function BuildEvidence(daily: DailyForecast, fields: seq<string>): Result<seq<real>, PredictError>
  {
    Features(daily, RefsLegacy(fields))
  }

  /** Without an air-quality column, both predictors build the same vector
      and fail in the same way. */
  lemma LegacyAgreesWithoutPm25(daily: DailyForecast, fields: seq<string>)
    requires forall k :: 0 <= k < |fields| ==> fields[k] != PM25_FIELD
    ensures BuildEvidence(daily, fields) == BuildFeatureVector(daily, fields)
  {
    forall k | 0 <= k < |fields|
      ensures RefsLegacy(fields)[k] == Refs(fields)[k]
    {
      ClassifyLegacyAgrees(fields[k]);
    }
    assert RefsLegacy(fields) == Refs(fields);
  }

  /** The older `match` sends the air-quality column to `ValueError`. */
  lemma LegacyPm25IsMalformed()
    ensures ClassifyLegacy(PM25_FIELD) == Malformed
  {
    SplitNoSeparator(PM25_FIELD, SEPARATOR);
    assert PM25_FIELD != RESPONSE_FIELD by { assert PM25_FIELD[0] != RESPONSE_FIELD[0]; }
    assert [PM25_FIELD] != [DATE_FIELD] by { assert PM25_FIELD[0] != DATE_FIELD[0]; }
  }

  /** With an air-quality column, the older predictor never reaches the
      estimator; when every column before it resolves, it raises `ValueError`. */
  lemma LegacyRejectsPm25(daily: DailyForecast, fields: seq<string>, k: nat)
    requires k < |fields| && fields[k] == PM25_FIELD
    ensures BuildEvidence(daily, fields).Err?
    ensures (forall j :: 0 <= j < k ==> Resolve(daily, RefsLegacy(fields)[j]).Ok?) ==>
      BuildEvidence(daily, fields) == Err(ValueError)
  {
    LegacyPm25IsMalformed();
    MalformedFails(daily, RefsLegacy(fields), k);
  }

  /** The older `predict`: as the newer one, with the older column cases. */
  method PredictLegacy(daily: DailyForecast, model: Model) returns (r: Result<SolarProductionPrediction, PredictError>)
    ensures BuildEvidence(daily, model.fieldnames).Err? ==>
      r == Err(BuildEvidence(daily, model.fieldnames).error)
    ensures BuildEvidence(daily, model.fieldnames).Ok? ==>
      var out := model.estimator([BuildEvidence(daily, model.fieldnames).value]);
      r == if |out| == 0 then Err(IndexError) else Ok(SolarProductionPrediction(daily.date, out[0]))
  {
    ghost var refs := RefsLegacy(model.fieldnames);
    var evidence: seq<real> := [];
    for i := 0 to |model.fieldnames|
      invariant Features(daily, refs[..i]) == Ok(evidence)
    {
      assert refs[i] == ClassifyLegacy(model.fieldnames[i]);
      match ClassifyLegacy(model.fieldnames[i])
      case Response =>
        FeaturesExtend(daily, refs, i, evidence);
        assert evidence + [] == evidence;
      case MonthOfDate =>
        FeaturesExtend(daily, refs, i, evidence);
        evidence := evidence + [daily.date.month as real];
      case Observation(kind, hour) =>
        var forecast := GetForecastForHour(daily, hour);
        if forecast.Err? {
          FeaturesStop(daily, refs, i);
          return Err(forecast.error);
        }
        var prediction := GetWeatherPrediction(forecast.value, kind);
        if prediction.Err? {
          FeaturesStop(daily, refs, i);
          return Err(prediction.error);
        }
        FeaturesExtend(daily, refs, i, evidence);
        evidence := evidence + [prediction.value];
      case _ =>
        FeaturesStop(daily, refs, i);
        return Err(ValueError);
    }
    assert refs[..|model.fieldnames|] == refs;
    var out := model.estimator([evidence]);
    if |out| == 0 {
      return Err(IndexError);
    }
    r := Ok(SolarProductionPrediction(daily.date, out[0]));
  }
}
