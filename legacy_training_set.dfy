/** The joining loop of src/solar_production_prediction/training/data/create_training_set.py,
    the older copy of the training-set script. Its reading and its grouping of
    the weather are those of the newer script (module TrainingRows); it has no
    air-quality table, and it looks the weather up before it starts the record. */
module LegacyTrainingSet {
  import opened Common
  import opened TrainingRows
  import opened TrainingJoin

  /** The joining loop: the weather lookup, then the record of the day. Only
      a production date without weather stops it. */
  method JoinRecordsLegacy(production: seq<SolarProductionRecord>, weather: map<Date, WeatherRecordDaily>)
    returns (r: Result<seq<Record>, BuildError>)
    ensures r == JoinAll(production, weather, None)
    ensures r.Ok? <==> forall i :: 0 <= i < |production| ==> production[i].date in weather
  {
    JoinAllPositional(production, weather, None);
    var joinedRecords: seq<Record> := [];
    for i := 0 to |production|
      invariant JoinAll(production[..i], weather, None) == Ok(joinedRecords)
    {
      assert production[..i + 1][..i] == production[..i];
      var prod := production[i];
      if prod.date !in weather {
        JoinErrorPersists(production, i + 1, weather, None);
        return Err(NoWeatherForDate(prod.date));
      }
      var weatherRecordForDate := weather[prod.date];
      var joined := JoinHours(prod, weatherRecordForDate);
      joinedRecords := joinedRecords + [joined];
    }
    assert production[..|production|] == production;
    r := Ok(joinedRecords);
  }

  /** Where the newer script finds an air-quality value for every production
      date, it writes the same records as the older one; a date without one
      stops it where the older script goes on. */
  lemma NewerJoinAgreesWithOlder(production: seq<SolarProductionRecord>, weather: map<Date, WeatherRecordDaily>,
                                 aqi: map<Date, real>)
    ensures (forall i :: 0 <= i < |production| ==> production[i].date in aqi) ==>
      JoinAll(production, weather, Some(aqi)) == JoinAll(production, weather, None)
    ensures (exists i :: 0 <= i < |production| && production[i].date !in aqi) ==>
      JoinAll(production, weather, Some(aqi)).Err?
  {
    JoinAllPositional(production, weather, Some(aqi));
    if forall i :: 0 <= i < |production| ==> production[i].date in aqi {
      AqiValueUnused(production, weather, aqi);
    }
  }
}
