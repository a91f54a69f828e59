# Solar production prediction: the column contract, in Dafny

The repository predicts a day's solar energy production from an hourly weather
forecast. A trained model is a list of ordered column names (`fieldnames`) plus an
estimator. Everything that feeds numbers into that estimator depends on one positional
contract:

- **Training side.** `create_training_set.py` writes one row per production day. The
  row has columns `date`, `energy_production_Wh` and one `"<obs>|<hour>"` column per
  observation and daylight hour (7 to 19). `load.py` reads that file back: the
  response column goes into `y`, `date` becomes its month, and every other column
  becomes a number, in header order.
- **Prediction side.** `predict` walks the same `fieldnames`. It skips the response
  column, turns `date` into the month of the forecast date, and resolves each
  `"<obs>|<hour>"` column by first-match lookups in the day's forecast. The forecast
  comes from `NoaaApi.get_forecast`, which checks the time layout, hands the i-th
  value of each dimension to the i-th hour, and groups the hours into days.

The model covers all of these pieces and proves that the two sides line up.

| file | module | models |
|---|---|---|
| `common.dfy` | `Common` | `Option`, `Result`, dates and datetimes as values, and a first-match search |
| `field_key.dfy` | `FieldKey` | the `\|` separator, splitting, the decimal text of an hour and `int()`, and the `"<obs>\|<hour>"` key |
| `noaa.dfy` | `Noaa` | `get_forecast` once the XML has been read: the time layout, value alignment, the final count check, and grouping by date |
| `prediction.dfy` | `Prediction` | `src/predict.py` |
| `legacy_prediction.dfy` | `LegacyPrediction` | `src/solar_production_prediction/predict.py` (no `pm25_daily_avg` case) |
| `load.dfy` | `Load` | `load_data` in both `load.py` files, which share the same logic |
| `training_rows.dfy` | `TrainingRows` | the reading loops of both `create_training_set.py` files: production, weather and AQI |
| `training_join.dfy` | `TrainingJoin` | the join of production days with their weather, the hour window, the keys, and the output header |
| `legacy_training_set.dfy` | `LegacyTrainingSet` | the join of the older `create_training_set.py`, which has no AQI lookup |
| `alignment.dfy` | `Alignment` | the lemmas that connect a training header to what `load_data` and `predict` do with it |

Every loop of the source is a Dafny `method` with a `while` or `for` loop. Each such
method is proved equal to a recursive specification function (`ensures r == Layout(es)`,
`ensures r == LoadSpec(header, records, p)`, …), and the promised properties are
lemmas about those functions. The source mutates only local lists, dicts and dataclass
instances that nothing else holds, so these are modelled as values (`seq`, `map`,
datatypes) that the loops reassign.

Notes where the code and its own docstrings differ. The model follows the code.

- The docstring of `create_training_set.py` shows keys like `temp_7`. The code joins
  with `|` (`OBSERVATION_NAME_AND_HOUR_SEPARATOR`), so the keys are `temp|7`.
- The same docstring lists a `pm25_daily_avg` column. Its assignment
  (`src/model/data/create_training_set.py:121`) is commented out, so no such column is
  written. The AQI lookup on line 120 still runs, and a production date that has no
  AQI reading still stops the script (`TrainingJoin.JoinOne`).
- The production CSV's column is `energy_produced_Wh`. The record and the output
  column are `energy_production_Wh`.
- If a `pm25_daily_avg` column did reach a header, `load_data` would turn it into
  evidence while the newer `predict` drops it. The two vectors would then differ in
  length (`Alignment.Pm25Misaligns`).
- The older predictor (`src/solar_production_prediction/predict.py:6`) imports
  `KEY_HOUR_SEPARATOR` from its `training` package, but that package
  (`src/solar_production_prediction/training/__init__.py:1-5`) exports only
  `OBSERVATION_NAME_AND_HOUR_SEPARATOR`, so that copy would not import as it
  stands. `KEY_HOUR_SEPARATOR` is defined in none of the files modelled here; the
  separator that package's data module defines is `"|"` (`src/solar_production_prediction/training/data/create_training_set.py:97`),
  and the sibling package `src/solar_production/training/__init__.py:1-5` re-exports
  a `KEY_HOUR_SEPARATOR` from a `data` package that is not part of this model.
  `LegacyPrediction.ClassifyLegacy`
  therefore splits on `|`, the same `SEPARATOR` as the newer predictor.

Modelling choices:

- Parsers are parameters. These are `float`, `locale.atoi`, `strptime` and
  `fromisoformat`, each a function returning `Option`. The estimator is a parameter
  too, a function from a batch of rows to a sequence of reals.
- A CSV row of the training scripts is a `map<string,string>`. `load_data` has a header
  plus positional records instead, so it can model `csv.DictReader` exactly: the last
  of two equal column names wins, a short record yields `None` for the missing
  columns, and a blank record is skipped.
- The hour text of a key is parsed by `FieldKey.ParseInt`. This is an optional sign
  followed by ASCII digits.
- A datetime carries its date, its hour and an instant in microseconds. "End minus
  start is one hour" compares instants.

## Model

| member | source | states |
|---|---|---|
| Common.FirstMatch | src/predict.py:27-31 | the index returned satisfies the predicate and no earlier index does; None exactly when no element satisfies it |
| FieldKey.Split | src/predict.py:63 | splitting yields at least one piece, no piece holds the separator, and joining the pieces with the separator gives the input back |
| FieldKey.SplitJoin | src/model/data/create_training_set.py:132-134 | splitting a join of separator-free pieces gives the pieces back |
| FieldKey.DecimalString | src/model/data/create_training_set.py:133 | the decimal text of an hour is non-empty and holds no separator |
| FieldKey.ParseInt | src/predict.py:70 | `int()` succeeds only on non-empty text |
| FieldKey.DigitsRoundTrip | src/predict.py:70 | reading back the digits of a natural number gives the number |
| FieldKey.ParseIntRoundTrip | src/predict.py:70 | `int(str(n)) == n` for every integer, negative ones included |
| FieldKey.KeyRoundTrip | src/model/data/create_training_set.py:132-134 | splitting `f"{obs}\|{hour}"` gives `[obs, str(hour)]`, and `int` of the second piece gives the hour back, when `obs` holds no separator |
| FieldKey.KeyInjective | src/solar_production_prediction/training/data/create_training_set.py:112-115 | two separator-free observation names and two hours give the same key only if both pairs are equal |
| FieldKey.KeyIsNotReserved | src/model/data/create_training_set.py:130-135 | no observation key equals `date` or `energy_production_Wh` |
| Noaa.LayoutErrorPersists | src/solar_production/weather_api/noaa.py:65-78 | once the layout loop has raised, later elements do not change the outcome |
| Noaa.LayoutOkIff | src/solar_production/weather_api/noaa.py:68-77 | the layout is accepted exactly when every end element has a start before it and lies exactly one hour after the latest one |
| Noaa.LatestStartIsAStart | src/solar_production/weather_api/noaa.py:66-67 | the start in force is the time of some start element |
| Noaa.LayoutHours | src/solar_production/weather_api/noaa.py:73-78 | one empty hourly forecast per end element, starting one hour before that end, at the time of a start element |
| Noaa.ReadTimeLayout | src/solar_production/weather_api/noaa.py:62-78 | the layout loop computes the layout function, with its errors |
| Noaa.AttachDimsCounts | src/solar_production/weather_api/noaa.py:80-92 | dealing values out succeeds exactly when no dimension has more values than there are hours; the hours keep their times, and an hour is full exactly when every dimension reached it |
| Noaa.AttachDimsFirstError | src/solar_production/weather_api/noaa.py:81-92 | the IndexError of giving out values names the first dimension, in DIMS order, with more values than hours |
| Noaa.AttachDimsFull | src/solar_production/weather_api/noaa.py:86-92 | with one value per hour, the i-th value of each dimension becomes a prediction of that dimension's name on the i-th hour, in dimension order |
| Noaa.AttachValues | src/solar_production/weather_api/noaa.py:86-92 | the index loop for one dimension computes `Attach`, including the IndexError when there are too many values |
| Noaa.FillPredictions | src/solar_production/weather_api/noaa.py:81-92 | the loop over DIMS computes `AttachDims` |
| Noaa.DatesDistinct | src/solar_production/weather_api/noaa.py:98-102 | the day dates are pairwise distinct |
| Noaa.DatesCover | src/solar_production/weather_api/noaa.py:99-102 | a date is a day exactly when some hour falls on it |
| Noaa.DatesGrowInOrder | src/solar_production/weather_api/noaa.py:99-102 | the days of a prefix of the hours are a prefix of the days, which is first-appearance order |
| Noaa.OnDateExact | src/solar_production/weather_api/noaa.py:100-104 | a day's hours are hours of the input that fall on that date; they are non-empty exactly for the dates of the days |
| Noaa.FullLayout | src/solar_production/weather_api/noaa.py:81-95 | hours that start empty and get one value per hour from every dimension end up holding, in DIMS order, exactly their own column of values |
| Noaa.GroupOverAt | src/solar_production/weather_api/noaa.py:98-106 | one day per date, holding the hours on that date |
| Noaa.GroupShape | src/solar_production/weather_api/noaa.py:98-106 | day k has the k-th date and exactly the hours on that date, in input order |
| Noaa.GroupPartition | src/solar_production/weather_api/noaa.py:98-106 | together the days hold every hourly forecast exactly once (as multisets) |
| Noaa.GroupByDate | src/solar_production/weather_api/noaa.py:98-106 | the dict-filling loop computes `Group` |
| Noaa.GroupKeepsAllDims | src/solar_production/weather_api/noaa.py:94-106 | grouping keeps each hour's full set of predictions |
| Noaa.GetForecast | src/solar_production/weather_api/noaa.py:48-106 | layout errors come first; with a valid layout the first dimension in DIMS order that has more values than hours gives IndexError (`TooManyValues`) and otherwise a shortfall gives the AssertionError (`PredictionCountMismatch`); the result is Ok exactly when the layout is valid and every dimension has one value per hour; the days are the grouping of the filled hours, and every hour carries the three predictions in DIMS order |
| Prediction.ClassifyResponse | src/predict.py:60-62 | a field is the response column exactly when it equals `energy_production_Wh` |
| Prediction.ClassifyDate | src/predict.py:64-65 | the month case applies exactly to the field `date` |
| Prediction.ClassifyPm25 | src/predict.py:66-68 | the pm25 case applies exactly to the field `pm25_daily_avg` |
| Prediction.ClassifyObservation | src/predict.py:69-70 | an observation field is its name, the separator and text that `int()` reads as its hour |
| Prediction.ClassifyKey | src/predict.py:63-70 | a key built by the training script is classified as that observation and hour |
| Prediction.GetForecastForHour | src/predict.py:26-35 | the first hourly forecast with the requested hour; the hour error exactly when there is none |
| Prediction.GetWeatherPrediction | src/predict.py:38-49 | the value of the first prediction of the requested type; the prediction error exactly when there is none |
| Prediction.Resolve | src/predict.py:59-76 | each field gives at most one number: the month lies in 1..12, a malformed field gives ValueError, and the only other errors are missing forecasts |
| Prediction.FeaturesErrorPersists | src/predict.py:59-76 | once a field raises, the later fields do not change the outcome |
| Prediction.FeaturesOkIff | src/predict.py:58-76 | the vector is built exactly when every field resolves |
| Prediction.FeaturesFirstError | src/predict.py:58-76 | a failure is the error of the first field that fails, and all fields before it resolve |
| Prediction.MalformedFails | src/predict.py:75-76 | a field of any other shape makes the vector fail, with ValueError when every field before it resolves |
| Prediction.FeaturesPositional | src/predict.py:58-74 | the vector has one entry per contributing field, in fieldnames order, each the value that field resolves to |
| Prediction.SkippedColumnIsInvisible | src/predict.py:60-68 | a field that adds nothing can be removed without changing the vector or the error |
| Prediction.RefsSplit | src/predict.py:59-63 | fields are classified one by one, independently of their neighbours |
| Prediction.ResponseColumnIsSkipped | src/predict.py:60-62 | an `energy_production_Wh` column anywhere leaves the vector unchanged |
| Prediction.Pm25ColumnIsSkipped | src/predict.py:66-68 | a `pm25_daily_avg` column anywhere leaves the vector unchanged |
| Prediction.Predict | src/predict.py:52-81 | on a building error, that error and no estimator call; otherwise the forecast's date with element 0 of the estimator's output on the single-row batch, or IndexError if that output is empty |
| LegacyPrediction.ClassifyLegacyAgrees | src/solar_production_prediction/predict.py:57-68 | the older classification equals the newer one except that `pm25_daily_avg` is malformed |
| LegacyPrediction.LegacyAgreesWithoutPm25 | src/solar_production_prediction/predict.py:55-68 | without a `pm25_daily_avg` column the older vector equals the newer one, errors included |
| LegacyPrediction.LegacyRejectsPm25 | src/solar_production_prediction/predict.py:59-68 | any `pm25_daily_avg` column makes the older builder fail, with ValueError when every earlier column resolves |
| LegacyPrediction.PredictLegacy | src/solar_production_prediction/predict.py:24-73 | as `Predict`, over the older vector and `model.predictor` |
| Load.LastValuePositional | src/model/data/load.py:24 | with distinct fieldnames and a full record, column i reads the record's i-th cell |
| Load.RowValuePositional | src/solar_production_prediction/training/load.py:31 | with distinct fieldnames, column i reads the i-th cell, or nothing if the record is shorter |
| Load.ParseCell | src/model/data/load.py:24-30 | a cell fails exactly when it is missing or its parser rejects it, and says which; `date` gives its month, any other column its float |
| Load.ReadRowOkIff | src/model/data/load.py:23-30 | a row is read exactly when every cell parses |
| Load.ReadRowValues | src/solar_production_prediction/training/load.py:30-37 | evidence is the parsed non-response cells in header order; the responses are the parsed response cells |
| Load.NonBlank | src/model/data/load.py:21 | the rows kept are non-empty |
| Load.ReadRowsShape | src/model/data/load.py:21-32 | one evidence vector per non-blank row, in order; `y` has one entry per response column of each row |
| Load.NoFieldnamesIff | src/solar_production_prediction/training/load.py:23-26 | the missing-fieldnames error happens exactly when the header is absent or empty |
| Load.ReadRowsOkIff | src/solar_production_prediction/training/load.py:28-39 | the rows are read exactly when every non-blank row is |
| Load.ReadRowsResponses | src/model/data/load.py:25-26 | with one response column, `y[i]` is the parsed response of row i and `len(y) == len(x)` |
| Load.LoadData | src/model/data/load.py:10-34 | the nested loops compute `LoadSpec`: the header check, then `(x, y, fieldnames)` with the fieldnames equal to the header |
| Load.ReadRowErrorPersists | src/model/data/load.py:23-30 | once a cell fails, later columns do not change the outcome |
| Load.ReadRowsErrorPersists | src/solar_production_prediction/training/load.py:28-39 | once a row fails, later rows do not change the outcome |
| TrainingRows.Field | src/model/data/create_training_set.py:40-41 | a column is read exactly when it is present and parses; otherwise a KeyError or a parse error that names it |
| TrainingRows.ParseProduction | src/model/data/create_training_set.py:43-50 | a production record is the parsed `date` and `energy_produced_Wh`; the date is parsed first |
| TrainingRows.ProductionRecordsPositional | src/solar_production_prediction/training/data/create_training_set.py:30-48 | one record per row, in order, exactly when every row parses |
| TrainingRows.ProductionErrorPersists | src/model/data/create_training_set.py:38-52 | once a row fails, later rows do not change the outcome |
| TrainingRows.ReadProduction | src/model/data/create_training_set.py:34-52 | the production loop computes `ProductionRecords` |
| TrainingRows.ReadObservationsNames | src/model/data/create_training_set.py:85-86 | observations are read exactly when every column parses, with each name paired with its value in DIMS order |
| TrainingRows.ReadObservationsErrorPersists | src/solar_production_prediction/training/data/create_training_set.py:81-82 | once an observation fails, later ones do not change the outcome |
| TrainingRows.ParseHourMeaning | src/model/data/create_training_set.py:82-86 | an hourly record is read exactly when its datetime and all observations parse; it holds them in DIMS order (temp, humidity, cloudcover) |
| TrainingRows.WeatherHoursPositional | src/solar_production_prediction/training/data/create_training_set.py:76-82 | one hourly record per weather row, in order |
| TrainingRows.WeatherHoursErrorPersists | src/model/data/create_training_set.py:80-86 | once a weather row fails, later rows do not change the outcome |
| TrainingRows.AddHour | src/model/data/create_training_set.py:88-93 | adding an hour creates its date's record on first sight, appends the hour to it, and leaves every other date unchanged |
| TrainingRows.GroupHoursDomain | src/solar_production_prediction/training/data/create_training_set.py:84-89 | the table's dates are exactly the dates of the hours |
| TrainingRows.GroupHoursContents | src/solar_production_prediction/training/data/create_training_set.py:84-89 | each date's record holds that date and exactly its hours, in file order |
| TrainingRows.GroupHoursKeepsObservations | src/model/data/create_training_set.py:88-93 | grouping keeps each hour's observations |
| TrainingRows.ReadHour | src/model/data/create_training_set.py:82-86 | the observation loop computes `ParseHour` |
| TrainingRows.ReadWeather | src/model/data/create_training_set.py:76-93 | the weather loop computes `WeatherTable` |
| TrainingRows.AqiLastWriteWins | src/model/data/create_training_set.py:102-105 | the AQI table's dates are exactly the rows' dates, and each maps to the reading of the last row with that date |
| TrainingRows.AqiErrorPersists | src/model/data/create_training_set.py:102-105 | once an AQI row fails, later rows do not change the outcome |
| TrainingRows.AqiReadingsPositional | src/model/data/create_training_set.py:103-104 | the readings are one per row, in order, exactly when every row parses |
| TrainingRows.ReadAqi | src/model/data/create_training_set.py:98-105 | the AQI loop fails with the first failing row, or yields the last-write-wins table |
| TrainingJoin.Put | src/model/data/create_training_set.py:135 | a dict assignment sets the key, changes no other key, keeps the existing key order, and appends a key only when it is new |
| TrainingJoin.JoinOne | src/model/data/create_training_set.py:116-137 | a day fails on a missing AQI date first, then on a missing weather date; otherwise it is the day's joined record |
| TrainingJoin.PutObservationsFrame | src/model/data/create_training_set.py:130-135 | writing one hour's observations keeps validity and the old keys; it touches only that hour's keys and adds only keys of its observations |
| TrainingJoin.PutObservationsLast | src/model/data/create_training_set.py:130-135 | after one hour, each key holds the last observation of its name, or its old value |
| TrainingJoin.PutHoursFrame | src/model/data/create_training_set.py:124-135 | the hour loop never touches a key without a separator, and every key it adds is an observation key of an in-window hour |
| TrainingJoin.PutHoursLast | src/solar_production_prediction/training/data/create_training_set.py:104-115 | after all hours, each key holds the reading of the last in-window hour with that observation, or its old value |
| TrainingJoin.InitialValid | src/model/data/create_training_set.py:116-118 | the copied production record is a well-formed record |
| TrainingJoin.JoinDayShape | src/model/data/create_training_set.py:116-137 | the joined record starts with `date` and `energy_production_Wh`, holding the production values |
| TrainingJoin.JoinDayObservationKeys | src/solar_production_prediction/training/data/create_training_set.py:104-115 | every later key is `f"{obs}\|{hour}"` of an in-window hour of that day |
| TrainingJoin.JoinDayLastWriteWins | src/model/data/create_training_set.py:124-135 | each observation key holds the last in-window reading for it; keys of hours outside 7..19 are absent |
| TrainingJoin.NoReadingOutsideWindow | src/model/data/create_training_set.py:111-112 | hours outside 7..19 contribute no reading |
| TrainingJoin.JoinAllPositional | src/model/data/create_training_set.py:114-137 | the join succeeds exactly when every day does, with one record per production record, in order |
| TrainingJoin.JoinErrorPersists | src/model/data/create_training_set.py:115-123 | once a day fails, later days do not change the outcome |
| TrainingJoin.AqiValueUnused | src/model/data/create_training_set.py:120-121 | when every production date has an AQI reading, the AQI table does not affect the join |
| TrainingJoin.JoinRecords | src/model/data/create_training_set.py:114-137 | the outer join loop computes `JoinAll` |
| TrainingJoin.JoinHours | src/model/data/create_training_set.py:124-135 | the nested hour and observation loops compute `JoinDay` |
| TrainingJoin.OutputHeader | src/model/data/create_training_set.py:140-144 | the header is the first record's keys; no records gives the IndexError, and a record with a key outside the header gives an error naming the first such record |
| LegacyTrainingSet.JoinRecordsLegacy | src/solar_production_prediction/training/data/create_training_set.py:98-117 | the older join is the one without AQI, and succeeds exactly when every production date has weather |
| LegacyTrainingSet.NewerJoinAgreesWithOlder | src/model/data/create_training_set.py:120 | with every AQI date present the two joins agree; with one missing the newer one fails |
| Alignment.EvidenceMatchesFeatures | src/model/data/load.py:23-30 | for a header of plain columns, the fields `predict` takes a number from are, in order, the columns `load_data` puts into evidence |
| Alignment.FeaturesNoLongerThanEvidence | src/predict.py:58-74 | the prediction vector never has more entries than a training row's evidence |
| Alignment.Pm25Misaligns | src/predict.py:66-68 | a `pm25_daily_avg` column makes the prediction vector strictly shorter than the evidence |
| Alignment.TrainingHeaderClassifies | src/model/data/create_training_set.py:116-135 | a joined record's header is `date`, the response, then observation keys that `predict` reads back as the observation and in-window hour they were built from; the older predictor classifies every key alike |
| Alignment.TrainingHeaderPlain | src/solar_production_prediction/training/data/create_training_set.py:101-115 | that header has no pm25 or malformed column, so both predictors classify it alike |
| Alignment.TrainingHeaderHasOneResponse | src/model/data/load.py:25-26 | that header has exactly one response column, so `load_data` gives one `y` per row |
| Alignment.TrainingHeaderAligned | src/model/data/load.py:21-32 | for that header both predictors read, position by position, the columns that become evidence, and the evidence has one entry fewer than the header |
| Alignment.EvidenceCount | src/model/data/load.py:23-30 | evidence length plus the number of response columns equals the header length |
| Alignment.WeatherTableHoursClean | src/model/data/create_training_set.py:82-93 | no observation name of any hour in the weather table contains the separator |
| Alignment.OutputHeaderAligned | src/model/data/create_training_set.py:140-144 | the header the training script writes is one that `load_data` and `predict` read in the same positions |

## Left out

- HTTP, XML and XPath access in `get_forecast`. The model starts from the time-layout elements in document order and one list of values per dimension. A dimension whose element is missing, and an unparsable value, are therefore not modelled.
- Noaa.GetForecast: requires one value list per dimension, because the XPath lookup of each dimension's parameter element is outside the model.
- CSV reading and writing, file paths, and `locale.setlocale`. Rows are given as values, and the written file is represented by its header and records.
- `float`, `locale.atoi`, `strptime` and `fromisoformat`. These are parameters returning `Option`; their exact accepted syntax is not modelled.
- Exception messages. Errors are structured values naming the hour, type, column or date.
- The older predictor's missing-prediction message names the hour by the key's text (for example `07`), while its missing-hour message uses the number. The model names the hour by its number `forecast.forecastHour.hour` in both errors.
- The `pdb.set_trace()` hook before the older predictor's `ValueError`. It is a debugging stop with no effect on the result.
- The estimator's internals (sklearn regression, pickling, metrics). It is an uninterpreted function on the single-row batch; only an empty output is modelled as an error.
- Mutation in place of the dataclass instances and dicts, and the `{**joined}` copies. Each object is reachable from one place while it changes, so values lose nothing. Aliasing and object identity are not modelled.
- `csv.DictReader`'s `restkey` (surplus cells of a long record). No modelled column reads them.
- Floating-point arithmetic. Observation values and predictions are `real`.
- FieldKey.ParseInt: does not accept the whitespace, underscores and non-ASCII digits that Python `int()` also accepts in a key's hour, because the training script writes the hour with `str()`, which never produces them.
