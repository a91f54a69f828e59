/** The shaping of the NOAA point forecast (`NoaaApi.get_forecast`) once the
    XML has been read: the time layout becomes one hourly forecast per
    start/end pair, the i-th value of every forecast dimension becomes a
    prediction on the i-th hour, and the hours are grouped into days. */
module Noaa {
  import opened Common

  /** Names of the forecast dimensions, in the order they are read. */
  const DIMS: seq<string> := ["temp", "cloudcover", "humidity"]

  /** `datetime.timedelta(hours=1)`, in microseconds. */
  const ONE_HOUR: int := 3_600_000_000

  datatype WeatherPrediction = WeatherPrediction(kind: string, value: real)

  datatype HourlyForecast = HourlyForecast(forecastHour: DateTime, predictions: seq<WeatherPrediction>)

  datatype DailyForecast = DailyForecast(date: Date, hourly: seq<HourlyForecast>)

  /** A `start-valid-time` or `end-valid-time` element of the time layout,
      in document order, with its parsed timestamp. */
  datatype TimeElement = StartValidTime(time: DateTime) | EndValidTime(time: DateTime)

  datatype ForecastError =
    | EndBeforeStart                                  // XMLParseError
    | StepNotOneHour(start: DateTime, end: DateTime)  // XMLParseError
    | TooManyValues(dimension: string)                // IndexError on `hourly_forecasts[i]`
    | PredictionCountMismatch                         // the AssertionError of the final check

  // ---------------------------------------------------------------------
  // Time layout

  /** The start time in force after reading `es`: the last start element. */
  function LatestStart(es: seq<TimeElement>): Option<DateTime>
  {
    if es == [] then None
    else match es[|es| - 1]
      case StartValidTime(t) => Some(t)
      case EndValidTime(_) => LatestStart(es[..|es| - 1])
  }

  /** The times of the end elements, in order. */
  function EndTimes(es: seq<TimeElement>): seq<DateTime>
  {
    if es == [] then []
    else EndTimes(es[..|es| - 1]) + (if es[|es| - 1].EndValidTime? then [es[|es| - 1].time] else [])
  }

  /** The `k`-th element is not an end element that breaks the layout: an end
      element needs an earlier start exactly one hour before it. */
  predicate WellPaired(es: seq<TimeElement>, k: nat)
    requires k < |es|
  {
    es[k].EndValidTime? ==>
      LatestStart(es[..k]).Some? && es[k].time.instant - LatestStart(es[..k]).value.instant == ONE_HOUR
  }

  /** The hourly forecasts the time layout yields, each without predictions. */
  function Layout(es: seq<TimeElement>): Result<seq<HourlyForecast>, ForecastError>
  {
    if es == [] then Ok([])
    else
      var pre := es[..|es| - 1];
      match Layout(pre)
      case Err(e) => Err(e)
      case Ok(hs) =>
        match es[|es| - 1]
        case StartValidTime(_) => Ok(hs)
        case EndValidTime(t) =>
          match LatestStart(pre)
          case None => Err(EndBeforeStart)
          case Some(s) =>
            if t.instant - s.instant != ONE_HOUR then Err(StepNotOneHour(s, t))
            else Ok(hs + [HourlyForecast(s, [])])
  }

  /** Once reading a prefix fails, the whole layout fails the same way. */
  lemma {:induction false} LayoutErrorPersists(es: seq<TimeElement>, k: nat)
    requires k <= |es| && Layout(es[..k]).Err?
    ensures Layout(es) == Layout(es[..k])
    decreases |es|
  {
    if k < |es| {
      var pre := es[..|es| - 1];
      assert pre[..k] == es[..k];
      LayoutErrorPersists(pre, k);
    } else {
      assert es[..k] == es;
    }
  }

  /** The layout is accepted exactly when every end element is well paired. */
  lemma {:induction false} LayoutOkIff(es: seq<TimeElement>)
    ensures Layout(es).Ok? <==> forall k :: 0 <= k < |es| ==> WellPaired(es, k)
  {
    if es != [] {
      var pre := es[..|es| - 1];
      LayoutOkIff(pre);
      forall k | 0 <= k < |pre|
        ensures WellPaired(es, k) == WellPaired(pre, k)
      {
        assert es[..k] == pre[..k];
      }
      if Layout(pre).Ok? {
        assert Layout(es).Ok? <==> WellPaired(es, |pre|);
      } else {
        var k :| 0 <= k < |pre| && !WellPaired(pre, k);
        assert !WellPaired(es, k);
      }
    }
  }

  /** A start in force is the time of some start element. */
  lemma {:induction false} LatestStartIsAStart(es: seq<TimeElement>)
    requires LatestStart(es).Some?
    ensures exists k :: 0 <= k < |es| && es[k] == StartValidTime(LatestStart(es).value)
  {
    if es[|es| - 1].EndValidTime? {
      var pre := es[..|es| - 1];
      LatestStartIsAStart(pre);
      var k :| 0 <= k < |pre| && pre[k] == StartValidTime(LatestStart(pre).value);
      assert es[k] == pre[k];
    }
  }

  /** An accepted layout yields one hourly forecast per end element, without
      predictions, starting at the time of a start element exactly one hour
      before that end time. */
  lemma {:induction false} LayoutHours(es: seq<TimeElement>)
    requires Layout(es).Ok?
    ensures |Layout(es).value| == |EndTimes(es)|
    ensures forall j :: 0 <= j < |Layout(es).value| ==>
      Layout(es).value[j].predictions == [] &&
      EndTimes(es)[j].instant - Layout(es).value[j].forecastHour.instant == ONE_HOUR
    ensures forall j :: 0 <= j < |Layout(es).value| ==>
      exists k :: 0 <= k < |es| && es[k] == StartValidTime(Layout(es).value[j].forecastHour)
  {
    if es != [] {
      var pre := es[..|es| - 1];
      LayoutHours(pre);
      var hs := Layout(pre).value;
      forall j | 0 <= j < |hs|
        ensures exists k :: 0 <= k < |es| && es[k] == StartValidTime(hs[j].forecastHour)
      {
        var k :| 0 <= k < |pre| && pre[k] == StartValidTime(hs[j].forecastHour);
        assert es[k] == pre[k];
      }
      if es[|es| - 1].EndValidTime? {
        LatestStartIsAStart(pre);
        var k :| 0 <= k < |pre| && pre[k] == StartValidTime(LatestStart(pre).value);
        assert es[k] == pre[k];
      }
    }
  }

  /** Reads the time layout as the first loop of `get_forecast` does. */
  method ReadTimeLayout(es: seq<TimeElement>) returns (r: Result<seq<HourlyForecast>, ForecastError>)
    ensures r == Layout(es)
  {
    var hourly: seq<HourlyForecast> := [];
    var start: Option<DateTime> := None;
    for i := 0 to |es|
      invariant start == LatestStart(es[..i])
      invariant Layout(es[..i]) == Ok(hourly)
    {
      assert es[..i + 1][..i] == es[..i];
      match es[i]
      case StartValidTime(t) =>
        start := Some(t);
      case EndValidTime(t) =>
        if start.None? {
          r := Err(EndBeforeStart);
          LayoutErrorPersists(es, i + 1);
          return;
        }
        if t.instant - start.value.instant != ONE_HOUR {
          r := Err(StepNotOneHour(start.value, t));
          LayoutErrorPersists(es, i + 1);
          return;
        }
        hourly := hourly + [HourlyForecast(start.value, [])];
    }
    assert es[..|es|] == es;
    r := Ok(hourly);
  }

  // ---------------------------------------------------------------------
  // Values of the forecast dimensions

  function AddPrediction(h: HourlyForecast, p: WeatherPrediction): HourlyForecast
  {
    h.(predictions := h.predictions + [p])
  }

  /** The hours after the values of dimension `name` are given out: the i-th
      value to the i-th hour; a value without an hour is an IndexError. */
  function Attach(hours: seq<HourlyForecast>, name: string, values: seq<real>): Result<seq<HourlyForecast>, ForecastError>
  {
    if |values| > |hours| then Err(TooManyValues(name))
    else Ok(seq(|hours|, i requires 0 <= i < |hours| =>
      if i < |values| then AddPrediction(hours[i], WeatherPrediction(name, values[i])) else hours[i]))
  }

  /** The values of every dimension given out in turn. */
  function AttachDims(hours: seq<HourlyForecast>, names: seq<string>, values: seq<seq<real>>): Result<seq<HourlyForecast>, ForecastError>
    requires |names| == |values|
    decreases |names|
  {
    if names == [] then Ok(hours)
    else match Attach(hours, names[0], values[0])
      case Err(e) => Err(e)
      case Ok(next) => AttachDims(next, names[1..], values[1..])
  }

  /** The predictions an hour gets from the `i`-th value of every dimension. */
  function Column(names: seq<string>, values: seq<seq<real>>, i: nat): seq<WeatherPrediction>
    requires |names| == |values|
    requires forall k :: 0 <= k < |values| ==> i < |values[k]|
  {
    seq(|names|, k requires 0 <= k < |names| => WeatherPrediction(names[k], values[k][i]))
  }

  /** Giving out the values fails exactly when some dimension has more values
      than there are hours; otherwise the hours keep their times, and an hour
      gains one prediction per dimension exactly when every dimension has a
      value for it. */
  lemma {:induction false} AttachDimsCounts(hours: seq<HourlyForecast>, names: seq<string>, values: seq<seq<real>>)
    requires |names| == |values|
    ensures AttachDims(hours, names, values).Ok? <==> forall k :: 0 <= k < |values| ==> |values[k]| <= |hours|
    ensures AttachDims(hours, names, values).Ok? ==>
      var out := AttachDims(hours, names, values).value;
      |out| == |hours| &&
      forall i :: 0 <= i < |hours| ==>
        out[i].forecastHour == hours[i].forecastHour &&
        |out[i].predictions| <= |hours[i].predictions| + |names| &&
        (|out[i].predictions| == |hours[i].predictions| + |names| <==>
          forall k :: 0 <= k < |values| ==> i < |values[k]|)
    decreases |names|
  {
    if names != [] {
      match Attach(hours, names[0], values[0])
      case Err(_) =>
      case Ok(next) =>
        AttachDimsCounts(next, names[1..], values[1..]);
        assert forall k :: 1 <= k < |values| ==> values[k] == values[1..][k - 1];
    }
  }

  /** The error of giving out the values names the first dimension, in
      order, that has more values than there are hours. */
  lemma {:induction false} AttachDimsFirstError(hours: seq<HourlyForecast>, names: seq<string>, values: seq<seq<real>>, k: nat)
    requires |names| == |values|
    requires k < |values| && |values[k]| > |hours|
    requires forall j :: 0 <= j < k ==> |values[j]| <= |hours|
    ensures AttachDims(hours, names, values) == Err(TooManyValues(names[k]))
    decreases |names|
  {
    if k > 0 {
      var next := Attach(hours, names[0], values[0]).value;
      assert |next| == |hours|;
      assert forall j :: 0 <= j < k - 1 ==> values[1..][j] == values[j + 1];
      AttachDimsFirstError(next, names[1..], values[1..], k - 1);
    }
  }

  /** When every dimension has one value per hour, each hour gains exactly
      the `i`-th value of every dimension, in dimension order. */
  lemma {:induction false} AttachDimsFull(hours: seq<HourlyForecast>, names: seq<string>, values: seq<seq<real>>)
    requires |names| == |values|
    requires forall k :: 0 <= k < |values| ==> |values[k]| == |hours|
    ensures AttachDims(hours, names, values) ==
      Ok(seq(|hours|, i requires 0 <= i < |hours| =>
        hours[i].(predictions := hours[i].predictions + Column(names, values, i))))
    decreases |names|
  {
    if names == [] {
      forall i | 0 <= i < |hours|
        ensures hours[i].(predictions := hours[i].predictions + Column(names, values, i)) == hours[i]
      {
        assert hours[i].predictions + Column(names, values, i) == hours[i].predictions;
      }
      assert seq(|hours|, i requires 0 <= i < |hours| =>
        hours[i].(predictions := hours[i].predictions + Column(names, values, i))) == hours;
    } else {
      var next := Attach(hours, names[0], values[0]).value;
      assert |next| == |hours|;
      assert forall k :: 0 <= k < |values[1..]| ==> |values[1..][k]| == |next|;
      AttachDimsFull(next, names[1..], values[1..]);
      var lhs := seq(|next|, i requires 0 <= i < |next| =>
        next[i].(predictions := next[i].predictions + Column(names[1..], values[1..], i)));
      var rhs := seq(|hours|, i requires 0 <= i < |hours| =>
        hours[i].(predictions := hours[i].predictions + Column(names, values, i)));
      forall i | 0 <= i < |hours|
        ensures lhs[i] == rhs[i]
      {
        assert next[i] == AddPrediction(hours[i], WeatherPrediction(names[0], values[0][i]));
        assert Column(names, values, i) == [WeatherPrediction(names[0], values[0][i])] + Column(names[1..], values[1..], i);
      }
      assert lhs == rhs;
    }
  }

  /** Gives out the values of one dimension, as the inner loop does. */
  method AttachValues(hours: seq<HourlyForecast>, name: string, values: seq<real>)
    returns (r: Result<seq<HourlyForecast>, ForecastError>)
    ensures r == Attach(hours, name, values)
  {
    var hs := hours;
    var i := 0;
    while i < |values|
      invariant 0 <= i <= |values| && i <= |hours| && |hs| == |hours|
      invariant forall k :: 0 <= k < i ==> hs[k] == AddPrediction(hours[k], WeatherPrediction(name, values[k]))
      invariant forall k :: i <= k < |hs| ==> hs[k] == hours[k]
    {
      if i >= |hs| {
        return Err(TooManyValues(name));
      }
      hs := hs[i := AddPrediction(hs[i], WeatherPrediction(name, values[i]))];
      i := i + 1;
    }
    assert hs == seq(|hours|, k requires 0 <= k < |hours| =>
      if k < |values| then AddPrediction(hours[k], WeatherPrediction(name, values[k])) else hours[k]);
    r := Ok(hs);
  }

  /** Gives out the values of every dimension, in DIMS order. */
  method FillPredictions(hours: seq<HourlyForecast>, values: seq<seq<real>>)
    returns (r: Result<seq<HourlyForecast>, ForecastError>)
    requires |values| == |DIMS|
    ensures r == AttachDims(hours, DIMS, values)
  {
    var hs := hours;
    for d := 0 to |DIMS|
      invariant AttachDims(hs, DIMS[d..], values[d..]) == AttachDims(hours, DIMS, values)
    {
      var next := AttachValues(hs, DIMS[d], values[d]);
      assert DIMS[d..][1..] == DIMS[d + 1..] && values[d..][1..] == values[d + 1..];
      if next.Err? {
        return next;
      }
      hs := next.value;
    }
    r := Ok(hs);
  }

  // ---------------------------------------------------------------------
  // Grouping into days

  function DateOf(h: HourlyForecast): Date { h.forecastHour.date }

  /** The distinct dates of `hs`, in order of first appearance. */
  function Dates(hs: seq<HourlyForecast>): seq<Date>
  {
    if hs == [] then []
    else
      var ds := Dates(hs[..|hs| - 1]);
      if DateOf(hs[|hs| - 1]) in ds then ds else ds + [DateOf(hs[|hs| - 1])]
  }

  /** The hourly forecasts of `hs` on date `d`, in their original order. */
  function OnDate(hs: seq<HourlyForecast>, d: Date): seq<HourlyForecast>
  {
    if hs == [] then []
    else OnDate(hs[..|hs| - 1], d) + (if DateOf(hs[|hs| - 1]) == d then [hs[|hs| - 1]] else [])
  }

  /** One daily forecast per date of `ds`, holding the hours of that date. */
  function GroupOver(hs: seq<HourlyForecast>, ds: seq<Date>): seq<DailyForecast>
  {
    if ds == [] then []
    else GroupOver(hs, ds[..|ds| - 1]) + [DailyForecast(ds[|ds| - 1], OnDate(hs, ds[|ds| - 1]))]
  }

  /** `list(daily.values())` after the grouping loop. */
  function Group(hs: seq<HourlyForecast>): seq<DailyForecast>
  {
    GroupOver(hs, Dates(hs))
  }

  /** All the hourly forecasts of the days, day after day. */
  function Flatten(days: seq<DailyForecast>): seq<HourlyForecast>
  {
    if days == [] then [] else Flatten(days[..|days| - 1]) + days[|days| - 1].hourly
  }

  /** No date appears twice among the days. */
  lemma {:induction false} DatesDistinct(hs: seq<HourlyForecast>)
    ensures forall i, j :: 0 <= i < j < |Dates(hs)| ==> Dates(hs)[i] != Dates(hs)[j]
  {
    if hs != [] {
      DatesDistinct(hs[..|hs| - 1]);
    }
  }

  /** The days are exactly the dates of the hourly forecasts. */
  lemma {:induction false} DatesCover(hs: seq<HourlyForecast>, d: Date)
    ensures d in Dates(hs) <==> exists i :: 0 <= i < |hs| && DateOf(hs[i]) == d
  {
    if hs != [] {
      var pre := hs[..|hs| - 1];
      DatesCover(pre, d);
      if exists i :: 0 <= i < |pre| && DateOf(pre[i]) == d {
        var i :| 0 <= i < |pre| && DateOf(pre[i]) == d;
        assert hs[i] == pre[i];
      }
      if exists i :: 0 <= i < |hs| && DateOf(hs[i]) == d {
        var i :| 0 <= i < |hs| && DateOf(hs[i]) == d;
        if i < |pre| { assert pre[i] == hs[i]; }
      }
    }
  }

  /** Reading more hourly forecasts only appends dates: the days are in
      order of the first appearance of their dates. */
  lemma {:induction false} DatesGrowInOrder(hs: seq<HourlyForecast>, n: nat)
    requires n <= |hs|
    ensures Dates(hs[..n]) <= Dates(hs)
    decreases |hs|
  {
    if n < |hs| {
      var pre := hs[..|hs| - 1];
      assert pre[..n] == hs[..n];
      DatesGrowInOrder(pre, n);
    } else {
      assert hs[..n] == hs;
    }
  }

  /** The hours grouped under a date all have that date, come from `hs`, and
      there is at least one of them exactly when the date occurs. */
  lemma {:induction false} OnDateExact(hs: seq<HourlyForecast>, d: Date)
    ensures forall j :: 0 <= j < |OnDate(hs, d)| ==> DateOf(OnDate(hs, d)[j]) == d && OnDate(hs, d)[j] in hs
    ensures |OnDate(hs, d)| > 0 <==> d in Dates(hs)
  {
    if hs != [] {
      var pre := hs[..|hs| - 1];
      OnDateExact(pre, d);
      assert forall h :: h in pre ==> h in hs;
    }
  }

  lemma {:induction false} GroupOverAt(hs: seq<HourlyForecast>, ds: seq<Date>)
    ensures |GroupOver(hs, ds)| == |ds|
    ensures forall k :: 0 <= k < |ds| ==> GroupOver(hs, ds)[k] == DailyForecast(ds[k], OnDate(hs, ds[k]))
  {
    if ds != [] {
      GroupOverAt(hs, ds[..|ds| - 1]);
    }
  }

  /** Day `k` holds date `Dates(hs)[k]` and exactly the hours of that date. */
  lemma {:induction false} GroupShape(hs: seq<HourlyForecast>)
    ensures |Group(hs)| == |Dates(hs)|
    ensures forall k :: 0 <= k < |Group(hs)| ==>
      Group(hs)[k].date == Dates(hs)[k] && Group(hs)[k].hourly == OnDate(hs, Dates(hs)[k])
  {
    GroupOverAt(hs, Dates(hs));
  }

  lemma {:induction false} OnDateSnoc(pre: seq<HourlyForecast>, h: HourlyForecast, d: Date)
    ensures OnDate(pre + [h], d) == OnDate(pre, d) + (if DateOf(h) == d then [h] else [])
  {
    assert (pre + [h])[..|pre|] == pre;
  }

  /** Days of other dates do not see a new hour. */
  lemma {:induction false} GroupOverUntouched(pre: seq<HourlyForecast>, h: HourlyForecast, ds: seq<Date>)
    requires DateOf(h) !in ds
    ensures GroupOver(pre + [h], ds) == GroupOver(pre, ds)
  {
    if ds != [] {
      var init, x := ds[..|ds| - 1], ds[|ds| - 1];
      assert DateOf(h) !in init;
      GroupOverUntouched(pre, h, init);
      OnDateSnoc(pre, h, x);
      assert OnDate(pre + [h], x) == OnDate(pre, x);
      assert GroupOver(pre + [h], ds) == GroupOver(pre + [h], init) + [DailyForecast(x, OnDate(pre + [h], x))];
      assert GroupOver(pre, ds) == GroupOver(pre, init) + [DailyForecast(x, OnDate(pre, x))];
    }
  }

  lemma {:induction false} FlattenSnoc(days: seq<DailyForecast>, day: DailyForecast)
    ensures Flatten(days + [day]) == Flatten(days) + day.hourly
  {
    assert (days + [day])[..|days|] == days;
  }

  /** A new hour of a date already among distinct days lands in exactly one of them. */
  predicate Distinct(ds: seq<Date>)
  {
    forall i, j :: 0 <= i < j < |ds| ==> ds[i] != ds[j]
  }

  /** The day of the new hour's date gains exactly that hour. */
  lemma {:induction false} GroupOverAddsAtLast(pre: seq<HourlyForecast>, h: HourlyForecast, ds: seq<Date>)
    requires ds != [] && ds[|ds| - 1] == DateOf(h) && DateOf(h) !in ds[..|ds| - 1]
    ensures Flatten(GroupOver(pre + [h], ds)) == Flatten(GroupOver(pre, ds)) + [h]
  {
    var init, x := ds[..|ds| - 1], ds[|ds| - 1];
    var hs := pre + [h];
    OnDateSnoc(pre, h, x);
    assert OnDate(hs, x) == OnDate(pre, x) + [h];
    GroupOverUntouched(pre, h, init);
    var before := GroupOver(pre, init);
    assert GroupOver(hs, ds) == before + [DailyForecast(x, OnDate(hs, x))];
    assert GroupOver(pre, ds) == before + [DailyForecast(x, OnDate(pre, x))];
    FlattenSnoc(before, DailyForecast(x, OnDate(hs, x)));
    FlattenSnoc(before, DailyForecast(x, OnDate(pre, x)));
    assert Flatten(before) + (OnDate(pre, x) + [h]) == (Flatten(before) + OnDate(pre, x)) + [h];
  }

  /** A day of another date keeps its hours. */
  lemma {:induction false} GroupOverSameLast(pre: seq<HourlyForecast>, h: HourlyForecast, ds: seq<Date>)
    requires ds != [] && ds[|ds| - 1] != DateOf(h)
    ensures Flatten(GroupOver(pre + [h], ds)) == Flatten(GroupOver(pre + [h], ds[..|ds| - 1])) + OnDate(pre, ds[|ds| - 1])
    ensures Flatten(GroupOver(pre, ds)) == Flatten(GroupOver(pre, ds[..|ds| - 1])) + OnDate(pre, ds[|ds| - 1])
  {
    var init, x := ds[..|ds| - 1], ds[|ds| - 1];
    var hs := pre + [h];
    OnDateSnoc(pre, h, x);
    FlattenSnoc(GroupOver(hs, init), DailyForecast(x, OnDate(hs, x)));
    FlattenSnoc(GroupOver(pre, init), DailyForecast(x, OnDate(pre, x)));
  }

  lemma {:induction false} GroupOverAddsOnce(pre: seq<HourlyForecast>, h: HourlyForecast, ds: seq<Date>)
    requires DateOf(h) in ds
    requires Distinct(ds)
    ensures multiset(Flatten(GroupOver(pre + [h], ds))) == multiset(Flatten(GroupOver(pre, ds))) + multiset{h}
  {
    var init, x := ds[..|ds| - 1], ds[|ds| - 1];
    if x == DateOf(h) {
      assert DateOf(h) !in init by {
        forall i | 0 <= i < |init| ensures init[i] != x { assert init[i] == ds[i]; }
      }
      GroupOverAddsAtLast(pre, h, ds);
    } else {
      assert DateOf(h) in init;
      assert Distinct(init) by {
        forall i, j | 0 <= i < j < |init| ensures init[i] != init[j] { assert init[i] == ds[i] && init[j] == ds[j]; }
      }
      GroupOverAddsOnce(pre, h, init);
      GroupOverSameLast(pre, h, ds);
      MultisetAppend(Flatten(GroupOver(pre + [h], init)), Flatten(GroupOver(pre, init)), OnDate(pre, x), h);
    }
  }

  lemma {:induction false} MultisetAppend(after: seq<HourlyForecast>, before: seq<HourlyForecast>, tail: seq<HourlyForecast>, h: HourlyForecast)
    requires multiset(after) == multiset(before) + multiset{h}
    ensures multiset(after + tail) == multiset(before + tail) + multiset{h}
  {
  }

  /** Together the days hold every hourly forecast exactly once. */
  lemma {:induction false} GroupPartition(hs: seq<HourlyForecast>)
    ensures multiset(Flatten(Group(hs))) == multiset(hs)
  {
    if hs != [] {
      var pre, h := hs[..|hs| - 1], hs[|hs| - 1];
      assert hs == pre + [h];
      GroupPartition(pre);
      var d := DateOf(h);
      if d in Dates(pre) {
        DatesDistinct(pre);
        assert Distinct(Dates(pre));
        GroupOverAddsOnce(pre, h, Dates(pre));
      } else {
        GroupOverUntouched(pre, h, Dates(pre));
        OnDateExact(pre, d);
        OnDateSnoc(pre, h, d);
        FlattenSnoc(GroupOver(hs, Dates(pre)), DailyForecast(d, OnDate(hs, d)));
      }
    }
  }

  lemma DatesSnoc(pre: seq<HourlyForecast>, h: HourlyForecast)
    ensures Dates(pre + [h]) == if DateOf(h) in Dates(pre) then Dates(pre) else Dates(pre) + [DateOf(h)]
  {
    assert (pre + [h])[..|pre|] == pre;
  }

  /** The state of the grouping loop once it has seen `pre`: the dates in
      order of first appearance, and each seen date's hours. */
  ghost predicate Grouped(pre: seq<HourlyForecast>, order: seq<Date>, daily: map<Date, seq<HourlyForecast>>)
  {
    && order == Dates(pre)
    && (forall d :: d in daily <==> d in order)
    && (forall d :: d in daily ==> daily[d] == OnDate(pre, d))
    && (forall d :: d !in daily ==> OnDate(pre, d) == [])
  }

  /** One turn of the grouping loop keeps `Grouped`: a new date gets an
      empty entry and a place at the end of `order`, then the hour is
      appended to its date's entry. */
  lemma GroupedStep(pre: seq<HourlyForecast>, h: HourlyForecast, order: seq<Date>, daily: map<Date, seq<HourlyForecast>>)
    requires Grouped(pre, order, daily)
    ensures var date := DateOf(h);
      var order' := if date in daily then order else order + [date];
      var mid := if date in daily then daily else daily[date := []];
      Grouped(pre + [h], order', mid[date := mid[date] + [h]])
  {
    var date := DateOf(h);
    var order' := if date in daily then order else order + [date];
    var mid := if date in daily then daily else daily[date := []];
    var daily' := mid[date := mid[date] + [h]];
    DatesSnoc(pre, h);
    assert order' == Dates(pre + [h]);
    forall d | d in daily'
      ensures daily'[d] == OnDate(pre + [h], d)
    {
      OnDateSnoc(pre, h, d);
    }
    forall d | d !in daily'
      ensures OnDate(pre + [h], d) == []
    {
      OnDateSnoc(pre, h, d);
    }
  }

  /** Groups the hourly forecasts by date as the last loop of `get_forecast`
      does, with the dictionary's insertion order kept as `order`. */
  method GroupByDate(hs: seq<HourlyForecast>) returns (days: seq<DailyForecast>)
    ensures days == Group(hs)
  {
    var order: seq<Date> := [];
    var daily: map<Date, seq<HourlyForecast>> := map[];
    for i := 0 to |hs|
      invariant Grouped(hs[..i], order, daily)
    {
      assert hs[..i + 1] == hs[..i] + [hs[i]];
      GroupedStep(hs[..i], hs[i], order, daily);
      var date := DateOf(hs[i]);
      if date !in daily {
        daily := daily[date := []];
        order := order + [date];
      }
      daily := daily[date := daily[date] + [hs[i]]];
    }
    assert hs[..|hs|] == hs;
    days := [];
    for k := 0 to |order|
      invariant days == GroupOver(hs, order[..k])
    {
      assert order[..k + 1][..k] == order[..k];
      days := days + [DailyForecast(order[k], daily[order[k]])];
    }
    assert order[..|order|] == order;
  }

  // ---------------------------------------------------------------------
  // The whole shaping

  /** Every hour's predictions once all dimensions are given out in full. */
  function WithPredictions(hours: seq<HourlyForecast>, values: seq<seq<real>>): seq<HourlyForecast>
    requires |values| == |DIMS|
    requires forall k :: 0 <= k < |values| ==> |values[k]| == |hours|
  {
    seq(|hours|, i requires 0 <= i < |hours| => HourlyForecast(hours[i].forecastHour, Column(DIMS, values, i)))
  }

  /** The hour carries one prediction per dimension, named in DIMS order. */
  predicate HasAllDims(h: HourlyForecast)
  {
    |h.predictions| == |DIMS| && forall m :: 0 <= m < |DIMS| ==> h.predictions[m].kind == DIMS[m]
  }

  /** Grouping keeps every hour as it is: if all hours carry every
      dimension, so do the hours of every day. */
  lemma {:induction false} GroupKeepsAllDims(hs: seq<HourlyForecast>)
    requires forall i :: 0 <= i < |hs| ==> HasAllDims(hs[i])
    ensures forall k, j :: 0 <= k < |Group(hs)| && 0 <= j < |Group(hs)[k].hourly| ==> HasAllDims(Group(hs)[k].hourly[j])
  {
    GroupShape(hs);
    forall k, j | 0 <= k < |Group(hs)| && 0 <= j < |Group(hs)[k].hourly|
      ensures HasAllDims(Group(hs)[k].hourly[j])
    {
      OnDateExact(hs, Dates(hs)[k]);
      assert Group(hs)[k].hourly[j] in hs;
    }
  }

  /** Empty hours given one value per hour of every dimension are filled
      with exactly those values. */
  lemma FullLayout(hours: seq<HourlyForecast>, values: seq<seq<real>>)
    requires |values| == |DIMS|
    requires forall i :: 0 <= i < |hours| ==> hours[i].predictions == []
    requires forall k :: 0 <= k < |values| ==> |values[k]| == |hours|
    ensures AttachDims(hours, DIMS, values) == Ok(WithPredictions(hours, values))
  {
    AttachDimsFull(hours, DIMS, values);
    var filled := AttachDims(hours, DIMS, values).value;
    assert |filled| == |hours| == |WithPredictions(hours, values)|;
    forall i | 0 <= i < |hours|
      ensures filled[i] == WithPredictions(hours, values)[i]
    {
      assert hours[i].predictions + Column(DIMS, values, i) == Column(DIMS, values, i);
    }
    assert filled == WithPredictions(hours, values);
  }

  /** `get_forecast` on the time layout `es` and, for each of DIMS, the
      values read for it. */
  method GetForecast(es: seq<TimeElement>, values: seq<seq<real>>)
    returns (r: Result<seq<DailyForecast>, ForecastError>)
    requires |values| == |DIMS|
    ensures Layout(es).Err? ==> r == Err(Layout(es).error)
    ensures r.Ok? <==> Layout(es).Ok? && forall k :: 0 <= k < |DIMS| ==> |values[k]| == |Layout(es).value|
    ensures Layout(es).Ok? ==> forall k ::
      (0 <= k < |DIMS| && |values[k]| > |Layout(es).value| &&
       (forall j :: 0 <= j < k ==> |values[j]| <= |Layout(es).value|)) ==> r == Err(TooManyValues(DIMS[k]))
    ensures Layout(es).Ok? && (forall k :: 0 <= k < |DIMS| ==> |values[k]| <= |Layout(es).value|) && r.Err? ==>
      r == Err(PredictionCountMismatch)
    ensures r.Ok? ==> r.value == Group(WithPredictions(Layout(es).value, values))
    ensures r.Ok? ==> forall k, j :: 0 <= k < |r.value| && 0 <= j < |r.value[k].hourly| ==>
      HasAllDims(r.value[k].hourly[j])
  {
    var layout := ReadTimeLayout(es);
    if layout.Err? {
      return Err(layout.error);
    }
    var hours := layout.value;
    LayoutHours(es);
    var filled := FillPredictions(hours, values);
    AttachDimsCounts(hours, DIMS, values);
    if filled.Err? {
      forall k | 0 <= k < |DIMS| && |values[k]| > |hours| && (forall j :: 0 <= j < k ==> |values[j]| <= |hours|)
        ensures filled == Err(TooManyValues(DIMS[k]))
      {
        AttachDimsFirstError(hours, DIMS, values, k);
      }
      return Err(filled.error);
    }
    var hs := filled.value;
    for i := 0 to |hs|
      invariant forall k :: 0 <= k < i ==> |hs[k].predictions| == |DIMS|
    {
      if |hs[i].predictions| != |DIMS| {
        return Err(PredictionCountMismatch);
      }
    }
    assert forall k :: 0 <= k < |DIMS| ==> |values[k]| == |hours| by {
      if |hours| > 0 {
        assert |hs[|hours| - 1].predictions| == |DIMS|;
      }
    }
    FullLayout(hours, values);
    assert hs == WithPredictions(hours, values);
    var days := GroupByDate(hs);
    GroupKeepsAllDims(hs);
    r := Ok(days);
  }
}
