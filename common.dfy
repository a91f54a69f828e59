/** Values shared by the forecast, prediction and training-data modules. */
module Common {

  datatype Option<+T> = None | Some(value: T)

  /** The outcome of an operation of the source that may raise. */
  datatype Result<+T, +E> = Ok(value: T) | Err(error: E)

  /** A month number, as `date.month` yields it. */
  type Month = m: int | 1 <= m <= 12 witness 1

  /** An hour of the day, as `datetime.hour` yields it. */
  type Hour = h: int | 0 <= h <= 23

  /** A calendar date. Only its month is read by the core. */
  datatype Date = Date(year: int, month: Month, day: int)

  /** A point in time: its local calendar date and hour (what `date()` and
      `hour` give back) and the instant it denotes, in microseconds on a
      common time line (what subtracting two datetimes compares). */
  datatype DateTime = DateTime(date: Date, hour: Hour, instant: int)

  /** No element occurs twice. */
  predicate NoDuplicates<T(==)>(s: seq<T>)
  {
    forall j, k :: 0 <= j < k < |s| ==> s[j] != s[k]
  }

  /** `next(filter(p, s))`: the index of the first element of `s` that
      satisfies `p`, or None where the iterator is exhausted. */
  function FirstMatch<T>(s: seq<T>, p: T -> bool): (r: Option<nat>)
    ensures r.Some? ==> r.value < |s| && p(s[r.value])
    ensures r.Some? ==> forall j :: 0 <= j < r.value ==> !p(s[j])
    ensures r.None? <==> forall j :: 0 <= j < |s| ==> !p(s[j])
  {
    if |s| == 0 then None
    else if p(s[0]) then Some(0)
    else
      match FirstMatch(s[1..], p)
      case None =>
        assert forall j :: 1 <= j < |s| ==> s[j] == s[1..][j - 1];
        None
      case Some(k) =>
        assert forall j :: 1 <= j <= k ==> s[j] == s[1..][j - 1];
        Some(k + 1)
  }
}
