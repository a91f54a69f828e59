/** The names of the columns a model is trained on, and the text operations
    that build and take apart the `"<observation>|<hour>"` keys: `str.split`,
    `str.join`, `str(int)`, `int(str)` and the f-string that writes a key. */
module FieldKey {
  import opened Common

  /** Separator between the observation name and the hour in a key. */
  const SEPARATOR: char := '|'

  /** The response column: the quantity the model predicts. */
  const RESPONSE_FIELD: string := "energy_production_Wh"

  /** The column that holds the date; as a feature it is the month. */
  const DATE_FIELD: string := "date"

  /** `sep.join(parts)` */
  function Join(parts: seq<string>, sep: char): string
  {
    if |parts| == 0 then ""
    else if |parts| == 1 then parts[0]
    else parts[0] + [sep] + Join(parts[1..], sep)
  }

  /** `s.split(sep)`: the pieces between the occurrences of `sep`. */
  function Split(s: string, sep: char): (r: seq<string>)
    ensures |r| >= 1
    ensures forall k :: 0 <= k < |r| ==> sep !in r[k]
    ensures Join(r, sep) == s
  {
    if |s| == 0 then [""]
    else
      var rest := Split(s[1..], sep);
      if s[0] == sep then
        assert ([""] + rest)[1..] == rest;
        [""] + rest
      else
        var r := [[s[0]] + rest[0]] + rest[1..];
        assert r[1..] == rest[1..];
        assert s == [s[0]] + s[1..];
        r
  }

  /** Text with no separator in it splits into itself alone. */
  lemma {:induction false} SplitNoSeparator(s: string, sep: char)
    requires sep !in s
    ensures Split(s, sep) == [s]
  {
    if |s| > 0 {
      SplitNoSeparator(s[1..], sep);
    }
  }

  /** Splitting `a + sep + b` where `a` has no separator yields `a` first. */
  lemma {:induction false} SplitAfterPiece(a: string, sep: char, b: string)
    requires sep !in a
    ensures Split(a + [sep] + b, sep) == [a] + Split(b, sep)
  {
    var s := a + [sep] + b;
    if |a| == 0 {
      assert s[1..] == b;
    } else {
      assert s[1..] == a[1..] + [sep] + b;
      SplitAfterPiece(a[1..], sep, b);
      assert s == [a[0]] + s[1..];
      assert [a[0]] + a[1..] == a;
    }
  }

  /** `s.split(sep)` undoes `sep.join(parts)` when no part holds the separator. */
  lemma {:induction false} SplitJoin(parts: seq<string>, sep: char)
    requires |parts| >= 1
    requires forall k :: 0 <= k < |parts| ==> sep !in parts[k]
    ensures Split(Join(parts, sep), sep) == parts
  {
    if |parts| == 1 {
      SplitNoSeparator(parts[0], sep);
    } else {
      SplitJoin(parts[1..], sep);
      SplitAfterPiece(parts[0], sep, Join(parts[1..], sep));
      assert [parts[0]] + parts[1..] == parts;
    }
  }

  predicate IsDigit(c: char) { '0' <= c <= '9' }

  function DigitChar(d: nat): (c: char)
    requires d < 10
    ensures IsDigit(c)
  {
    ('0' as int + d) as char
  }

  function DigitValue(c: char): nat
    requires IsDigit(c)
  {
    c as int - '0' as int
  }

  /** The decimal digits of a natural number, most significant first. */
  function Digits(n: nat): (s: string)
    ensures |s| >= 1
    ensures forall k :: 0 <= k < |s| ==> IsDigit(s[k])
  {
    if n < 10 then [DigitChar(n)] else Digits(n / 10) + [DigitChar(n % 10)]
  }

  /** `str(n)` for an integer `n`. */
  function DecimalString(n: int): (s: string)
    ensures |s| >= 1 && SEPARATOR !in s
  {
    if n < 0 then "-" + Digits(-n) else Digits(n)
  }

  predicate AllDigits(s: string)
  {
    forall k :: 0 <= k < |s| ==> IsDigit(s[k])
  }

  /** The number a string of decimal digits denotes. */
  function DigitsValue(s: string): nat
    requires AllDigits(s)
  {
    if |s| == 0 then 0
    else DigitsValue(s[..|s| - 1]) * 10 + DigitValue(s[|s| - 1])
  }

  /** `int(s)`: an optional sign followed by one or more decimal digits;
      None where `int` raises ValueError. */
  function ParseInt(s: string): (r: Option<int>)
    ensures r.Some? ==> |s| >= 1
  {
    if |s| >= 2 && (s[0] == '-' || s[0] == '+') && AllDigits(s[1..]) then
      var v: int := DigitsValue(s[1..]);
      Some(if s[0] == '-' then -v else v)
    else if |s| >= 1 && AllDigits(s) then Some(DigitsValue(s))
    else None
  }

  /** The digits of `n` denote `n`. */
  lemma {:induction false} DigitsRoundTrip(n: nat)
    ensures DigitsValue(Digits(n)) == n
  {
    if n >= 10 {
      DigitsRoundTrip(n / 10);
      var s := Digits(n);
      assert s[..|s| - 1] == Digits(n / 10);
    }
  }

  /** `int(str(n)) == n`. */
  lemma ParseIntRoundTrip(n: int)
    ensures ParseInt(DecimalString(n)) == Some(n)
  {
    var s := DecimalString(n);
    if n < 0 {
      var d := Digits(-n);
      DigitsRoundTrip(-n);
      assert s == "-" + d && s[0] == '-' && s[1..] == d;
      assert AllDigits(s[1..]);
    } else {
      DigitsRoundTrip(n);
      assert s == Digits(n) && IsDigit(s[0]);
      assert AllDigits(s);
    }
  }

  /** `f"{obs}|{hour}"`: the name of the column holding observation `obs`
      at hour `hour`. */
  function Key(obs: string, hour: int): string
  {
    obs + [SEPARATOR] + DecimalString(hour)
  }

  /** A key splits on the separator into the observation name and the
      hour's text, and `int` of that text gives back the hour. */
  lemma KeyRoundTrip(obs: string, hour: int)
    requires SEPARATOR !in obs
    ensures Split(Key(obs, hour), SEPARATOR) == [obs, DecimalString(hour)]
    ensures ParseInt(Split(Key(obs, hour), SEPARATOR)[1]) == Some(hour)
  {
    SplitAfterPiece(obs, SEPARATOR, DecimalString(hour));
    SplitNoSeparator(DecimalString(hour), SEPARATOR);
    ParseIntRoundTrip(hour);
  }

  /** Two keys are equal only for equal observation names and hours. */
  lemma KeyInjective(obs1: string, hour1: int, obs2: string, hour2: int)
    requires SEPARATOR !in obs1 && SEPARATOR !in obs2
    requires Key(obs1, hour1) == Key(obs2, hour2)
    ensures obs1 == obs2 && hour1 == hour2
  {
    KeyRoundTrip(obs1, hour1);
    KeyRoundTrip(obs2, hour2);
  }

  /** A key is never the response or the date column: it holds a separator. */
  lemma KeyIsNotReserved(obs: string, hour: int)
    ensures Key(obs, hour) != RESPONSE_FIELD && Key(obs, hour) != DATE_FIELD
  {
    assert Key(obs, hour)[|obs|] == SEPARATOR;
    assert SEPARATOR !in RESPONSE_FIELD && SEPARATOR !in DATE_FIELD;
  }
}
