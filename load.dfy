/** `load_data` of src/model/data/load.py and of
    src/solar_production_prediction/training/load.py (the two differ only in
    where the file lives): reads the training set written as CSV into the
    evidence rows `x`, the responses `y` and the ordered column names. The
    file's header and records are parameters; the parsers `float` and
    `date.fromisoformat` are given as functions. */
module Load {
  import opened Common
  import opened FieldKey

  datatype LoadError =
    | NoFieldnames                            // ValueError: no header to order the columns by
    | MissingCell(key: string)                // TypeError: a short record leaves the cell None
    | UnparsableCell(key: string, text: string) // ValueError from `float` or `fromisoformat`

  /** `(x, y, fieldnames)`. */
  datatype TrainingData = TrainingData(x: seq<seq<real>>, y: seq<real>, fieldnames: seq<string>)

  /** `float(text)` and `date.fromisoformat(text)`; None where they raise. */
  datatype Parsers = Parsers(float: string -> Option<real>, isoDate: string -> Option<Date>)

  /** The value of the last column named `key` among `fields`, each column
      taking the record's text at its position. */
  function LastValue(fields: seq<string>, record: seq<string>, key: string): Option<string>
    requires |fields| <= |record|
  {
    if fields == [] then None
    else if fields[|fields| - 1] == key then Some(record[|fields| - 1])
    else LastValue(fields[..|fields| - 1], record, key)
  }

  /** `row[key]` for the row `csv.DictReader` makes of `record`: the dict of
      `zip(fieldnames, record)`, in which a later column of the same name
      wins, and in which every column past the end of a short record is then
      set to None. */
  function RowValue(fieldnames: seq<string>, record: seq<string>, key: string): Option<string>
  {
    var n := if |fieldnames| <= |record| then |fieldnames| else |record|;
    if key in fieldnames[n..] then None else LastValue(fieldnames[..n], record, key)
  }

  lemma {:induction false} LastValuePositional(fields: seq<string>, record: seq<string>, i: nat)
    requires |fields| <= |record| && i < |fields| && NoDuplicates(fields)
    ensures LastValue(fields, record, fields[i]) == Some(record[i])
  {
    if i < |fields| - 1 {
      var pre := fields[..|fields| - 1];
      assert NoDuplicates(pre) by {
        assert forall j :: 0 <= j < |pre| ==> pre[j] == fields[j];
      }
      LastValuePositional(pre, record, i);
    }
  }

  /** With distinct column names, the row holds each column's text at its
      position, and None for the columns a short record does not reach. */
  lemma RowValuePositional(fieldnames: seq<string>, record: seq<string>, i: nat)
    requires i < |fieldnames| && NoDuplicates(fieldnames)
    ensures RowValue(fieldnames, record, fieldnames[i]) == if i < |record| then Some(record[i]) else None
  {
    var n := if |fieldnames| <= |record| then |fieldnames| else |record|;
    if i < n {
      var pre := fieldnames[..n];
      assert NoDuplicates(pre) by {
        assert forall j :: 0 <= j < |pre| ==> pre[j] == fieldnames[j];
      }
      LastValuePositional(pre, record, i);
      assert fieldnames[i] !in fieldnames[n..] by {
        assert forall j :: n <= j < |fieldnames| ==> fieldnames[n..][j - n] == fieldnames[j];
      }
    } else {
      assert fieldnames[n..][i - n] == fieldnames[i];
    }
  }

  /** One cell's value: `float(value)`, or the month of the date in the
      `date` column. */
  function ParseCell(key: string, value: Option<string>, p: Parsers): (r: Result<real, LoadError>)
    ensures r.Err? <==> (value.None? || (key == DATE_FIELD && p.isoDate(value.value).None?) ||
      (key != DATE_FIELD && p.float(value.value).None?))
    ensures r.Err? ==> r.error == if value.None? then MissingCell(key) else UnparsableCell(key, value.value)
    ensures r.Ok? && key == DATE_FIELD ==> r.value == p.isoDate(value.value).value.month as real
    ensures r.Ok? && key != DATE_FIELD ==> r.value == p.float(value.value).value
  {
    match value
    case None => Err(MissingCell(key))
    case Some(text) =>
      if key == DATE_FIELD then
        match p.isoDate(text)
        case None => Err(UnparsableCell(key, text))
        case Some(d) => Ok(d.month as real)
      else
        match p.float(text)
        case None => Err(UnparsableCell(key, text))
        case Some(v) => Ok(v)
  }

  /** What one record contributes: its evidence row and its responses. */
  datatype RowValues = RowValues(evidence: seq<real>, responses: seq<real>)

  /** The record read over the columns `keys`, in order, or the first error. */
  function ReadRow(fieldnames: seq<string>, record: seq<string>, keys: seq<string>, p: Parsers): Result<RowValues, LoadError>
  {
    if keys == [] then Ok(RowValues([], []))
    else
      match ReadRow(fieldnames, record, keys[..|keys| - 1], p)
      case Err(e) => Err(e)
      case Ok(rv) =>
        var key := keys[|keys| - 1];
        match ParseCell(key, RowValue(fieldnames, record, key), p)
        case Err(e) => Err(e)
        case Ok(v) =>
          if key == RESPONSE_FIELD then Ok(RowValues(rv.evidence, rv.responses + [v]))
          else Ok(RowValues(rv.evidence + [v], rv.responses))
  }

  /** The columns that make up the evidence: all but the response, in order. */
  function EvidenceColumns(keys: seq<string>): seq<string>
  {
    if keys == [] then []
    else EvidenceColumns(keys[..|keys| - 1]) + (if keys[|keys| - 1] == RESPONSE_FIELD then [] else [keys[|keys| - 1]])
  }

  /** How many columns are named as the response. */
  function ResponseCount(keys: seq<string>): nat
  {
    if keys == [] then 0
    else ResponseCount(keys[..|keys| - 1]) + (if keys[|keys| - 1] == RESPONSE_FIELD then 1 else 0)
  }

  /** A record reads exactly when each of its cells parses. */
  lemma {:induction false} ReadRowOkIff(fieldnames: seq<string>, record: seq<string>, keys: seq<string>, p: Parsers)
    ensures ReadRow(fieldnames, record, keys, p).Ok? <==>
      forall k :: 0 <= k < |keys| ==> ParseCell(keys[k], RowValue(fieldnames, record, keys[k]), p).Ok?
  {
    if keys != [] {
      var pre := keys[..|keys| - 1];
      ReadRowOkIff(fieldnames, record, pre, p);
      assert forall k :: 0 <= k < |pre| ==> pre[k] == keys[k];
      if ReadRow(fieldnames, record, pre, p).Err? {
        var k :| 0 <= k < |pre| && !ParseCell(pre[k], RowValue(fieldnames, record, pre[k]), p).Ok?;
        assert !ParseCell(keys[k], RowValue(fieldnames, record, keys[k]), p).Ok?;
      }
    }
  }

  /** Position `j` of the evidence row holds the value of the `j`-th
      evidence column; every response column adds the response cell's value. */
  lemma {:induction false} ReadRowValues(fieldnames: seq<string>, record: seq<string>, keys: seq<string>, p: Parsers)
    requires ReadRow(fieldnames, record, keys, p).Ok?
    ensures var rv := ReadRow(fieldnames, record, keys, p).value;
      |rv.evidence| == |EvidenceColumns(keys)| &&
      (forall j :: 0 <= j < |rv.evidence| ==>
        ParseCell(EvidenceColumns(keys)[j], RowValue(fieldnames, record, EvidenceColumns(keys)[j]), p) == Ok(rv.evidence[j])) &&
      |rv.responses| == ResponseCount(keys) &&
      (forall j :: 0 <= j < |rv.responses| ==>
        ParseCell(RESPONSE_FIELD, RowValue(fieldnames, record, RESPONSE_FIELD), p) == Ok(rv.responses[j]))
  {
    if keys != [] {
      ReadRowValues(fieldnames, record, keys[..|keys| - 1], p);
    }
  }

  /** `csv.DictReader` skips the records of blank lines. */
  function NonBlank(records: seq<seq<string>>): (r: seq<seq<string>>)
    ensures forall i :: 0 <= i < |r| ==> r[i] != []
  {
    if records == [] then []
    else NonBlank(records[..|records| - 1]) + (if records[|records| - 1] == [] then [] else [records[|records| - 1]])
  }

  /** The rows read so far: `x` and `y`, or the first error. */
  function ReadRows(fieldnames: seq<string>, records: seq<seq<string>>, p: Parsers): Result<(seq<seq<real>>, seq<real>), LoadError>
  {
    if records == [] then Ok(([], []))
    else
      match ReadRows(fieldnames, records[..|records| - 1], p)
      case Err(e) => Err(e)
      case Ok(acc) =>
        var record := records[|records| - 1];
        if record == [] then Ok(acc)
        else
          match ReadRow(fieldnames, record, fieldnames, p)
          case Err(e) => Err(e)
          case Ok(rv) => Ok((acc.0 + [rv.evidence], acc.1 + rv.responses))
  }

  /** `load_data`, with the header record (None for an empty file) and the
      records that follow it. */
  function LoadSpec(header: Option<seq<string>>, records: seq<seq<string>>, p: Parsers): Result<TrainingData, LoadError>
  {
    if header.None? || header.value == [] then Err(NoFieldnames)
    else
      match ReadRows(header.value, records, p)
      case Err(e) => Err(e)
      case Ok(xy) => Ok(TrainingData(xy.0, xy.1, header.value))
  }

  /** The loop of `load_data`: one evidence row per non-blank record, each
      read against the whole header. */
  lemma {:induction false} ReadRowsShape(fieldnames: seq<string>, records: seq<seq<string>>, p: Parsers)
    requires ReadRows(fieldnames, records, p).Ok?
    ensures var xy := ReadRows(fieldnames, records, p).value;
      |xy.0| == |NonBlank(records)| &&
      |xy.1| == |NonBlank(records)| * ResponseCount(fieldnames) &&
      forall i :: 0 <= i < |xy.0| ==>
        ReadRow(fieldnames, NonBlank(records)[i], fieldnames, p).Ok? &&
        xy.0[i] == ReadRow(fieldnames, NonBlank(records)[i], fieldnames, p).value.evidence
  {
    if records != [] {
      var pre, record := records[..|records| - 1], records[|records| - 1];
      ReadRowsShape(fieldnames, pre, p);
      var acc := ReadRows(fieldnames, pre, p).value;
      if record == [] {
        assert NonBlank(records) == NonBlank(pre);
        assert ReadRows(fieldnames, records, p) == Ok(acc);
      } else {
        var rv := ReadRow(fieldnames, record, fieldnames, p).value;
        ReadRowValues(fieldnames, record, fieldnames, p);
        assert ReadRows(fieldnames, records, p) == Ok((acc.0 + [rv.evidence], acc.1 + rv.responses));
        var nb := NonBlank(records);
        assert nb == NonBlank(pre) + [record];
        OneMoreRow(|NonBlank(pre)|, ResponseCount(fieldnames));
        forall i | 0 <= i < |NonBlank(pre)|
          ensures nb[i] == NonBlank(pre)[i]
        {
        }
      }
    }
  }

  lemma OneMoreRow(n: nat, c: nat)
    ensures (n + 1) * c == n * c + c
  {
  }

  predicate IsCellError(e: LoadError)
  {
    e.MissingCell? || e.UnparsableCell?
  }

  lemma {:induction false} ReadRowCellError(fieldnames: seq<string>, record: seq<string>, keys: seq<string>, p: Parsers)
    ensures ReadRow(fieldnames, record, keys, p).Err? ==> IsCellError(ReadRow(fieldnames, record, keys, p).error)
  {
    if keys != [] {
      ReadRowCellError(fieldnames, record, keys[..|keys| - 1], p);
    }
  }

  /** Once there is a header, every failure is a failure of some cell. */
  lemma {:induction false} ReadRowsCellError(fieldnames: seq<string>, records: seq<seq<string>>, p: Parsers)
    ensures ReadRows(fieldnames, records, p).Err? ==> IsCellError(ReadRows(fieldnames, records, p).error)
  {
    if records != [] {
      ReadRowsCellError(fieldnames, records[..|records| - 1], p);
      ReadRowCellError(fieldnames, records[|records| - 1], fieldnames, p);
    }
  }

  /** Loading fails for want of a header exactly when there is none. */
  lemma NoFieldnamesIff(header: Option<seq<string>>, records: seq<seq<string>>, p: Parsers)
    ensures LoadSpec(header, records, p) == Err(NoFieldnames) <==> header.None? || header.value == []
  {
    if header.Some? && header.value != [] {
      ReadRowsCellError(header.value, records, p);
    }
  }

  /** All or nothing: the rows load exactly when every cell of every
      non-blank record parses. */
  lemma {:induction false} ReadRowsOkIff(fieldnames: seq<string>, records: seq<seq<string>>, p: Parsers)
    ensures ReadRows(fieldnames, records, p).Ok? <==>
      forall i :: 0 <= i < |NonBlank(records)| ==> ReadRow(fieldnames, NonBlank(records)[i], fieldnames, p).Ok?
  {
    if records != [] {
      var pre := records[..|records| - 1];
      ReadRowsOkIff(fieldnames, pre, p);
      var nb := NonBlank(records);
      assert forall i :: 0 <= i < |NonBlank(pre)| ==> nb[i] == NonBlank(pre)[i];
      var record := records[|records| - 1];
      if record != [] {
        assert nb[|NonBlank(pre)|] == record;
      }
      if ReadRows(fieldnames, pre, p).Err? {
        var i :| 0 <= i < |NonBlank(pre)| && !ReadRow(fieldnames, NonBlank(pre)[i], fieldnames, p).Ok?;
        assert !ReadRow(fieldnames, nb[i], fieldnames, p).Ok?;
      }
    }
  }

  /** The single response column of each row lands in `y` at the row's index. */
  lemma {:induction false} ReadRowsResponses(fieldnames: seq<string>, records: seq<seq<string>>, p: Parsers)
    requires ReadRows(fieldnames, records, p).Ok? && ResponseCount(fieldnames) == 1
    ensures var xy := ReadRows(fieldnames, records, p).value;
      |xy.1| == |NonBlank(records)| &&
      forall i :: 0 <= i < |xy.1| ==>
        ParseCell(RESPONSE_FIELD, RowValue(fieldnames, NonBlank(records)[i], RESPONSE_FIELD), p) == Ok(xy.1[i])
  {
    if records != [] {
      var pre := records[..|records| - 1];
      ReadRowsResponses(fieldnames, pre, p);
      var record := records[|records| - 1];
      if record != [] {
        ReadRowValues(fieldnames, record, fieldnames, p);
      }
    }
  }

  /** `load_data`. */
  method LoadData(header: Option<seq<string>>, records: seq<seq<string>>, p: Parsers) returns (r: Result<TrainingData, LoadError>)
    ensures r == LoadSpec(header, records, p)
  {
    if header.None? || header.value == [] {
      return Err(NoFieldnames);
    }
    var fieldnames := header.value;
    var x: seq<seq<real>> := [];
    var y: seq<real> := [];
    for i := 0 to |records|
      invariant ReadRows(fieldnames, records[..i], p) == Ok((x, y))
    {
      assert records[..i + 1][..i] == records[..i];
      var record := records[i];
      if record == [] {
        continue;
      }
      var evidence: seq<real> := [];
      var responses: seq<real> := [];
      for j := 0 to |fieldnames|
        invariant ReadRow(fieldnames, record, fieldnames[..j], p) == Ok(RowValues(evidence, responses))
      {
        assert fieldnames[..j + 1][..j] == fieldnames[..j];
        var key := fieldnames[j];
        var value := ParseCell(key, RowValue(fieldnames, record, key), p);
        if value.Err? {
          ReadRowErrorPersists(fieldnames, record, fieldnames, j + 1, p);
          assert fieldnames[..|fieldnames|] == fieldnames;
          ReadRowsErrorPersists(fieldnames, records, i + 1, p);
          return Err(value.error);
        }
        if key == RESPONSE_FIELD {
          responses := responses + [value.value];
        } else {
          evidence := evidence + [value.value];
        }
      }
      assert fieldnames[..|fieldnames|] == fieldnames;
      x := x + [evidence];
      y := y + responses;
    }
    assert records[..|records|] == records;
    r := Ok(TrainingData(x, y, fieldnames));
  }

  lemma {:induction false} ReadRowErrorPersists(fieldnames: seq<string>, record: seq<string>, keys: seq<string>, k: nat, p: Parsers)
    requires k <= |keys| && ReadRow(fieldnames, record, keys[..k], p).Err?
    ensures ReadRow(fieldnames, record, keys, p) == ReadRow(fieldnames, record, keys[..k], p)
    decreases |keys|
  {
    if k < |keys| {
      var pre := keys[..|keys| - 1];
      assert pre[..k] == keys[..k];
      ReadRowErrorPersists(fieldnames, record, pre, k, p);
    } else {
      assert keys[..k] == keys;
    }
  }

  lemma {:induction false} ReadRowsErrorPersists(fieldnames: seq<string>, records: seq<seq<string>>, k: nat, p: Parsers)
    requires k <= |records| && ReadRows(fieldnames, records[..k], p).Err?
    ensures ReadRows(fieldnames, records, p) == ReadRows(fieldnames, records[..k], p)
    decreases |records|
  {
    if k < |records| {
      var pre := records[..|records| - 1];
      assert pre[..k] == records[..k];
      ReadRowsErrorPersists(fieldnames, pre, k, p);
    } else {
      assert records[..k] == records;
    }
  }
}
