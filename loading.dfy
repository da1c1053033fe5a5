/** The worker of the loader (`processBatches`): every row of a batch is split
    on commas, its fields are counted, its first field is read as a
    nanosecond Unix timestamp and split into seconds and nanoseconds, and
    after each batch the shared row and column counters grow. The database
    transaction the values go to is modelled by returning the converted rows;
    `time.Unix(...).Format(...)` is not part of this model, so a timestamp
    stays a (seconds, nanoseconds) pair. */
module Loading {
  import opened Results
  import opened GoStrings
  import opened Strconv
  import opened Batching

  const NanosPerSecond: int := 1000000000

  // ---------------------------------------------------------------------
  // Timestamps

  /** Go's `/` on integers: the quotient truncated toward zero. */
  function Quo(a: int, d: int): int
    requires d > 0
  {
    if a >= 0 then a / d else -((-a) / d)
  }

  /** Go's `%` on integers: the remainder has the sign of the dividend. */
  function Rem(a: int, d: int): int
    requires d > 0
  {
    if a >= 0 then a % d else -((-a) % d)
  }

  /** A point in time as `time.Unix(secs, nsec)` receives it. */
  datatype Instant = Instant(secs: int, nanos: int)

  /** `secs := timeInt / 1000000000` and `timeInt % 1000000000`: seconds and
      the nanoseconds left over, both with the sign of `t`. */
  function SplitTimestamp(t: int): (r: Instant)
    ensures r.secs * NanosPerSecond + r.nanos == t
    ensures -NanosPerSecond < r.nanos < NanosPerSecond
    ensures 0 <= t ==> 0 <= r.nanos && 0 <= r.secs
    ensures t <= 0 ==> r.nanos <= 0 && r.secs <= 0
    ensures IsInt64(t) ==> IsInt64(r.secs)
  {
    Instant(Quo(t, NanosPerSecond), Rem(t, NanosPerSecond))
  }

  /** Truncating division is the only split of `t` into whole seconds and a
      remainder smaller than a second that has the sign of `t`. */
  lemma SplitTimestampUnique(t: int, secs: int, nanos: int)
    requires secs * NanosPerSecond + nanos == t
    requires -NanosPerSecond < nanos < NanosPerSecond
    requires 0 < t ==> 0 <= nanos
    requires t < 0 ==> nanos <= 0
    ensures SplitTimestamp(t) == Instant(secs, nanos)
  {
    var r := SplitTimestamp(t);
    var d := secs - r.secs;
    assert d * NanosPerSecond == r.nanos - nanos;
    assert -NanosPerSecond < r.nanos - nanos < NanosPerSecond;
  }

  // ---------------------------------------------------------------------
  // Rows

  /** A value handed to the COPY statement. */
  datatype Value = Time(at: Instant) | Text(s: string)

  /** Why a row cannot be loaded: its first field is not an int64. */
  datatype RowError = RowError(row: nat, cause: NumError)

  /** Why the worker stops: the row of this batch that cannot be loaded. */
  datatype LoadFailure = LoadFailure(batch: nat, at: RowError)

  /** `len(strings.Split(line, ","))`: the number of fields of a row, one more
      than its commas. */
  function FieldCount(row: string): (c: nat)
    ensures c == CountChar(row, ',') + 1
  {
    SplitCount(row, ',');
    |Split(row, ',')|
  }

  function Texts(fields: seq<string>): (vs: seq<Value>)
    ensures |vs| == |fields|
    ensures forall i | 0 <= i < |fields| :: vs[i] == Text(fields[i])
  {
    seq(|fields|, i requires 0 <= i < |fields| => Text(fields[i]))
  }

  /** The values of a row's fields: the first one parsed as a timestamp
      (failing as strconv.ParseInt fails), the others as they are. */
  function ConvertFields(sp: seq<string>): Result<seq<Value>, NumError>
  {
    if sp == [] then Success([])
    else
      var t :- ParseInt(sp[0]);
      Success([Time(SplitTimestamp(t))] + Texts(sp[1..]))
  }

  /** The values of a row. */
  function Convert(row: string): Result<seq<Value>, NumError>
  {
    ConvertFields(Split(row, ','))
  }

  /** A row is loaded exactly when its first field is an optionally signed
      decimal integer in the int64 range; its values are then that instant
      followed by the other fields as text, one value per field. */
  lemma ConvertMeaning(row: string)
    ensures var sp := Split(row, ',');
      Convert(row).Success? <==> WellFormed(sp[0]) && IsInt64(Denotes(sp[0]))
    ensures var sp := Split(row, ',');
      Convert(row).Success? ==>
        && |Convert(row).value| == |sp| == FieldCount(row)
        && Convert(row).value[0] == Time(SplitTimestamp(Denotes(sp[0])))
        && forall i | 1 <= i < |sp| :: Convert(row).value[i] == Text(sp[i])
  {
    ConvertFieldsMeaning(Split(row, ','));
  }

  /** The same, for the fields a row splits into. */
  lemma ConvertFieldsMeaning(sp: seq<string>)
    requires |sp| >= 1
    ensures ConvertFields(sp).Success? <==> WellFormed(sp[0]) && IsInt64(Denotes(sp[0]))
    ensures ConvertFields(sp).Success? ==>
      && |ConvertFields(sp).value| == |sp|
      && ConvertFields(sp).value[0] == Time(SplitTimestamp(Denotes(sp[0])))
      && forall i | 1 <= i < |sp| :: ConvertFields(sp).value[i] == Text(sp[i])
  {
    ParseIntMeaning(sp[0]);
    var p := ParseInt(sp[0]);
    if p.Success? {
      var vs := [Time(SplitTimestamp(p.value))] + Texts(sp[1..]);
      assert ConvertFields(sp) == Success(vs);
      assert forall i | 1 <= i < |sp| :: vs[i] == Texts(sp[1..])[i - 1];
    } else {
      assert ConvertFields(sp) == Failure(p.error);
    }
  }

  /** A row whose first character is neither a digit, a sign nor a comma
      fails with a syntax error. */
  lemma NonNumericTimestamp(row: string)
    requires |row| > 0 && !IsDigit(row[0])
    requires row[0] != '+' && row[0] != '-' && row[0] != ','
    ensures Convert(row) == Failure(ErrSyntax)
  {
    var sp := Split(row, ',');
    var i := IndexOf(row, ',');
    assert i > 0;
    assert sp[0] == row[..i];
    assert sp[0][0] == row[0];
    assert ParseUint(sp[0]) == Failure(ErrSyntax);
  }

  /** A row written as a decimal timestamp followed by comma-free fields is
      read back as that timestamp and those fields. */
  lemma ConvertRendered(t: int, fields: seq<string>)
    requires IsInt64(t)
    requires forall i | 0 <= i < |fields| :: ',' !in fields[i]
    ensures Convert(Join([FormatInt(t)] + fields, ',')) == Success([Time(SplitTimestamp(t))] + Texts(fields))
    ensures FieldCount(Join([FormatInt(t)] + fields, ',')) == |fields| + 1
  {
    var parts := [FormatInt(t)] + fields;
    NoCommaInNumber(t);
    forall i | 0 <= i < |parts| ensures ',' !in parts[i] {
      if i > 0 {
        assert parts[i] == fields[i - 1];
      }
    }
    SplitJoin(parts, ',');
    ParseFormat(t);
    assert parts[0] == FormatInt(t) && parts[1..] == fields;
    assert ConvertFields(parts) == Success([Time(SplitTimestamp(t))] + Texts(fields));
  }

  lemma NoCommaInNumber(t: int)
    ensures ',' !in FormatInt(t)
  {
    var digits := if t < 0 then FormatNat(-t) else FormatNat(t);
    assert AllDigits(digits);
    assert FormatInt(t) == if t < 0 then "-" + digits else digits;
    assert forall k | 0 <= k < |digits| :: IsDigit(digits[k]);
  }

  /** The loop over a row's fields, filling `in` one value at a time and
      failing on a first field strconv.ParseInt rejects. */
  method ConvertRow(sp: seq<string>) returns (r: Result<seq<Value>, NumError>)
    ensures r == ConvertFields(sp)
  {
    var vals := new Value[|sp|](_ => Text(""));
    var ind := 0;
    while ind < |sp|
      invariant 0 <= ind <= |sp|
      invariant ind > 0 ==> ParseInt(sp[0]).Success? && vals[0] == Time(SplitTimestamp(ParseInt(sp[0]).value))
      invariant forall k | 1 <= k < ind :: vals[k] == Text(sp[k])
    {
      if ind == 0 {
        var timeInt := ParseInt(sp[0]);
        if timeInt.Failure? {
          return Failure(timeInt.error);
        }
        vals[0] := Time(SplitTimestamp(timeInt.value));
      } else {
        vals[ind] := Text(sp[ind]);
      }
      ind := ind + 1;
    }
    r := Success(vals[..]);
    if sp != [] {
      assert vals[..] == [vals[0]] + Texts(sp[1..]);
    }
  }

  /** Every row of every batch can be loaded. */
  predicate AllConvert(batches: seq<Batch>) {
    forall i, k | 0 <= i < |batches| && 0 <= k < |batches[i].rows| :: Convert(batches[i].rows[k]).Success?
  }

  /** The column count of one more row. */
  lemma RowsStep(rows: seq<string>, i: nat)
    requires i < |rows|
    ensures Weight(rows[..i + 1], FieldCount) == Weight(rows[..i], FieldCount) + |Split(rows[i], ',')|
  {
    WeightAppend(rows[..i], [rows[i]], FieldCount);
    assert rows[..i + 1] == rows[..i] + [rows[i]];
    assert [rows[i]][1..] == [];
  }

  /** One more converted row. */
  lemma LoadedStep(rows: seq<string>, loaded: seq<seq<Value>>, i: nat, v: seq<Value>)
    requires i < |rows| && |loaded| == i
    requires forall k | 0 <= k < i :: Convert(rows[k]) == Success(loaded[k])
    requires Convert(rows[i]) == Success(v)
    ensures forall k | 0 <= k < i + 1 :: Convert(rows[k]) == Success((loaded + [v])[k])
  {
  }

  /** The row and column counts of one more batch. */
  lemma BatchesStep(batches: seq<Batch>, i: nat)
    requires i < |batches|
    ensures BatchesWeight(batches[..i + 1], One) == BatchesWeight(batches[..i], One) + |batches[i].rows|
    ensures BatchesWeight(batches[..i + 1], FieldCount) ==
      BatchesWeight(batches[..i], FieldCount) + Weight(batches[i].rows, FieldCount)
  {
    BatchesWeightAppend(batches[..i], [batches[i]], One);
    BatchesWeightAppend(batches[..i], [batches[i]], FieldCount);
    assert batches[..i + 1] == batches[..i] + [batches[i]];
    assert [batches[i]][1..] == [];
    CountWeight(batches[i].rows);
  }

  /** One more batch whose rows all convert. */
  lemma AllConvertStep(batches: seq<Batch>, i: nat)
    requires i < |batches|
    requires AllConvert(batches[..i])
    requires forall k | 0 <= k < |batches[i].rows| :: Convert(batches[i].rows[k]).Success?
    ensures AllConvert(batches[..i + 1])
  {
    var done := batches[..i + 1];
    forall j, k | 0 <= j < i + 1 && 0 <= k < |done[j].rows|
      ensures Convert(done[j].rows[k]).Success?
    {
      if j < i {
        assert done[j] == batches[..i][j];
      }
    }
  }

  // ---------------------------------------------------------------------
  // Counters

  /** The shared `rowCount` and `columnCount`. */
  class Counters {
    var rowCount: int
    var columnCount: int

    constructor ()
      ensures rowCount == 0 && columnCount == 0
    {
      rowCount, columnCount := 0, 0;
    }
  }

  /** One worker: its `columnCountWorker`, the counters it shares with the
      other workers, and the `doLoad` option. */
  class Worker {
    const shared: Counters
    const doLoad: bool
    var columnCountWorker: int

    /** Between batches the worker's own column count is back to zero. */
    ghost predicate Valid()
      reads this
    {
      columnCountWorker == 0
    }

    constructor (shared: Counters, doLoad: bool)
      ensures Valid() && this.shared == shared && this.doLoad == doLoad
    {
      this.shared := shared;
      this.doLoad := doLoad;
      columnCountWorker := 0;
    }

    /** The rows of one batch, each split on commas, its fields added to
        `columnCountWorker`, and converted, stopping at the first row whose
        timestamp does not parse. */
    method CopyRows(rows: seq<string>) returns (r: Result<seq<seq<Value>>, RowError>)
      modifies this
      ensures r.Success? <==> forall k | 0 <= k < |rows| :: Convert(rows[k]).Success?
      ensures r.Success? ==>
        && |r.value| == |rows|
        && (forall k | 0 <= k < |rows| :: Convert(rows[k]) == Success(r.value[k]))
        && columnCountWorker == old(columnCountWorker) + Weight(rows, FieldCount)
      ensures r.Failure? ==>
        && r.error.row < |rows|
        && Convert(rows[r.error.row]) == Failure(r.error.cause)
        && forall k | 0 <= k < r.error.row :: Convert(rows[k]).Success?
    {
      var loaded: seq<seq<Value>> := [];
      var i := 0;
      while i < |rows|
        invariant 0 <= i <= |rows| && |loaded| == i
        invariant columnCountWorker == old(columnCountWorker) + Weight(rows[..i], FieldCount)
        invariant forall k | 0 <= k < i :: Convert(rows[k]) == Success(loaded[k])
      {
        var sp := Split(rows[i], ',');
        RowsStep(rows, i);
        columnCountWorker := columnCountWorker + |sp|;
        var values := ConvertRow(sp);
        assert values == Convert(rows[i]);
        if values.Failure? {
          return Failure(RowError(i, values.error));
        }
        LoadedStep(rows, loaded, i, values.value);
        loaded := loaded + [values.value];
        i := i + 1;
      }
      assert rows[..i] == rows;
      r := Success(loaded);
    }

    /** One pass of `for hypertableBatch := range batchChan`: nothing when
        `doLoad` is false; otherwise every row converted in order (stopping
        at the first that cannot be), then both counters increased. */
    method ProcessBatch(b: Batch) returns (r: Result<seq<seq<Value>>, RowError>)
      requires Valid()
      modifies this, shared
      ensures !doLoad ==> r == Success([])
      ensures !doLoad || r.Success? ==> Valid()
      ensures r.Success? <==> !doLoad || forall k | 0 <= k < |b.rows| :: Convert(b.rows[k]).Success?
      ensures doLoad && r.Success? ==>
        && |r.value| == |b.rows|
        && forall k | 0 <= k < |b.rows| :: Convert(b.rows[k]) == Success(r.value[k])
      ensures r.Failure? ==>
        && r.error.row < |b.rows|
        && Convert(b.rows[r.error.row]) == Failure(r.error.cause)
        && forall k | 0 <= k < r.error.row :: Convert(b.rows[k]).Success?
      ensures shared.rowCount == old(shared.rowCount) + (if doLoad && r.Success? then |b.rows| else 0)
      ensures shared.columnCount == old(shared.columnCount) + (if doLoad && r.Success? then Weight(b.rows, FieldCount) else 0)
    {
      if !doLoad {
        return Success([]);
      }
      r := CopyRows(b.rows);
      if r.Success? {
        shared.columnCount := shared.columnCount + columnCountWorker;
        shared.rowCount := shared.rowCount + |b.rows|;
        columnCountWorker := 0;
      }
    }

    /** The worker's loop over every batch it receives, stopping at the first
        row that cannot be loaded. */
    method ProcessBatches(batches: seq<Batch>) returns (failure: Option<LoadFailure>)
      requires Valid()
      modifies this, shared
      ensures failure.None? <==> !doLoad || AllConvert(batches)
      ensures failure.None? ==> Valid()
      ensures failure.None? ==>
        && shared.rowCount == old(shared.rowCount) + (if doLoad then TotalRows(batches) else 0)
        && shared.columnCount == old(shared.columnCount) + (if doLoad then BatchesWeight(batches, FieldCount) else 0)
      ensures failure.Some? ==>
        var f := failure.value;
        && doLoad
        && f.batch < |batches| && f.at.row < |batches[f.batch].rows|
        && Convert(batches[f.batch].rows[f.at.row]) == Failure(f.at.cause)
        && AllConvert(batches[..f.batch])
        && forall k | 0 <= k < f.at.row :: Convert(batches[f.batch].rows[k]).Success?
    {
      var i := 0;
      while i < |batches|
        invariant 0 <= i <= |batches| && Valid()
        invariant doLoad ==> AllConvert(batches[..i])
        invariant shared.rowCount == old(shared.rowCount) + (if doLoad then BatchesWeight(batches[..i], One) else 0)
        invariant shared.columnCount == old(shared.columnCount) + (if doLoad then BatchesWeight(batches[..i], FieldCount) else 0)
      {
        BatchesStep(batches, i);
        var r := ProcessBatch(batches[i]);
        if r.Failure? {
          return Some(LoadFailure(i, r.error));
        }
        if doLoad {
          AllConvertStep(batches, i);
        }
        i := i + 1;
      }
      assert batches[..i] == batches;
      TotalRowsWeight(batches);
      failure := None;
    }
  }
}
