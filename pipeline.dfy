/** One run of the loader (`main`): the header phase (schema creation when
    loading is enabled, a plain skip otherwise), then the reader cutting the
    data lines into batches, then the worker converting and counting every
    batch. The goroutines and the channel between reader and workers are
    modelled as the reader finishing first and one worker taking the batches
    in the order they were sent. */
module Pipeline {
  import opened Results
  import opened Schema
  import opened Batching
  import opened Loading

  /** Why a run stops: a header with an unknown index type, a data line
      without a comma, or a row whose timestamp does not parse. */
  datatype RunError =
    | SchemaFailed(schemaError: SchemaError)
    | ScanFailed(scanError: ScanError)
    | LoadFailed(loadFailure: LoadFailure)

  /** What a completed run reports: the schema statements executed, the row
      count `scan` returns, and the two shared counters. */
  datatype Summary = Summary(statements: seq<string>, rowsRead: nat, rowsLoaded: int, columnsRead: int)

  /** The data lines: everything after the header. */
  function DataLines(lines: seq<string>): (data: seq<string>)
    ensures |data| == |lines| - HeaderEnd(lines)
  {
    lines[HeaderEnd(lines)..]
  }

  /** Every row can be converted. */
  predicate Loadable(rows: seq<string>) {
    forall k | 0 <= k < |rows| :: Convert(rows[k]).Success?
  }

  /** One for a row that cannot be converted, zero otherwise. */
  function Bad(row: string): nat {
    if Convert(row).Success? then 0 else 1
  }

  /** A weight sums to zero exactly when it is zero on every row. */
  lemma {:induction false} WeightZero(rows: seq<string>, w: string -> nat)
    ensures Weight(rows, w) == 0 <==> forall k | 0 <= k < |rows| :: w(rows[k]) == 0
    decreases |rows|
  {
    if rows != [] {
      WeightZero(rows[1..], w);
      assert forall k | 1 <= k < |rows| :: rows[1..][k - 1] == rows[k];
    }
  }

  /** The rows of all batches convert exactly when no row of theirs is bad. */
  lemma {:induction false} AllConvertBad(bs: seq<Batch>)
    ensures AllConvert(bs) <==> BatchesWeight(bs, Bad) == 0
    decreases |bs|
  {
    if bs != [] {
      AllConvertBad(bs[1..]);
      WeightZero(bs[0].rows, Bad);
      if AllConvert(bs) {
        forall i, k | 0 <= i < |bs[1..]| && 0 <= k < |bs[1..][i].rows|
          ensures Convert(bs[1..][i].rows[k]).Success?
        {
          assert bs[1..][i] == bs[i + 1];
        }
      }
      if BatchesWeight(bs, Bad) == 0 {
        forall i, k | 0 <= i < |bs| && 0 <= k < |bs[i].rows|
          ensures Convert(bs[i].rows[k]).Success?
        {
          if i > 0 {
            assert bs[i] == bs[1..][i - 1];
          } else {
            assert Bad(bs[0].rows[k]) == 0;
          }
        }
      }
    }
  }

  /** Batches that carry exactly the rows of `rows` can all be loaded exactly
      when those rows can. */
  lemma LoadableBatches(bs: seq<Batch>, rows: seq<string>)
    requires BatchesWeight(bs, Bad) == Weight(rows, Bad)
    ensures AllConvert(bs) <==> Loadable(rows)
  {
    AllConvertBad(bs);
    WeightZero(rows, Bad);
  }

  /** What the worker counts over the batches `scan` sends is what it would
      count over the data rows themselves. */
  lemma BatchesCarryData(bs: seq<Batch>, data: seq<string>, batchSize: int)
    requires AllHaveComma(data)
    requires Arranged(bs, Chunks(Records(data), BatchLimit(batchSize)))
    ensures BatchesWeight(bs, One) == |data|
    ensures BatchesWeight(bs, FieldCount) == Weight(RowsOf(Records(data)), FieldCount)
    ensures AllConvert(bs) <==> Loadable(RowsOf(Records(data)))
  {
    var rs := Records(data);
    ScanWeight(bs, rs, batchSize, One);
    ScanWeight(bs, rs, batchSize, FieldCount);
    ScanWeight(bs, rs, batchSize, Bad);
    RowsOfWeight(rs);
    LoadableBatches(bs, RowsOf(rs));
  }

  /** The statements the header phase executes and where the data starts. */
  datatype Header = Header(statements: seq<string>, next: nat)

  /** The start of `main`: with loading enabled the header becomes the
      schema, otherwise it is only skipped. */
  method HeaderPhase(cfg: Config, doLoad: bool, lines: seq<string>) returns (r: Result<Header, SchemaError>)
    ensures r.Failure? <==> doLoad && DescribeAll(cfg, lines, HeaderCount(lines)).Failure?
    ensures r.Failure? ==> DescribeAll(cfg, lines, HeaderCount(lines)) == Failure(r.error)
    ensures r.Success? ==> r.value.next == HeaderEnd(lines)
    ensures r.Success? && doLoad ==>
      r.value.statements == Prelude(cfg) + AllStatements(cfg, DescribeAll(cfg, lines, HeaderCount(lines)).value)
    ensures r.Success? && !doLoad ==> r.value.statements == []
  {
    if doLoad {
      var init := InitBenchmarkDB(cfg, lines);
      if init.Failure? {
        return Failure(init.error);
      }
      r := Success(Header(init.value.statements, init.value.next));
    } else {
      var next := SkipHeader(lines);
      r := Success(Header([], next));
    }
  }

  /** The rest of `main` over the data lines: `scan` sends the batches, the
      worker converts and counts them. A line without a comma stops the run,
      and so does a row that cannot be converted when loading is enabled;
      otherwise every line is read, and with loading enabled every row and
      every field is counted, while the dry run leaves both counters at zero. */
  method LoadData(doLoad: bool, batchSize: int, data: seq<string>) returns (r: Result<Summary, RunError>)
    ensures r.Failure? ==> r.error.ScanFailed? || r.error.LoadFailed?
    ensures r.Failure? && r.error.ScanFailed? <==> !AllHaveComma(data)
    ensures r.Failure? && r.error.LoadFailed? <==>
      doLoad && AllHaveComma(data) && !Loadable(RowsOf(Records(data)))
    ensures r.Success? ==>
      && AllHaveComma(data)
      && r.value.statements == []
      && r.value.rowsRead == |data|
      && r.value.rowsLoaded == (if doLoad then |data| else 0)
      && r.value.columnsRead == (if doLoad then Weight(RowsOf(Records(data)), FieldCount) else 0)
  {
    var scanned := Scan(batchSize, data);
    if scanned.Failure? {
      return Failure(ScanFailed(scanned.error));
    }
    var batches := scanned.value.batches;
    BatchesCarryData(batches, data, batchSize);
    var counters := new Counters();
    var worker := new Worker(counters, doLoad);
    var failure := worker.ProcessBatches(batches);
    if failure.Some? {
      return Failure(LoadFailed(failure.value));
    }
    r := Success(Summary([], scanned.value.linesRead, counters.rowCount, counters.columnCount));
  }

  /** `main`: the header phase, then the data. The run stops at the first
      fatal error, in that order. */
  method Run(cfg: Config, doLoad: bool, batchSize: int, lines: seq<string>) returns (r: Result<Summary, RunError>)
    ensures r.Failure? && r.error.SchemaFailed? <==> doLoad && DescribeAll(cfg, lines, HeaderCount(lines)).Failure?
    ensures r.Failure? && r.error.SchemaFailed? ==>
      DescribeAll(cfg, lines, HeaderCount(lines)) == Failure(r.error.schemaError)
    ensures r.Failure? && r.error.ScanFailed? <==>
      (!doLoad || DescribeAll(cfg, lines, HeaderCount(lines)).Success?) && !AllHaveComma(DataLines(lines))
    ensures r.Failure? && r.error.LoadFailed? <==>
      && doLoad && DescribeAll(cfg, lines, HeaderCount(lines)).Success?
      && AllHaveComma(DataLines(lines)) && !Loadable(RowsOf(Records(DataLines(lines))))
    ensures r.Success? ==>
      var data := DataLines(lines);
      && AllHaveComma(data)
      && r.value.rowsRead == |data|
      && r.value.rowsLoaded == (if doLoad then |data| else 0)
      && r.value.columnsRead == (if doLoad then Weight(RowsOf(Records(data)), FieldCount) else 0)
      && (doLoad ==>
            r.value.statements == Prelude(cfg) + AllStatements(cfg, DescribeAll(cfg, lines, HeaderCount(lines)).value))
      && (!doLoad ==> r.value.statements == [])
  {
    var header := HeaderPhase(cfg, doLoad, lines);
    if header.Failure? {
      return Failure(SchemaFailed(header.error));
    }
    var loaded := LoadData(doLoad, batchSize, lines[header.value.next..]);
    if loaded.Failure? {
      return loaded;
    }
    r := Success(loaded.value.(statements := header.value.statements));
  }

  // ---------------------------------------------------------------------
  // Worked examples

  /** Two lines of one hypertable with a batch size of one are sent as two
      single-row batches, in input order. */
  lemma SameTableBatchOfOne(h: string, row1: string, row2: string, bs: seq<Batch>)
    requires ',' !in h
    requires Arranged(bs, Chunks(Records([h + [','] + row1, h + [','] + row2]), BatchLimit(1)))
    ensures bs == [Batch(h, [row1]), Batch(h, [row2])]
    ensures TotalRows(bs) == 2
  {
    var lines := [h + [','] + row1, h + [','] + row2];
    var rs := Records(lines);
    ParseLineOf(h, row1);
    ParseLineOf(h, row2);
    RecordsMeaning(lines, 0);
    RecordsMeaning(lines, 1);
    assert rs == [Record(h, row1), Record(h, row2)];
    ScanGuarantees(bs, rs, 1);
    assert rs[1..] == [Record(h, row2)];
    assert rs[1..][1..] == [];
    assert Singles(rs[1..]) == [Batch(h, [row2])];
  }

  /** The two `cpu` lines of the worked example, batch size one: two
      single-row batches and two rows read. */
  lemma TwoLinesBatchOfOne(bs: seq<Batch>)
    requires Arranged(bs, Chunks(Records(["cpu" + [','] + "1000000000,host1,0.5", "cpu" + [','] + "2000000000,host1,0.6"]), BatchLimit(1)))
    ensures bs == [Batch("cpu", ["1000000000,host1,0.5"]), Batch("cpu", ["2000000000,host1,0.6"])]
    ensures TotalRows(bs) == 2
  {
    SameTableBatchOfOne("cpu", "1000000000,host1,0.5", "2000000000,host1,0.6", bs);
  }

  /** A row whose timestamp field is not a number cannot be loaded. */
  lemma NotANumber()
    ensures Convert("notanumber,host1,0.5") == Failure(Strconv.ErrSyntax)
  {
    NonNumericTimestamp("notanumber,host1,0.5");
  }
}
