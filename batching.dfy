/** The reader of the loader (`scan`): data lines are split at their first
    comma into a hypertable name and a row, rows are gathered per hypertable,
    and every `itemsPerBatch` lines (counted across all hypertables) one batch
    per hypertable is sent on. The channel the batches go to is modelled as the
    output sequence; the order in which one flush visits the hypertables is
    Go's map iteration order, which is unspecified, so the model chooses it
    arbitrarily. */
module Batching {
  import opened Results
  import opened GoStrings

  /** A data line split at its first comma. */
  datatype Record = Record(hypertable: string, row: string)

  /** hypertableBatch: rows bound for one hypertable. */
  datatype Batch = Batch(hypertable: string, rows: seq<string>)

  /** Why the reader stops: the data line at this index has no comma. */
  datatype ScanError = MissingComma(line: nat)

  /** What the reader produces: the batches in the order they are sent, and
      the number of lines read. */
  datatype Scanned = Scanned(batches: seq<Batch>, linesRead: nat)

  // ---------------------------------------------------------------------
  // Lines and records

  /** A data line as the reader splits it; None for a line without a comma,
      on which the reader fails. */
  function ParseLine(line: string): (r: Option<Record>)
    ensures r.None? <==> ',' !in line
    ensures r.Some? ==> ',' !in r.value.hypertable && r.value.hypertable + [','] + r.value.row == line
  {
    var parts := SplitFirst(line, ',');
    if |parts| < 2 then None else Some(Record(parts[0], parts[1]))
  }

  /** A line is its hypertable, a comma and the row. */
  lemma ParseLineOf(h: string, row: string)
    requires ',' !in h
    ensures ParseLine(h + [','] + row) == Some(Record(h, row))
  {
    var line := h + [','] + row;
    assert line[|h|] == ',';
    assert line[..|h|] == h;
    assert line[|h| + 1..] == row;
  }

  predicate AllHaveComma(lines: seq<string>) {
    forall k | 0 <= k < |lines| :: ',' in lines[k]
  }

  /** The records of lines that all have a comma. */
  function Records(lines: seq<string>): (rs: seq<Record>)
    requires AllHaveComma(lines)
    ensures |rs| == |lines|
  {
    if lines == [] then []
    else Records(lines[..|lines| - 1]) + [ParseLine(lines[|lines| - 1]).value]
  }

  /** The k-th record is the k-th line split at its first comma. */
  lemma {:induction false} RecordsMeaning(lines: seq<string>, k: nat)
    requires AllHaveComma(lines) && k < |lines|
    ensures ParseLine(lines[k]) == Some(Records(lines)[k])
    decreases |lines|
  {
    if k < |lines| - 1 {
      var init := lines[..|lines| - 1];
      RecordsMeaning(init, k);
      assert init[k] == lines[k];
    }
  }

  /** The rows of the records bound for hypertable `h`, in input order. */
  function Rests(rs: seq<Record>, h: string): seq<string>
  {
    if rs == [] then []
    else (if rs[0].hypertable == h then [rs[0].row] else []) + Rests(rs[1..], h)
  }

  /** The rows of all records, in input order. */
  function RowsOf(rs: seq<Record>): seq<string>
  {
    if rs == [] then [] else [rs[0].row] + RowsOf(rs[1..])
  }

  /** The hypertables the records name. */
  function KeysOf(rs: seq<Record>): set<string>
  {
    if rs == [] then {} else {rs[0].hypertable} + KeysOf(rs[1..])
  }

  /** The rows of the records grouped by hypertable: every named hypertable
      with its rows in input order. */
  ghost function Grouped(rs: seq<Record>): map<string, seq<string>>
  {
    map h | h in KeysOf(rs) :: Rests(rs, h)
  }

  /** The per-hypertable accumulator after the records `rs`: each record's
      row appended to its hypertable's entry, the entry created when missing. */
  function Accumulate(rs: seq<Record>): map<string, seq<string>>
    decreases |rs|
  {
    if rs == [] then map[]
    else
      var m := Accumulate(rs[..|rs| - 1]);
      var r := rs[|rs| - 1];
      m[r.hypertable := (if r.hypertable in m then m[r.hypertable] else []) + [r.row]]
  }

  // ---------------------------------------------------------------------
  // Batches

  /** The rows of all batches for hypertable `h`, in output order. */
  function RowsFor(bs: seq<Batch>, h: string): seq<string>
  {
    if bs == [] then []
    else (if bs[0].hypertable == h then bs[0].rows else []) + RowsFor(bs[1..], h)
  }

  /** Sum of `w` over rows. */
  function Weight(rows: seq<string>, w: string -> nat): nat
  {
    if rows == [] then 0 else w(rows[0]) + Weight(rows[1..], w)
  }

  /** Sum of `w` over the rows of all batches. */
  function BatchesWeight(bs: seq<Batch>, w: string -> nat): nat
  {
    if bs == [] then 0 else Weight(bs[0].rows, w) + BatchesWeight(bs[1..], w)
  }

  function One(row: string): nat {
    1
  }

  /** Number of rows in all batches. */
  function TotalRows(bs: seq<Batch>): nat
  {
    if bs == [] then 0 else |bs[0].rows| + TotalRows(bs[1..])
  }

  /** `e` sends every entry of the accumulator `m` exactly once, in some
      order: as many batches as entries, each an entry, no hypertable twice
      (so every entry is sent, see EnumeratesAll). */
  ghost predicate Enumerates(e: seq<Batch>, m: map<string, seq<string>>) {
    && |e| == |m|
    && (forall i | 0 <= i < |e| :: e[i].hypertable in m && e[i].rows == m[e[i].hypertable])
    && (forall i, j | 0 <= i < j < |e| :: e[i].hypertable != e[j].hypertable)
  }

  /** `groups[j]` is what the j-th flush sends: the batches of the
      accumulator of `chunks[j]`, in some order. */
  ghost predicate Flushes(groups: seq<seq<Batch>>, chunks: seq<seq<Record>>) {
    && |groups| == |chunks|
    && forall j {:trigger groups[j], chunks[j]} | 0 <= j < |groups| :: Enumerates(groups[j], Grouped(chunks[j]))
  }

  /** `bs` is what the flushes of the successive `chunks` send, flush after
      flush. */
  ghost predicate Arranged(bs: seq<Batch>, chunks: seq<seq<Record>>) {
    exists groups :: Flushes(groups, chunks) && bs == Flatten(groups)
  }

  // ---------------------------------------------------------------------
  // Chunks: where the flushes fall

  /** The number of lines between flushes: `n >= itemsPerBatch` first holds
      after `itemsPerBatch` lines, or after every line when it is not
      positive. */
  function BatchLimit(itemsPerBatch: int): nat
  {
    if itemsPerBatch >= 1 then itemsPerBatch else 1
  }

  /** `s` cut into consecutive pieces of `size`, the last one possibly
      shorter but never empty. */
  function Chunks<T>(s: seq<T>, size: nat): seq<seq<T>>
    requires size >= 1
    decreases |s|
  {
    if s == [] then []
    else if |s| <= size then [s]
    else [s[..size]] + Chunks(s[size..], size)
  }

  function Flatten<T>(ss: seq<seq<T>>): seq<T>
  {
    if ss == [] then [] else ss[0] + Flatten(ss[1..])
  }

  /** `len` is a whole number of `size`s. */
  predicate IsMultiple(len: nat, size: nat)
    requires size >= 1
    decreases len
  {
    len == 0 || (len >= size && IsMultiple(len - size, size))
  }

  /** After full chunks, one more non-empty chunk is just appended. */
  lemma {:induction false} ChunksAppend<T>(s: seq<T>, t: seq<T>, size: nat)
    requires size >= 1 && IsMultiple(|s|, size) && 0 < |t| <= size
    ensures Chunks(s + t, size) == Chunks(s, size) + [t]
    decreases |s|
  {
    if s == [] {
      assert s + t == t;
    } else {
      var st := s + t;
      assert st[..size] == s[..size];
      assert st[size..] == s[size..] + t;
      assert Chunks(st, size) == [s[..size]] + Chunks(s[size..] + t, size);
      ChunksAppend(s[size..], t, size);
      if |s| == size {
        assert s[size..] == [];
        assert s[size..] + t == t;
        assert Chunks(s, size) == [s];
        assert s[..size] == s;
      } else {
        assert Chunks(s, size) == [s[..size]] + Chunks(s[size..], size);
      }
    }
  }

  /** The chunks are the input cut up: nothing lost, nothing repeated, every
      chunk non-empty and at most `size` long, every chunk but the last
      exactly `size` long. */
  lemma {:induction false} ChunksShape<T>(s: seq<T>, size: nat)
    requires size >= 1
    ensures Flatten(Chunks(s, size)) == s
    ensures forall j | 0 <= j < |Chunks(s, size)| :: 0 < |Chunks(s, size)[j]| <= size
    ensures forall j | 0 <= j < |Chunks(s, size)| - 1 :: |Chunks(s, size)[j]| == size
    decreases |s|
  {
    if |s| > size {
      ChunksShape(s[size..], size);
      var cs := Chunks(s, size);
      assert cs[1..] == Chunks(s[size..], size);
      assert s == s[..size] + s[size..];
    }
  }

  // ---------------------------------------------------------------------
  // Facts about records

  lemma {:induction false} RestsAppend(a: seq<Record>, b: seq<Record>, h: string)
    ensures Rests(a + b, h) == Rests(a, h) + Rests(b, h)
    decreases |a|
  {
    if a != [] {
      assert (a + b)[1..] == a[1..] + b;
      RestsAppend(a[1..], b, h);
    } else {
      assert a + b == b;
    }
  }

  lemma {:induction false} RestsEmpty(rs: seq<Record>, h: string)
    ensures Rests(rs, h) == [] <==> h !in KeysOf(rs)
    ensures |Rests(rs, h)| <= |rs|
    decreases |rs|
  {
    if rs != [] {
      RestsEmpty(rs[1..], h);
    }
  }

  /** Adding a record to the accumulator appends its row to its hypertable's
      entry, creating the entry when it is missing. */
  lemma AccumulateSnoc(rs: seq<Record>, r: Record)
    ensures Accumulate(rs + [r]) ==
      Accumulate(rs)[r.hypertable := (if r.hypertable in Accumulate(rs) then Accumulate(rs)[r.hypertable] else []) + [r.row]]
  {
    assert (rs + [r])[..|rs|] == rs;
  }

  lemma AccumulateEmpty()
    ensures Accumulate([]) == map[]
  {
  }

  /** The accumulator holds exactly the hypertables the records name, each
      with its rows in input order. */
  lemma AccumulateGrouped(rs: seq<Record>)
    ensures Accumulate(rs) == Grouped(rs)
  {
    AccumulateMeaning(rs);
  }

  lemma {:induction false} KeysOfAppend(a: seq<Record>, b: seq<Record>)
    ensures KeysOf(a + b) == KeysOf(a) + KeysOf(b)
    decreases |a|
  {
    if a != [] {
      assert (a + b)[1..] == a[1..] + b;
      KeysOfAppend(a[1..], b);
    } else {
      assert a + b == b;
    }
  }

  lemma {:induction false} AccumulateMeaning(rs: seq<Record>)
    ensures Accumulate(rs).Keys == KeysOf(rs)
    ensures forall h | h in Accumulate(rs) :: Accumulate(rs)[h] == Rests(rs, h)
    decreases |rs|
  {
    if rs != [] {
      var init := rs[..|rs| - 1];
      var r := rs[|rs| - 1];
      assert rs == init + [r];
      AccumulateMeaning(init);
      KeysOfAppend(init, [r]);
      assert KeysOf([r]) == {r.hypertable} by {
        assert [r][1..] == [];
      }
      forall h | h in Accumulate(rs)
        ensures Accumulate(rs)[h] == Rests(rs, h)
      {
        RestsAppend(init, [r], h);
        assert Rests([r], h) == if r.hypertable == h then [r.row] else [] by {
          assert [r][1..] == [];
        }
        RestsEmpty(init, h);
      }
    }
  }

  /** Every entry of an accumulator is non-empty and no longer than the
      records that built it. */
  lemma GroupedEntries(rs: seq<Record>)
    ensures forall h | h in Grouped(rs) :: 0 < |Grouped(rs)[h]| <= |rs|
  {
    forall h | h in Grouped(rs) ensures 0 < |Grouped(rs)[h]| <= |rs| {
      RestsEmpty(rs, h);
    }
  }

  // ---------------------------------------------------------------------
  // Sums over the records of a set of hypertables

  /** Sum of `w` over the rows of the records bound for a hypertable in `K`. */
  function WeightIn(rs: seq<Record>, K: set<string>, w: string -> nat): nat
  {
    if rs == [] then 0
    else (if rs[0].hypertable in K then w(rs[0].row) else 0) + WeightIn(rs[1..], K, w)
  }

  lemma {:induction false} WeightAppend(a: seq<string>, b: seq<string>, w: string -> nat)
    ensures Weight(a + b, w) == Weight(a, w) + Weight(b, w)
    decreases |a|
  {
    if a != [] {
      assert (a + b)[1..] == a[1..] + b;
      WeightAppend(a[1..], b, w);
    } else {
      assert a + b == b;
    }
  }

  lemma {:induction false} WeightInSplit(rs: seq<Record>, K: set<string>, h: string, w: string -> nat)
    requires h in K
    ensures WeightIn(rs, K, w) == Weight(Rests(rs, h), w) + WeightIn(rs, K - {h}, w)
    decreases |rs|
  {
    if rs != [] {
      WeightInSplit(rs[1..], K, h, w);
      WeightAppend(if rs[0].hypertable == h then [rs[0].row] else [], Rests(rs[1..], h), w);
      assert Weight([rs[0].row], w) == w(rs[0].row) by {
        assert [rs[0].row][1..] == [];
      }
    }
  }

  lemma {:induction false} WeightInNone(rs: seq<Record>, w: string -> nat)
    ensures WeightIn(rs, {}, w) == 0
    decreases |rs|
  {
    if rs != [] {
      WeightInNone(rs[1..], w);
    }
  }

  lemma {:induction false} WeightInAll(rs: seq<Record>, K: set<string>, w: string -> nat)
    requires KeysOf(rs) <= K
    ensures WeightIn(rs, K, w) == Weight(RowsOf(rs), w)
    decreases |rs|
  {
    if rs != [] {
      WeightInAll(rs[1..], K, w);
    }
  }

  // ---------------------------------------------------------------------
  // One flush

  /** `e` sends, once each and with all their rows, exactly the hypertables
      of `K` among those of the records `rs`. */
  ghost predicate Covers(e: seq<Batch>, rs: seq<Record>, K: set<string>) {
    && (forall i | 0 <= i < |e| :: e[i].hypertable in K && e[i].rows == Rests(rs, e[i].hypertable))
    && (forall i, j | 0 <= i < j < |e| :: e[i].hypertable != e[j].hypertable)
    && (forall h | h in K :: exists i | 0 <= i < |e| :: e[i].hypertable == h)
  }

  lemma CoversTail(e: seq<Batch>, rs: seq<Record>, K: set<string>)
    requires Covers(e, rs, K) && e != []
    ensures Covers(e[1..], rs, K - {e[0].hypertable})
  {
    var h0 := e[0].hypertable;
    forall h | h in K - {h0}
      ensures exists i | 0 <= i < |e[1..]| :: e[1..][i].hypertable == h
    {
      var i :| 0 <= i < |e| && e[i].hypertable == h;
      assert i != 0;
      assert e[1..][i - 1].hypertable == h;
    }
  }

  lemma {:induction false} CoversWeight(e: seq<Batch>, rs: seq<Record>, K: set<string>, w: string -> nat)
    requires Covers(e, rs, K)
    ensures BatchesWeight(e, w) == WeightIn(rs, K, w)
    decreases |e|
  {
    if e == [] {
      assert K == {};
      WeightInNone(rs, w);
    } else {
      CoversTail(e, rs, K);
      CoversWeight(e[1..], rs, K - {e[0].hypertable}, w);
      WeightInSplit(rs, K, e[0].hypertable, w);
    }
  }

  lemma {:induction false} CoversRowsFor(e: seq<Batch>, rs: seq<Record>, K: set<string>, h: string)
    requires Covers(e, rs, K)
    ensures RowsFor(e, h) == if h in K then Rests(rs, h) else []
    decreases |e|
  {
    if e != [] {
      CoversTail(e, rs, K);
      CoversRowsFor(e[1..], rs, K - {e[0].hypertable}, h);
      if e[0].hypertable == h {
        RestsEmpty(rs, h);
      }
    }
  }

  /** Distinct hypertables from `K`, as many as `K` has, name all of `K`. */
  lemma {:induction false} DistinctCover(e: seq<Batch>, K: set<string>)
    requires |e| == |K|
    requires forall i | 0 <= i < |e| :: e[i].hypertable in K
    requires forall i, j | 0 <= i < j < |e| :: e[i].hypertable != e[j].hypertable
    ensures forall h | h in K :: exists i | 0 <= i < |e| :: e[i].hypertable == h
    decreases |e|
  {
    if e != [] {
      var h0 := e[0].hypertable;
      var tail := e[1..];
      forall i | 0 <= i < |tail| ensures tail[i].hypertable in K - {h0} {
        assert tail[i] == e[i + 1];
      }
      DistinctCover(tail, K - {h0});
      forall h | h in K ensures exists i | 0 <= i < |e| :: e[i].hypertable == h {
        if h != h0 {
          assert h in K - {h0};
          var i :| 0 <= i < |tail| && tail[i].hypertable == h;
          assert e[i + 1].hypertable == h;
        }
      }
    }
  }

  /** A flush sends every entry of the accumulator. */
  lemma EnumeratesAll(e: seq<Batch>, m: map<string, seq<string>>)
    requires Enumerates(e, m)
    ensures forall h | h in m :: exists i | 0 <= i < |e| :: e[i].hypertable == h
  {
    DistinctCover(e, m.Keys);
  }

  lemma EnumeratesCovers(e: seq<Batch>, rs: seq<Record>)
    requires Enumerates(e, Grouped(rs))
    ensures Covers(e, rs, KeysOf(rs))
  {
    EnumeratesAll(e, Grouped(rs));
    forall h | h in KeysOf(rs)
      ensures exists i | 0 <= i < |e| :: e[i].hypertable == h
    {
      assert h in Grouped(rs);
    }
  }

  // ---------------------------------------------------------------------
  // Concatenation of flushes

  lemma {:induction false} RowsForAppend(a: seq<Batch>, b: seq<Batch>, h: string)
    ensures RowsFor(a + b, h) == RowsFor(a, h) + RowsFor(b, h)
    decreases |a|
  {
    if a != [] {
      assert (a + b)[1..] == a[1..] + b;
      RowsForAppend(a[1..], b, h);
    } else {
      assert a + b == b;
    }
  }

  lemma {:induction false} BatchesWeightAppend(a: seq<Batch>, b: seq<Batch>, w: string -> nat)
    ensures BatchesWeight(a + b, w) == BatchesWeight(a, w) + BatchesWeight(b, w)
    decreases |a|
  {
    if a != [] {
      assert (a + b)[1..] == a[1..] + b;
      BatchesWeightAppend(a[1..], b, w);
    } else {
      assert a + b == b;
    }
  }

  lemma {:induction false} RowsOfAppend(a: seq<Record>, b: seq<Record>)
    ensures RowsOf(a + b) == RowsOf(a) + RowsOf(b)
    decreases |a|
  {
    if a != [] {
      assert (a + b)[1..] == a[1..] + b;
      RowsOfAppend(a[1..], b);
    } else {
      assert a + b == b;
    }
  }

  lemma {:induction false} FlattenAppend<T>(a: seq<seq<T>>, b: seq<seq<T>>)
    ensures Flatten(a + b) == Flatten(a) + Flatten(b)
    decreases |a|
  {
    if a != [] {
      assert (a + b)[1..] == a[1..] + b;
      FlattenAppend(a[1..], b);
    } else {
      assert a + b == b;
    }
  }

  /** One more flush extends the log of flushes by one chunk. */
  lemma FlushesAppend(groups: seq<seq<Batch>>, chunks: seq<seq<Record>>, e: seq<Batch>, c: seq<Record>)
    requires Flushes(groups, chunks)
    requires Enumerates(e, Grouped(c))
    ensures Flushes(groups + [e], chunks + [c])
    ensures Flatten(groups + [e]) == Flatten(groups) + e
  {
    forall j | 0 <= j < |groups| + 1 ensures Enumerates((groups + [e])[j], Grouped((chunks + [c])[j])) {
      if j < |groups| {
        assert (groups + [e])[j] == groups[j] && (chunks + [c])[j] == chunks[j];
      }
    }
    FlattenAppend(groups, [e]);
    assert Flatten([e]) == e by {
      assert [e][1..] == [];
      assert e + [] == e;
    }
  }

  lemma FlushesTail(groups: seq<seq<Batch>>, chunks: seq<seq<Record>>)
    requires Flushes(groups, chunks) && groups != []
    ensures Flushes(groups[1..], chunks[1..])
  {
    forall j | 0 <= j < |groups| - 1 ensures Enumerates(groups[1..][j], Grouped(chunks[1..][j])) {
      assert groups[1..][j] == groups[j + 1] && chunks[1..][j] == chunks[j + 1];
    }
  }

  /** What the flushes of `chunks` send for one hypertable is its rows in
      input order. */
  lemma {:induction false} FlushesRowsFor(groups: seq<seq<Batch>>, chunks: seq<seq<Record>>, h: string)
    requires Flushes(groups, chunks)
    ensures RowsFor(Flatten(groups), h) == Rests(Flatten(chunks), h)
    decreases |groups|
  {
    if groups != [] {
      var e, c := groups[0], chunks[0];
      FlushesTail(groups, chunks);
      FlushesRowsFor(groups[1..], chunks[1..], h);
      EnumeratesCovers(e, c);
      CoversRowsFor(e, c, KeysOf(c), h);
      RestsEmpty(c, h);
      RowsForAppend(e, Flatten(groups[1..]), h);
      RestsAppend(c, Flatten(chunks[1..]), h);
    }
  }

  /** Any per-row weight summed over what the flushes of `chunks` send is its
      sum over the rows of `chunks`. */
  lemma {:induction false} FlushesWeight(groups: seq<seq<Batch>>, chunks: seq<seq<Record>>, w: string -> nat)
    requires Flushes(groups, chunks)
    ensures BatchesWeight(Flatten(groups), w) == Weight(RowsOf(Flatten(chunks)), w)
    decreases |groups|
  {
    if groups != [] {
      var e, c := groups[0], chunks[0];
      FlushesTail(groups, chunks);
      FlushesWeight(groups[1..], chunks[1..], w);
      EnumeratesCovers(e, c);
      CoversWeight(e, c, KeysOf(c), w);
      WeightInAll(c, KeysOf(c), w);
      BatchesWeightAppend(e, Flatten(groups[1..]), w);
      RowsOfAppend(c, Flatten(chunks[1..]));
      WeightAppend(RowsOf(c), RowsOf(Flatten(chunks[1..])), w);
    }
  }

  /** Every batch sent is non-empty and no longer than the chunk it was cut
      from. */
  lemma {:induction false} FlushesBatchSizes(groups: seq<seq<Batch>>, chunks: seq<seq<Record>>, bound: nat)
    requires Flushes(groups, chunks)
    requires forall j | 0 <= j < |chunks| :: |chunks[j]| <= bound
    ensures forall i | 0 <= i < |Flatten(groups)| :: 0 < |Flatten(groups)[i].rows| <= bound
    decreases |groups|
  {
    if groups != [] {
      var e := groups[0];
      FlushesTail(groups, chunks);
      FlushesBatchSizes(groups[1..], chunks[1..], bound);
      GroupedEntries(chunks[0]);
      var bs := Flatten(groups);
      var rest := Flatten(groups[1..]);
      assert bs == e + rest;
      forall i | 0 <= i < |bs| ensures 0 < |bs[i].rows| <= bound {
        if i < |e| {
          assert bs[i] == e[i];
        } else {
          assert bs[i] == rest[i - |e|];
        }
      }
    }
  }

  /** A one-record chunk is flushed as the one batch holding its row. */
  lemma SingleFlush(e: seq<Batch>, r: Record)
    requires Enumerates(e, Grouped([r]))
    ensures e == [Batch(r.hypertable, [r.row])]
  {
    assert [r][1..] == [];
    assert KeysOf([r]) == {r.hypertable};
    assert Rests([r], r.hypertable) == [r.row];
    assert Grouped([r]) == map[r.hypertable := [r.row]];
  }

  /** The batches for one-line chunks, one per record. */
  function Singles(rs: seq<Record>): seq<Batch>
  {
    if rs == [] then [] else [Batch(rs[0].hypertable, [rs[0].row])] + Singles(rs[1..])
  }

  lemma {:induction false} FlushesSingles(groups: seq<seq<Batch>>, rs: seq<Record>)
    requires Flushes(groups, Chunks(rs, 1))
    ensures Flatten(groups) == Singles(rs)
    decreases |rs|
  {
    if rs != [] {
      var cs := Chunks(rs, 1);
      if |rs| == 1 {
        assert cs == [rs];
        assert rs == [rs[0]];
      } else {
        assert cs == [rs[..1]] + Chunks(rs[1..], 1);
        assert cs[1..] == Chunks(rs[1..], 1);
      }
      assert cs[0] == [rs[0]];
      SingleFlush(groups[0], rs[0]);
      FlushesTail(groups, cs);
      FlushesSingles(groups[1..], rs[1..]);
    }
  }

  /** Any per-row weight summed over the batches the reader sends equals its
      sum over the rows it read: no row is lost or sent twice. */
  lemma ScanWeight(bs: seq<Batch>, rs: seq<Record>, itemsPerBatch: int, w: string -> nat)
    requires Arranged(bs, Chunks(rs, BatchLimit(itemsPerBatch)))
    ensures BatchesWeight(bs, w) == Weight(RowsOf(rs), w)
  {
    var cs := Chunks(rs, BatchLimit(itemsPerBatch));
    var groups :| Flushes(groups, cs) && bs == Flatten(groups);
    ChunksShape(rs, BatchLimit(itemsPerBatch));
    FlushesWeight(groups, cs, w);
  }

  /** What the reader guarantees of the batches it sends for the records `rs`
      with batch size `itemsPerBatch`. */
  lemma ScanGuarantees(bs: seq<Batch>, rs: seq<Record>, itemsPerBatch: int)
    requires Arranged(bs, Chunks(rs, BatchLimit(itemsPerBatch)))
    ensures forall h :: RowsFor(bs, h) == Rests(rs, h)
    ensures TotalRows(bs) == |rs|
    ensures forall i | 0 <= i < |bs| :: 0 < |bs[i].rows| <= BatchLimit(itemsPerBatch)
    ensures itemsPerBatch <= 1 ==> bs == Singles(rs)
  {
    var size := BatchLimit(itemsPerBatch);
    var cs := Chunks(rs, size);
    var groups :| Flushes(groups, cs) && bs == Flatten(groups);
    ChunksShape(rs, size);
    forall h ensures RowsFor(bs, h) == Rests(rs, h) {
      FlushesRowsFor(groups, cs, h);
    }
    FlushesWeight(groups, cs, One);
    TotalRowsWeight(bs);
    RowsOfWeight(rs);
    FlushesBatchSizes(groups, cs, size);
    if itemsPerBatch <= 1 {
      FlushesSingles(groups, rs);
    }
  }

  lemma {:induction false} CountWeight(rows: seq<string>)
    ensures Weight(rows, One) == |rows|
    decreases |rows|
  {
    if rows != [] {
      CountWeight(rows[1..]);
    }
  }

  lemma {:induction false} TotalRowsWeight(bs: seq<Batch>)
    ensures TotalRows(bs) == BatchesWeight(bs, One)
    decreases |bs|
  {
    if bs != [] {
      CountWeight(bs[0].rows);
      TotalRowsWeight(bs[1..]);
    }
  }

  lemma {:induction false} RowsOfWeight(rs: seq<Record>)
    ensures |RowsOf(rs)| == |rs|
    ensures Weight(RowsOf(rs), One) == |rs|
    decreases |rs|
  {
    if rs != [] {
      RowsOfWeight(rs[1..]);
    }
    CountWeight(RowsOf(rs));
  }

  // ---------------------------------------------------------------------
  // The reader

  /** A flush of the pending records after full chunks sends one more chunk. */
  lemma FlushStep(groups: seq<seq<Batch>>, flushed: seq<Record>, pending: seq<Record>, size: nat, group: seq<Batch>)
    requires size >= 1 && IsMultiple(|flushed|, size) && 0 < |pending| <= size
    requires Flushes(groups, Chunks(flushed, size))
    requires Enumerates(group, Grouped(pending))
    ensures Flushes(groups + [group], Chunks(flushed + pending, size))
    ensures Flatten(groups + [group]) == Flatten(groups) + group
    ensures |pending| == size ==> IsMultiple(|flushed + pending|, size)
  {
    ChunksAppend(flushed, pending, size);
    FlushesAppend(groups, Chunks(flushed, size), group, pending);
    if |pending| == size {
      assert |flushed + pending| - size == |flushed|;
    }
  }

  /** The records are determined by the lines. */
  lemma RecordsUnique(lines: seq<string>, rs: seq<Record>)
    requires |rs| == |lines|
    requires forall k | 0 <= k < |lines| :: ParseLine(lines[k]) == Some(rs[k])
    ensures AllHaveComma(lines) && Records(lines) == rs
  {
    forall k | 0 <= k < |lines| ensures Records(lines)[k] == rs[k] {
      RecordsMeaning(lines, k);
    }
  }

  /** One flush, `for hypertable, rows := range batch`: every entry of the
      accumulator is sent as one batch, in an order the model leaves open. */
  method Flush(batch: map<string, seq<string>>) returns (sent: seq<Batch>)
    ensures Enumerates(sent, batch)
  {
    var pending := batch;
    sent := [];
    while pending != map[]
      invariant |sent| + |pending| == |batch|
      invariant forall h | h in pending :: h in batch && pending[h] == batch[h]
      invariant forall i | 0 <= i < |sent| ::
        && sent[i].hypertable in batch
        && sent[i].hypertable !in pending
        && sent[i].rows == batch[sent[i].hypertable]
      invariant forall i, j | 0 <= i < j < |sent| :: sent[i].hypertable != sent[j].hypertable
      decreases |pending|
    {
      var hypertable :| hypertable in pending;
      sent := sent + [Batch(hypertable, pending[hypertable])];
      pending := pending - {hypertable};
    }
  }

  /** The state of `scan` between two lines: the per-hypertable accumulator
      `batch`, the cross-hypertable count `n`, the number of lines read, and
      everything sent on the batch channel so far. */
  class Reader {
    const itemsPerBatch: int
    var batch: map<string, seq<string>>
    var n: int
    var linesRead: nat
    var sent: seq<Batch>
    /** The records already flushed, in full chunks, and those still in
        `batch`; what each flush sent. */
    ghost var flushed: seq<Record>
    ghost var pending: seq<Record>
    ghost var groups: seq<seq<Batch>>

    /** Between lines: the accumulator holds the pending records, fewer than
        a batch, and everything flushed so far went out in full chunks. */
    ghost predicate Valid()
      reads this
    {
      Holding() && n < BatchLimit(itemsPerBatch) && IsMultiple(|flushed|, BatchLimit(itemsPerBatch))
    }

    /** The accumulator holds the pending records, at most a batch of them,
        and what was sent is the flushes of the chunks of `flushed`. */
    ghost predicate Holding()
      reads this
    {
      var size := BatchLimit(itemsPerBatch);
      && 0 <= n <= size
      && |pending| == n
      && linesRead == |flushed| + n
      && batch == Accumulate(pending)
      && Flushes(groups, Chunks(flushed, size))
      && sent == Flatten(groups)
    }

    /** The records of all lines read so far. */
    ghost function Read(): seq<Record>
      reads this
    {
      flushed + pending
    }

    constructor (itemsPerBatch: int)
      ensures Valid() && this.itemsPerBatch == itemsPerBatch
      ensures linesRead == 0 && sent == [] && Read() == []
    {
      this.itemsPerBatch := itemsPerBatch;
      batch := map[];
      n := 0;
      linesRead := 0;
      sent := [];
      flushed, pending, groups := [], [], [];
    }

    /** One pass of scan's loop: count the line, split it at its first comma
        (failing when it has none), append the row to its hypertable's
        entry, and flush everything once `n` reaches `itemsPerBatch`. */
    method ReadLine(line: string) returns (ok: bool)
      requires Valid()
      modifies this
      ensures ok <==> ',' in line
      ensures linesRead == old(linesRead) + 1
      ensures ok ==> Valid() && Read() == old(Read()) + [ParseLine(line).value]
      ensures !ok ==> batch == old(batch) && n == old(n) && sent == old(sent) && Read() == old(Read())
      ensures old(sent) <= sent
    {
      var parts := SplitFirst(line, ',');
      if |parts| < 2 {
        linesRead := linesRead + 1;
        return false;
      }
      assert ParseLine(line) == Some(Record(parts[0], parts[1]));
      Append(parts[0], parts[1]);
      if n >= itemsPerBatch {
        FlushBatch();
      }
      ok := true;
    }

    /** `batch[hypertable] = append(batch[hypertable], row)` and `n++`, with
        the line counted. */
    method Append(hypertable: string, row: string)
      requires Valid()
      modifies this
      ensures Holding() && IsMultiple(|flushed|, BatchLimit(itemsPerBatch)) && 0 < n
      ensures n == old(n) + 1 && linesRead == old(linesRead) + 1
      ensures Read() == old(Read()) + [Record(hypertable, row)]
      ensures n >= itemsPerBatch <==> n == BatchLimit(itemsPerBatch)
      ensures n < BatchLimit(itemsPerBatch) ==> Valid()
      ensures sent == old(sent) && groups == old(groups)
    {
      ghost var rec := Record(hypertable, row);
      AccumulateSnoc(pending, rec);
      linesRead := linesRead + 1;
      batch := batch[hypertable := (if hypertable in batch then batch[hypertable] else []) + [row]];
      pending := pending + [rec];
      n := n + 1;
      assert Read() == old(Read()) + [rec];
    }

    /** `for hypertable, rows := range batch { ... }` followed by emptying the
        accumulator: the pending records go out as one more chunk. */
    method FlushBatch()
      requires Holding() && n > 0 && IsMultiple(|flushed|, BatchLimit(itemsPerBatch))
      modifies this
      ensures n == 0 && batch == map[] && linesRead == old(linesRead)
      ensures flushed == old(Read()) && pending == [] && Read() == old(Read())
      ensures Flushes(groups, Chunks(old(Read()), BatchLimit(itemsPerBatch))) && sent == Flatten(groups)
      ensures old(n) == BatchLimit(itemsPerBatch) ==> Valid()
      ensures old(sent) <= sent && Enumerates(sent[|old(sent)|..], old(batch))
    {
      ghost var size := BatchLimit(itemsPerBatch);
      ghost var all := flushed + pending;
      AccumulateGrouped(pending);
      var group := Flush(batch);
      FlushStep(groups, flushed, pending, size, group);
      sent := sent + group;
      groups := groups + [group];
      batch := map[];
      n := 0;
      flushed, pending := all, [];
      AccumulateEmpty();
      assert Read() == all;
    }

    /** End of input: flush what is left when `n > 0`. */
    method Finish()
      requires Valid()
      modifies this
      ensures linesRead == old(linesRead)
      ensures Flushes(groups, Chunks(old(Read()), BatchLimit(itemsPerBatch))) && sent == Flatten(groups)
      ensures old(sent) <= sent
    {
      if n > 0 {
        FlushBatch();
      } else {
        assert Read() == flushed;
      }
    }
  }

  /** `scan`: reads every line, fails on the first one without a comma, and
      otherwise returns the batches it sent and the number of lines read. */
  method Scan(itemsPerBatch: int, lines: seq<string>) returns (r: Result<Scanned, ScanError>)
    ensures r.Failure? <==> !AllHaveComma(lines)
    ensures r.Failure? ==>
      var k := r.error.line; k < |lines| && ',' !in lines[k] && AllHaveComma(lines[..k])
    ensures r.Success? ==> AllHaveComma(lines) && r.value.linesRead == |lines|
    ensures r.Success? ==> Arranged(r.value.batches, Chunks(Records(lines), BatchLimit(itemsPerBatch)))
    ensures r.Success? ==> forall h :: RowsFor(r.value.batches, h) == Rests(Records(lines), h)
    ensures r.Success? ==> TotalRows(r.value.batches) == r.value.linesRead
    ensures r.Success? ==>
      forall i | 0 <= i < |r.value.batches| :: 0 < |r.value.batches[i].rows| <= BatchLimit(itemsPerBatch)
    ensures r.Success? && itemsPerBatch <= 1 ==> r.value.batches == Singles(Records(lines))
  {
    var reader := new Reader(itemsPerBatch);
    ghost var recs: seq<Record> := [];
    while reader.linesRead < |lines|
      invariant reader.Valid() && reader.itemsPerBatch == itemsPerBatch
      invariant recs == reader.Read() && reader.linesRead == |recs| <= |lines|
      invariant forall k | 0 <= k < |recs| :: ParseLine(lines[k]) == Some(recs[k])
    {
      var line := lines[reader.linesRead];
      var ok := reader.ReadLine(line);
      if !ok {
        AllParsed(lines, |recs|, recs);
        return Failure(MissingComma(reader.linesRead - 1));
      }
      ghost var rec := ParseLine(line).value;
      assert Some(rec) == ParseLine(lines[|recs|]);
      ghost var prev := recs;
      recs := recs + [rec];
      forall k | 0 <= k < |recs| ensures ParseLine(lines[k]) == Some(recs[k]) {
        if k < |prev| {
          assert recs[k] == prev[k];
        } else {
          assert k == |prev| && recs[k] == rec;
        }
      }
    }
    RecordsUnique(lines, recs);
    reader.Finish();
    assert Arranged(reader.sent, Chunks(recs, BatchLimit(itemsPerBatch))) by {
      assert Flushes(reader.groups, Chunks(recs, BatchLimit(itemsPerBatch)));
    }
    ScanGuarantees(reader.sent, recs, itemsPerBatch);
    r := Success(Scanned(reader.sent, reader.linesRead));
  }

  /** Lines that parsed all have a comma. */
  lemma AllParsed(lines: seq<string>, k: nat, rs: seq<Record>)
    requires k <= |lines| && k <= |rs|
    requires forall j | 0 <= j < k :: ParseLine(lines[j]) == Some(rs[j])
    ensures AllHaveComma(lines[..k])
  {
  }
}
