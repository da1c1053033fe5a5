/** The schema set-up of the loader (`initBenchmarkDB`) and the header skip
    in `main`: the input starts with one header line per hypertable,
    `name,field,field,...`, ended by an empty line. With loading enabled each
    header line becomes a CREATE TABLE statement, CREATE INDEX statements
    and, optionally, a create_hypertable call; otherwise the header is only
    skipped. Statements are modelled as the SQL text that would be executed,
    in execution order. */
module Schema {
  import opened Results
  import opened GoStrings
  import opened Strconv

  /** The options that shape the schema (`-make-hypertable`, `-tag-index`,
      `-field-index`, `-field-index-count`, `-number_partitions`). */
  datatype Config = Config(
    makeHypertable: bool,
    tagIndex: string,
    fieldIndex: string,
    fieldIndexCount: int,
    numberPartitions: int)

  /** The defaults the flags declare. */
  const Defaults: Config := Config(true, "VALUE-TIME,TIME-VALUE", "TIME-VALUE", -1, 1)

  /** The fatal configuration error: an index policy names an unknown type. */
  datatype SchemaError = UnknownIndexType(token: string)

  const TextType: string := "TEXT"
  const DoubleType: string := "DOUBLE PRECISION"

  /** A column definition `name type`. */
  datatype Column = Column(name: string, sqlType: string)

  /** What one header line describes. */
  datatype Table = Table(name: string, partitioningField: string, columns: seq<Column>, indexes: seq<string>)

  /** What the schema phase did: the statements executed, the tables
      described, and how many input lines it consumed. */
  datatype Init = Init(statements: seq<string>, tables: seq<Table>, next: nat)

  // ---------------------------------------------------------------------
  // One field

  predicate KnownToken(token: string) {
    token == "" || token == "TIME-VALUE" || token == "VALUE-TIME"
  }

  /** The index definition one token of an index policy asks for on `field`:
      none for an empty token, a failure for an unknown one. */
  function IndexDef(token: string, field: string): (r: Result<Option<string>, SchemaError>)
    ensures r.Failure? <==> !KnownToken(token)
    ensures r.Failure? ==> r.error == UnknownIndexType(token)
    ensures r.Success? ==> (r.value.None? <==> token == "")
    ensures token == "TIME-VALUE" ==> r == Success(Some("(time, " + field + ")"))
    ensures token == "VALUE-TIME" ==> r == Success(Some("(" + field + ",time)"))
  {
    if token == "TIME-VALUE" then Success(Some("(time, " + field + ")"))
    else if token == "VALUE-TIME" then Success(Some("(" + field + ",time)"))
    else if token != "" then Failure(UnknownIndexType(token))
    else Success(None)
  }

  function IndexSql(table: string, def: string): string {
    "CREATE INDEX ON " + table + " " + def
  }

  /** The index statements of the first `k` tokens of a policy, failing at
      the first unknown token. */
  function TokensUpTo(table: string, field: string, tokens: seq<string>, k: nat): Result<seq<string>, SchemaError>
    requires k <= |tokens|
  {
    if k == 0 then Success([])
    else
      var init :- TokensUpTo(table, field, tokens, k - 1);
      var d :- IndexDef(tokens[k - 1], field);
      Success(init + (if d.Some? then [IndexSql(table, d.value)] else []))
  }

  /** The index policy of the field at position `idx`: the tag policy for the
      first field, the field policy for the others. */
  function Policy(cfg: Config, idx: nat): string {
    if idx == 0 then cfg.tagIndex else cfg.fieldIndex
  }

  function TypeAt(idx: nat): string {
    if idx == 0 then TextType else DoubleType
  }

  /** `fieldIndexCount == -1 || idx <= fieldIndexCount`. */
  predicate Indexed(cfg: Config, idx: nat) {
    cfg.fieldIndexCount == -1 || idx <= cfg.fieldIndexCount
  }

  /** The index statements for the field at position `idx`. */
  function FieldIndexes(cfg: Config, table: string, idx: nat, field: string): Result<seq<string>, SchemaError>
  {
    if Indexed(cfg, idx) then
      var tokens := Split(Policy(cfg, idx), ',');
      TokensUpTo(table, field, tokens, |tokens|)
    else Success([])
  }

  // ---------------------------------------------------------------------
  // One header line

  /** The columns of the first `j` fields: empty fields are skipped but keep
      their position. */
  function ColumnsUpTo(fields: seq<string>, j: nat): seq<Column>
    requires j <= |fields|
  {
    if j == 0 then []
    else ColumnsUpTo(fields, j - 1) + (if fields[j - 1] == "" then [] else [Column(fields[j - 1], TypeAt(j - 1))])
  }

  /** The index statements of the first `j` fields, in field-then-token
      order, failing at the first unknown token. */
  function IndexesUpTo(cfg: Config, table: string, fields: seq<string>, j: nat): Result<seq<string>, SchemaError>
    requires j <= |fields|
  {
    if j == 0 then Success([])
    else
      var init :- IndexesUpTo(cfg, table, fields, j - 1);
      if fields[j - 1] == "" then Success(init)
      else
        var mine :- FieldIndexes(cfg, table, j - 1, fields[j - 1]);
        Success(init + mine)
  }

  /** The partitioning field: the first field, when it is not empty. */
  function Partitioning(fields: seq<string>): string {
    if |fields| > 0 && fields[0] != "" then fields[0] else ""
  }

  /** The table a header line describes. */
  function Describe(cfg: Config, line: string): Result<Table, SchemaError>
  {
    var parts := Split(line, ',');
    TableOf(cfg, parts[0], parts[1..])
  }

  /** The table named `name` with the fields `fields`. */
  function TableOf(cfg: Config, name: string, fields: seq<string>): Result<Table, SchemaError>
  {
    var indexes :- IndexesUpTo(cfg, name, fields, |fields|);
    Success(Table(name, Partitioning(fields), ColumnsUpTo(fields, |fields|), indexes))
  }

  function ColumnSql(c: Column): string {
    c.name + " " + c.sqlType
  }

  function ColumnsSql(cs: seq<Column>): seq<string>
  {
    if cs == [] then [] else [ColumnSql(cs[0])] + ColumnsSql(cs[1..])
  }

  function CreateTableSql(t: Table): string {
    "CREATE TABLE " + t.name + " (time timestamptz, " + Join(ColumnsSql(t.columns), ',') + ")"
  }

  function CreateHypertableSql(cfg: Config, t: Table): string {
    "SELECT create_hypertable('" + t.name + "'::regclass, 'time'::name, partitioning_column => '"
      + t.partitioningField + "'::name, number_partitions => " + FormatInt(cfg.numberPartitions)
      + "::smallint, chunk_time_interval => 28800000000)"
  }

  /** The statements for one table, in execution order. */
  function TableStatements(cfg: Config, t: Table): seq<string> {
    [CreateTableSql(t)] + t.indexes + (if cfg.makeHypertable then [CreateHypertableSql(cfg, t)] else [])
  }

  // ---------------------------------------------------------------------
  // Facts about one header line

  /** Once a policy has failed, its later tokens do not change the outcome. */
  lemma {:induction false} TokensFailurePersists(table: string, field: string, tokens: seq<string>, k: nat, k2: nat)
    requires k <= k2 <= |tokens|
    requires TokensUpTo(table, field, tokens, k).Failure?
    ensures TokensUpTo(table, field, tokens, k2) == TokensUpTo(table, field, tokens, k)
    decreases k2
  {
    if k < k2 {
      TokensFailurePersists(table, field, tokens, k, k2 - 1);
    }
  }

  lemma {:induction false} IndexesFailurePersists(cfg: Config, table: string, fields: seq<string>, j: nat, j2: nat)
    requires j <= j2 <= |fields|
    requires IndexesUpTo(cfg, table, fields, j).Failure?
    ensures IndexesUpTo(cfg, table, fields, j2) == IndexesUpTo(cfg, table, fields, j)
    decreases j2 - j
  {
    if j < j2 {
      IndexesFailStep(cfg, table, fields, j);
      IndexesFailurePersists(cfg, table, fields, j + 1, j2);
    }
  }

  /** A failed header line stays failed one field further. */
  lemma IndexesFailStep(cfg: Config, table: string, fields: seq<string>, j: nat)
    requires j < |fields|
    requires IndexesUpTo(cfg, table, fields, j).Failure?
    ensures IndexesUpTo(cfg, table, fields, j + 1) == IndexesUpTo(cfg, table, fields, j)
  {
  }

  /** The number of non-empty tokens among the first `k`. */
  function NonEmptyTokens(tokens: seq<string>, k: nat): nat
    requires k <= |tokens|
  {
    if k == 0 then 0 else NonEmptyTokens(tokens, k - 1) + (if tokens[k - 1] == "" then 0 else 1)
  }

  /** A policy fails exactly when one of its tokens is unknown, and then with
      the first unknown one; otherwise it gives one index statement per
      non-empty token, each on `table`. */
  lemma {:induction false} TokensMeaning(table: string, field: string, tokens: seq<string>, k: nat)
    requires k <= |tokens|
    ensures TokensUpTo(table, field, tokens, k).Failure? <==> exists i | 0 <= i < k :: !KnownToken(tokens[i])
    ensures TokensUpTo(table, field, tokens, k).Failure? ==>
      exists i | 0 <= i < k ::
        && TokensUpTo(table, field, tokens, k).error == UnknownIndexType(tokens[i])
        && !KnownToken(tokens[i])
        && forall i' | 0 <= i' < i :: KnownToken(tokens[i'])
    ensures TokensUpTo(table, field, tokens, k).Success? ==>
      && |TokensUpTo(table, field, tokens, k).value| == NonEmptyTokens(tokens, k)
      && forall s | s in TokensUpTo(table, field, tokens, k).value ::
           exists d :: s == IndexSql(table, d)
    decreases k
  {
    if k > 0 {
      TokensMeaning(table, field, tokens, k - 1);
      var prev := TokensUpTo(table, field, tokens, k - 1);
      if prev.Success? {
        var t := tokens[k - 1];
        if !KnownToken(t) {
          assert TokensUpTo(table, field, tokens, k).error == UnknownIndexType(t);
        } else {
          var cur := TokensUpTo(table, field, tokens, k).value;
          forall s | s in cur ensures exists d :: s == IndexSql(table, d) {
            if s !in prev.value {
              var d := IndexDef(t, field).value.value;
              assert s == IndexSql(table, d);
            }
          }
        }
      } else {
        var i :| 0 <= i < k - 1 && prev.error == UnknownIndexType(tokens[i]) && !KnownToken(tokens[i])
          && forall i' | 0 <= i' < i :: KnownToken(tokens[i']);
        assert TokensUpTo(table, field, tokens, k) == prev;
      }
    }
  }

  /** A policy all of whose tokens are known. */
  predicate PolicyKnown(policy: string) {
    forall i | 0 <= i < |Split(policy, ',')| :: KnownToken(Split(policy, ',')[i])
  }

  /** A header line fails exactly when a non-empty field whose position is
      indexed has a policy with an unknown token. */
  lemma {:induction false} IndexesMeaning(cfg: Config, table: string, fields: seq<string>, j: nat)
    requires j <= |fields|
    ensures IndexesUpTo(cfg, table, fields, j).Failure? <==>
      exists p | 0 <= p < j :: fields[p] != "" && Indexed(cfg, p) && !PolicyKnown(Policy(cfg, p))
    decreases j
  {
    if j > 0 {
      IndexesMeaning(cfg, table, fields, j - 1);
      var p := j - 1;
      var tokens := Split(Policy(cfg, p), ',');
      TokensMeaning(table, fields[p], tokens, |tokens|);
    }
  }

  /** The fields of a header line that are kept, in order. */
  function NonEmpty(fields: seq<string>): seq<string>
  {
    if fields == [] then [] else (if fields[0] == "" then [] else [fields[0]]) + NonEmpty(fields[1..])
  }

  function Names(cs: seq<Column>): seq<string>
  {
    if cs == [] then [] else [cs[0].name] + Names(cs[1..])
  }

  lemma {:induction false} NamesAppend(a: seq<Column>, b: seq<Column>)
    ensures Names(a + b) == Names(a) + Names(b)
    decreases |a|
  {
    if a != [] {
      assert (a + b)[1..] == a[1..] + b;
      NamesAppend(a[1..], b);
    } else {
      assert a + b == b;
    }
  }

  lemma {:induction false} NonEmptyAppend(a: seq<string>, b: seq<string>)
    ensures NonEmpty(a + b) == NonEmpty(a) + NonEmpty(b)
    decreases |a|
  {
    if a != [] {
      assert (a + b)[1..] == a[1..] + b;
      NonEmptyAppend(a[1..], b);
    } else {
      assert a + b == b;
    }
  }

  /** The columns are the non-empty fields, in order; the only TEXT column
      is the first field's, present exactly when that field is not empty,
      and every other column is DOUBLE PRECISION. */
  lemma {:induction false} ColumnsMeaning(fields: seq<string>, j: nat)
    requires j <= |fields|
    ensures Names(ColumnsUpTo(fields, j)) == NonEmpty(fields[..j])
    ensures forall i | 0 <= i < |ColumnsUpTo(fields, j)| ::
      ColumnsUpTo(fields, j)[i].sqlType == (if i == 0 && fields[0] != "" then TextType else DoubleType)
    decreases j
  {
    if j > 0 {
      ColumnsMeaning(fields, j - 1);
      var f := fields[j - 1];
      var extra := if f == "" then [] else [Column(f, TypeAt(j - 1))];
      NamesAppend(ColumnsUpTo(fields, j - 1), extra);
      assert fields[..j] == fields[..j - 1] + [f];
      NonEmptyAppend(fields[..j - 1], [f]);
      assert NonEmpty([f]) == (if f == "" then [] else [f]) by {
        assert [f][1..] == [];
      }
      assert Names(extra) == (if f == "" then [] else [f]) by {
        if f != "" {
          assert extra[1..] == [];
        }
      }
      var prev := ColumnsUpTo(fields, j - 1);
      if f != "" && j - 1 > 0 && |prev| == 0 {
        // the first kept column sits at position 0 of the list but came from
        // a later field: the earlier fields are all empty, field 0 included
        assert Names(prev) == [];
        assert NonEmpty(fields[..j - 1]) == [];
        EmptyPrefix(fields, j - 1);
      }
    }
  }

  /** When no field before position `j` is kept, field 0 is empty. */
  lemma EmptyPrefix(fields: seq<string>, j: nat)
    requires 0 < j <= |fields|
    requires NonEmpty(fields[..j]) == []
    ensures fields[0] == ""
  {
    assert fields[..j][0] == fields[0];
    assert fields[..j] == [fields[0]] + fields[..j][1..];
  }

  /** A field whose policy is one known token gets that token's one index. */
  lemma OneTokenPolicy(cfg: Config, table: string, idx: nat, field: string)
    requires Policy(cfg, idx) == "TIME-VALUE" || Policy(cfg, idx) == "VALUE-TIME"
    requires Indexed(cfg, idx)
    ensures FieldIndexes(cfg, table, idx, field) ==
      Success([IndexSql(table, IndexDef(Policy(cfg, idx), field).value.value)])
  {
    var token := Policy(cfg, idx);
    SplitWhole(token, ',');
    TokensStep(table, field, [token], 0);
    var x := IndexSql(table, IndexDef(token, field).value.value);
    assert [] + [x] == [x];
  }

  /** A header line `t,tag,field` under the policies tag: VALUE-TIME and
      field: TIME-VALUE, all fields indexed: a TEXT tag column partitioning
      the table, a DOUBLE PRECISION field column, and one index each,
      `(tag,time)` and `(time, field)`. */
  lemma TagAndField(cfg: Config, t: string, tag: string, field: string)
    requires cfg.tagIndex == "VALUE-TIME" && cfg.fieldIndex == "TIME-VALUE" && cfg.fieldIndexCount == -1
    requires ',' !in t && ',' !in tag && ',' !in field
    requires tag != "" && field != ""
    ensures Describe(cfg, t + [','] + tag + [','] + field) ==
      Success(Table(t, tag, [Column(tag, TextType), Column(field, DoubleType)],
        [IndexSql(t, "(" + tag + ",time)"), IndexSql(t, "(time, " + field + ")")]))
  {
    var line := t + [','] + tag + [','] + field;
    SplitThree(t, tag, field, ',');
    var fields := [tag, field];
    assert Split(line, ',')[1..] == fields;
    var i0 := IndexSql(t, "(" + tag + ",time)");
    var i1 := IndexSql(t, "(time, " + field + ")");
    OneTokenPolicy(cfg, t, 0, tag);
    OneTokenPolicy(cfg, t, 1, field);
    assert IndexDef(Policy(cfg, 0), tag) == Success(Some("(" + tag + ",time)"));
    assert IndexDef(Policy(cfg, 1), field) == Success(Some("(time, " + field + ")"));
    IndexesStep(cfg, t, fields, 0);
    assert [] + [i0] == [i0];
    assert IndexesUpTo(cfg, t, fields, 1) == Success([i0]);
    IndexesStep(cfg, t, fields, 1);
    assert [i0] + [i1] == [i0, i1];
    assert IndexesUpTo(cfg, t, fields, 2) == Success([i0, i1]);
    assert ColumnsUpTo(fields, 1) == [Column(tag, TextType)];
    assert ColumnsUpTo(fields, 2) == [Column(tag, TextType), Column(field, DoubleType)];
  }

  // ---------------------------------------------------------------------
  // Deriving one table: the loops of initBenchmarkDB

  /** One more known token extends the statements by its index, if any. */
  lemma TokensStep(table: string, field: string, tokens: seq<string>, k: nat)
    requires k < |tokens|
    requires TokensUpTo(table, field, tokens, k).Success?
    requires KnownToken(tokens[k])
    ensures TokensUpTo(table, field, tokens, k + 1) ==
      Success(TokensUpTo(table, field, tokens, k).value
        + (if tokens[k] == "" then [] else [IndexSql(table, IndexDef(tokens[k], field).value.value)]))
  {
  }

  /** One more kept field extends the statements by its own indexes, or
      fails as its policy does. */
  lemma IndexesStep(cfg: Config, table: string, fields: seq<string>, j: nat)
    requires j < |fields|
    requires IndexesUpTo(cfg, table, fields, j).Success?
    requires fields[j] != ""
    ensures FieldIndexes(cfg, table, j, fields[j]).Failure? ==>
      IndexesUpTo(cfg, table, fields, j + 1) == Failure(FieldIndexes(cfg, table, j, fields[j]).error)
    ensures FieldIndexes(cfg, table, j, fields[j]).Success? ==>
      IndexesUpTo(cfg, table, fields, j + 1) ==
        Success(IndexesUpTo(cfg, table, fields, j).value + FieldIndexes(cfg, table, j, fields[j]).value)
  {
  }

  /** One more kept field: its column is appended, and its indexes are
      appended or its failure decides the whole line. */
  lemma KeptField(cfg: Config, table: string, fields: seq<string>, j: nat)
    requires j < |fields| && fields[j] != ""
    requires IndexesUpTo(cfg, table, fields, j).Success?
    ensures ColumnsUpTo(fields, j + 1) == ColumnsUpTo(fields, j) + [Column(fields[j], TypeAt(j))]
    ensures FieldIndexes(cfg, table, j, fields[j]).Failure? ==>
      TableOf(cfg, table, fields) == Failure(FieldIndexes(cfg, table, j, fields[j]).error)
    ensures FieldIndexes(cfg, table, j, fields[j]).Success? ==>
      IndexesUpTo(cfg, table, fields, j + 1) ==
        Success(IndexesUpTo(cfg, table, fields, j).value + FieldIndexes(cfg, table, j, fields[j]).value)
  {
    IndexesStep(cfg, table, fields, j);
    if FieldIndexes(cfg, table, j, fields[j]).Failure? {
      IndexesFailurePersists(cfg, table, fields, j + 1, |fields|);
    }
  }

  /** The loop over the tokens of one field's index policy. */
  method PolicyIndexes(table: string, field: string, policy: string) returns (r: Result<seq<string>, SchemaError>)
    ensures r == TokensUpTo(table, field, Split(policy, ','), |Split(policy, ',')|)
  {
    var tokens := Split(policy, ',');
    var indexes: seq<string> := [];
    var k := 0;
    while k < |tokens|
      invariant 0 <= k <= |tokens|
      invariant TokensUpTo(table, field, tokens, k) == Success(indexes)
    {
      var token := tokens[k];
      var indexDef := "";
      if token == "TIME-VALUE" {
        indexDef := "(time, " + field + ")";
      } else if token == "VALUE-TIME" {
        indexDef := "(" + field + ",time)";
      } else if token != "" {
        TokensFailurePersists(table, field, tokens, k + 1, |tokens|);
        return Failure(UnknownIndexType(token));
      }
      TokensStep(table, field, tokens, k);
      if token != "" {
        indexes := indexes + [IndexSql(table, indexDef)];
      } else {
        assert indexes + [] == indexes;
      }
      k := k + 1;
    }
    r := Success(indexes);
  }

  /** The index statements of one non-empty field: none beyond the first
      `fieldIndexCount` fields, otherwise one per token of its policy. */
  method FieldIndexStatements(cfg: Config, table: string, idx: nat, field: string, idxType: string)
    returns (r: Result<seq<string>, SchemaError>)
    requires idxType == Policy(cfg, idx)
    ensures r == FieldIndexes(cfg, table, idx, field)
  {
    if cfg.fieldIndexCount == -1 || idx <= cfg.fieldIndexCount {
      r := PolicyIndexes(table, field, idxType);
    } else {
      r := Success([]);
    }
  }

  /** The body of the header loop for one line: the line split on commas,
      then the loop over its fields. */
  method DeriveTable(cfg: Config, line: string) returns (r: Result<Table, SchemaError>)
    ensures r == Describe(cfg, line)
  {
    var parts := Split(line, ',');
    r := FieldsTable(cfg, parts[0], parts[1..]);
  }

  /** The loop over the fields of one header line: each non-empty field
      becomes a column and its indexes; the first one is the TEXT tag that
      partitions the table. */
  method FieldsTable(cfg: Config, hypertable: string, fields: seq<string>) returns (r: Result<Table, SchemaError>)
    ensures r == TableOf(cfg, hypertable, fields)
  {
    var partitioningField := "";
    var fieldDef: seq<Column> := [];
    var indexes: seq<string> := [];
    var idx := 0;
    while idx < |fields|
      invariant 0 <= idx <= |fields|
      invariant fieldDef == ColumnsUpTo(fields, idx)
      invariant IndexesUpTo(cfg, hypertable, fields, idx) == Success(indexes)
      invariant partitioningField == (if idx > 0 then Partitioning(fields) else "")
    {
      var field := fields[idx];
      if |field| == 0 {
        assert ColumnsUpTo(fields, idx + 1) == fieldDef + [];
        idx := idx + 1;
        continue;
      }
      var fieldType := DoubleType;
      var idxType := cfg.fieldIndex;
      if idx == 0 {
        partitioningField := field;
        fieldType := TextType;
        idxType := cfg.tagIndex;
      }
      fieldDef := fieldDef + [Column(field, fieldType)];
      KeptField(cfg, hypertable, fields, idx);
      var more := FieldIndexStatements(cfg, hypertable, idx, field, idxType);
      if more.Failure? {
        return Failure(more.error);
      }
      indexes := indexes + more.value;
      idx := idx + 1;
    }
    r := Success(Table(hypertable, partitioningField, fieldDef, indexes));
  }

  // ---------------------------------------------------------------------
  // The header phase

  /** The number of header lines: the lines before the first empty one. */
  function HeaderCount(lines: seq<string>): (c: nat)
    ensures c <= |lines|
    ensures forall k | 0 <= k < c :: lines[k] != ""
    ensures c < |lines| ==> lines[c] == ""
  {
    if lines == [] then 0
    else if lines[0] == "" then 0
    else 1 + HeaderCount(lines[1..])
  }

  /** Where the data starts: after the empty line that ends the header, or
      at the end of the input when there is none. */
  function HeaderEnd(lines: seq<string>): (e: nat)
    ensures e <= |lines|
    ensures HeaderCount(lines) < |lines| ==> e == HeaderCount(lines) + 1
    ensures HeaderCount(lines) == |lines| ==> e == |lines|
  {
    if HeaderCount(lines) < |lines| then HeaderCount(lines) + 1 else |lines|
  }

  /** The header count is fixed by where the first empty line is. */
  lemma HeaderCountAt(lines: seq<string>, i: nat)
    requires i <= |lines|
    requires forall k | 0 <= k < i :: lines[k] != ""
    requires i < |lines| ==> lines[i] == ""
    ensures HeaderCount(lines) == i
  {
  }

  /** The header skip in `main` when loading is disabled: read lines until
      one is empty (and consumed) or the input ends. */
  method SkipHeader(lines: seq<string>) returns (next: nat)
    ensures next <= |lines|
    ensures forall k | 0 <= k < next && k < HeaderCount(lines) :: lines[k] != ""
    ensures next == HeaderEnd(lines)
  {
    next := 0;
    while next < |lines|
      invariant next <= |lines|
      invariant forall k | 0 <= k < next :: lines[k] != ""
    {
      if |lines[next]| == 0 {
        HeaderCountAt(lines, next);
        return next + 1;
      }
      next := next + 1;
    }
    HeaderCountAt(lines, next);
  }

  /** The tables of the first `k` header lines, failing at the first line
      with an unknown index type. */
  function DescribeAll(cfg: Config, lines: seq<string>, k: nat): Result<seq<Table>, SchemaError>
    requires k <= |lines|
  {
    if k == 0 then Success([])
    else
      var init :- DescribeAll(cfg, lines, k - 1);
      var t :- Describe(cfg, lines[k - 1]);
      Success(init + [t])
  }

  lemma {:induction false} DescribeAllFailurePersists(cfg: Config, lines: seq<string>, k: nat, k2: nat)
    requires k <= k2 <= |lines|
    requires DescribeAll(cfg, lines, k).Failure?
    ensures DescribeAll(cfg, lines, k2) == DescribeAll(cfg, lines, k)
    decreases k2 - k
  {
    if k < k2 {
      DescribeAllFailStep(cfg, lines, k);
      DescribeAllFailurePersists(cfg, lines, k + 1, k2);
    }
  }

  /** A failed header stays failed one line further. */
  lemma DescribeAllFailStep(cfg: Config, lines: seq<string>, k: nat)
    requires k < |lines|
    requires DescribeAll(cfg, lines, k).Failure?
    ensures DescribeAll(cfg, lines, k + 1) == DescribeAll(cfg, lines, k)
  {
  }

  /** The statements of all the tables, table after table. */
  function AllStatements(cfg: Config, tables: seq<Table>): seq<string>
  {
    if tables == [] then [] else AllStatements(cfg, tables[..|tables| - 1]) + TableStatements(cfg, tables[|tables| - 1])
  }

  /** One more header line extends the tables by its own, or fails as it
      does. */
  lemma DescribeAllStep(cfg: Config, lines: seq<string>, k: nat)
    requires k < |lines|
    requires DescribeAll(cfg, lines, k).Success?
    ensures Describe(cfg, lines[k]).Failure? ==>
      DescribeAll(cfg, lines, k + 1) == Failure(Describe(cfg, lines[k]).error)
    ensures Describe(cfg, lines[k]).Success? ==>
      DescribeAll(cfg, lines, k + 1) == Success(DescribeAll(cfg, lines, k).value + [Describe(cfg, lines[k]).value])
  {
  }

  lemma AllStatementsSnoc(cfg: Config, tables: seq<Table>, t: Table)
    ensures AllStatements(cfg, tables + [t]) == AllStatements(cfg, tables) + TableStatements(cfg, t)
  {
    assert (tables + [t])[..|tables|] == tables;
  }

  /** A header line that fails makes the whole header fail. */
  lemma HeaderFailure(cfg: Config, lines: seq<string>, i: nat)
    requires i < HeaderCount(lines)
    requires DescribeAll(cfg, lines, i).Success?
    requires Describe(cfg, lines[i]).Failure?
    ensures DescribeAll(cfg, lines, HeaderCount(lines)) == Failure(Describe(cfg, lines[i]).error)
  {
    DescribeAllStep(cfg, lines, i);
    DescribeAllFailurePersists(cfg, lines, i + 1, HeaderCount(lines));
  }

  /** A header line that succeeds adds its table and its statements. */
  lemma HeaderSuccess(cfg: Config, lines: seq<string>, i: nat, tables: seq<Table>, t: Table)
    requires i < |lines|
    requires DescribeAll(cfg, lines, i) == Success(tables)
    requires Describe(cfg, lines[i]) == Success(t)
    ensures DescribeAll(cfg, lines, i + 1) == Success(tables + [t])
    ensures AllStatements(cfg, tables + [t]) == AllStatements(cfg, tables) + TableStatements(cfg, t)
  {
    DescribeAllStep(cfg, lines, i);
    AllStatementsSnoc(cfg, tables, t);
  }

  /** A line that is not empty and follows only non-empty lines is part of
      the header. */
  lemma HeaderCountAbove(lines: seq<string>, i: nat)
    requires i < |lines|
    requires i <= HeaderCount(lines)
    requires lines[i] != ""
    ensures HeaderCount(lines) > i
  {
  }

  /** The statements before the header is read. */
  function Prelude(cfg: Config): seq<string> {
    ["DROP DATABASE IF EXISTS benchmark", "CREATE DATABASE benchmark"]
      + (if cfg.makeHypertable then ["CREATE EXTENSION IF NOT EXISTS timescaledb CASCADE", "SELECT setup_timescaledb()"] else [])
  }

  /** The statements executed for one table: CREATE TABLE, each index, then
      create_hypertable when hypertables are made. */
  method TableSql(cfg: Config, t: Table) returns (stmts: seq<string>)
    ensures stmts == TableStatements(cfg, t)
  {
    stmts := [CreateTableSql(t)];
    var i := 0;
    while i < |t.indexes|
      invariant i <= |t.indexes|
      invariant stmts == [CreateTableSql(t)] + t.indexes[..i]
    {
      stmts := stmts + [t.indexes[i]];
      i := i + 1;
    }
    if cfg.makeHypertable {
      stmts := stmts + [CreateHypertableSql(cfg, t)];
    }
  }

  /** The header loop of `initBenchmarkDB`: each header line in turn becomes
      its table's statements, until the empty line that ends the header. */
  method CreateTables(cfg: Config, lines: seq<string>) returns (r: Result<Init, SchemaError>)
    ensures r.Success? ==>
      && DescribeAll(cfg, lines, HeaderCount(lines)) == Success(r.value.tables)
      && r.value.statements == AllStatements(cfg, r.value.tables)
      && r.value.next == HeaderEnd(lines)
    ensures r.Failure? ==> DescribeAll(cfg, lines, HeaderCount(lines)) == Failure(r.error)
  {
    var statements: seq<string> := [];
    var tables: seq<Table> := [];
    var i := 0;
    while i < |lines| && |lines[i]| != 0
      invariant i <= HeaderCount(lines)
      invariant DescribeAll(cfg, lines, i) == Success(tables)
      invariant statements == AllStatements(cfg, tables)
    {
      HeaderCountAbove(lines, i);
      var t := DeriveTable(cfg, lines[i]);
      if t.Failure? {
        HeaderFailure(cfg, lines, i);
        return Failure(t.error);
      }
      var own := TableSql(cfg, t.value);
      HeaderSuccess(cfg, lines, i, tables, t.value);
      statements := statements + own;
      tables := tables + [t.value];
      i := i + 1;
    }
    // the empty line that ends the header is consumed too
    var next := if i < |lines| then i + 1 else i;
    r := Success(Init(statements, tables, next));
  }

  /** `initBenchmarkDB`: recreate the database, set up the extension when
      hypertables are made, then create the tables the header describes. */
  method InitBenchmarkDB(cfg: Config, lines: seq<string>) returns (r: Result<Init, SchemaError>)
    ensures r.Success? ==>
      && DescribeAll(cfg, lines, HeaderCount(lines)) == Success(r.value.tables)
      && r.value.statements == Prelude(cfg) + AllStatements(cfg, r.value.tables)
      && r.value.next == HeaderEnd(lines)
    ensures r.Failure? ==> DescribeAll(cfg, lines, HeaderCount(lines)) == Failure(r.error)
  {
    var statements := ["DROP DATABASE IF EXISTS benchmark", "CREATE DATABASE benchmark"];
    if cfg.makeHypertable {
      statements := statements + ["CREATE EXTENSION IF NOT EXISTS timescaledb CASCADE", "SELECT setup_timescaledb()"];
    }
    var created := CreateTables(cfg, lines);
    if created.Failure? {
      return Failure(created.error);
    }
    r := Success(created.value.(statements := statements + created.value.statements));
  }
}
