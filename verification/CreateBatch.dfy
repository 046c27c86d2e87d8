/**
 The loop of `corm_create_batch` over an abstract database whose statements succeed or fail as a whole.
*/
module CreateBatch {
  import opened Common
  import opened SqlText
  import opened Builder
  import opened QueryCalls
  import opened BatchInsert
  import opened Dialects

  datatype Error = Ok | NullArgument | Mismatch | Backend_

  const DEFAULT_BATCH: nat := 100

  /** Whether the k-th statement executed succeeds; after the outcomes listed all do. */
  predicate Succeeds(outcome: seq<bool>, k: nat) {
    k < |outcome| ==> outcome[k]
  }

  class Database {
    const bt: Backend
    const outcome: seq<bool>
    var table: seq<Row>
    var executed: nat

    constructor (bt: Backend, outcome: seq<bool>, table: seq<Row>)
      ensures this.bt == bt && this.outcome == outcome && this.table == table && executed == 0
    {
      this.bt, this.outcome, this.table, executed := bt, outcome, table, 0;
    }

    /** An INSERT adds all its rows, or none. */
    method Exec(sql: string, params: seq<Value>) returns (ok: bool)
      modifies this
      ensures executed == old(executed) + 1 && ok == Succeeds(outcome, old(executed))
      ensures table == if ok then old(table) + RowsAdded(bt, sql, params) else old(table)
    {
      ok := Succeeds(outcome, executed);
      executed := executed + 1;
      if ok {
        table := table + RowsAdded(bt, sql, params);
      }
    }
  }

  /** The placeholders of one row. */
  method RowPlaceholders(bt: Backend, fs: seq<Field>, start: nat) returns (out: string)
    ensures out == Numbered(bt, HoleList(Units(|InsertColumns(fs)|)), start)
  {
    out := "";
    var fi := 0;
    for j := 0 to |fs|
      invariant fi == |InsertColumns(fs[..j])|
      invariant out == Numbered(bt, HoleList(Units(fi)), start)
    {
      assert fs[..j + 1][..j] == fs[..j];
      assert InsertColumns(fs[..j + 1])
             == if fs[j].autoInc then InsertColumns(fs[..j]) else InsertColumns(fs[..j]) + [fs[j].name];
      if !fs[j].autoInc {
        HolesStep(bt, fi, start);
        var separator := "";
        if fi > 0 {
          separator := ", ";
        }
        out := out + (separator + Placeholder(bt, start + fi));
        fi := fi + 1;
      }
    }
    assert fs[..|fs|] == fs;
  }

  /** The values bound for one record. */
  method BindRecord(fs: seq<Field>, rec: Record) returns (tuple: Tuple)
    requires |rec| == |fs|
    ensures tuple == InsertValues(fs, rec)
  {
    tuple := [];
    for j := 0 to |fs|
      invariant tuple == InsertValues(fs[..j], rec[..j])
    {
      assert fs[..j + 1][..j] == fs[..j] && rec[..j + 1][..j] == rec[..j];
      if !fs[j].autoInc {
        tuple := tuple + [rec[j]];
      }
    }
    assert fs[..|fs|] == fs && rec[..|rec|] == rec;
  }

  lemma {:induction false} RowText(bt: Backend, columns: nat, start: nat)
    ensures Numbered(bt, RowTokens(columns), start) == "(" + (Numbered(bt, HoleList(Units(columns)), start) + ")")
  {
    NumberedText<()>(bt, ")", [], start + |Holes(HoleList(Units(columns)))|);
    NumberedConcat(bt, HoleList(Units(columns)), Text(")"), start);
    NumberedText(bt, "(", HoleList(Units(columns)) + Text(")"), start);
  }

  /** How many records are in so many full statements, and how many parameters in so many rows. */
  function Covered(groups: nat, size: nat): nat {
    groups * size
  }

  lemma {:induction false} NoneCovered(size: nat)
    ensures Covered(0, size) == 0
  {}

  lemma {:induction false} CoveredStep(b: nat, size: nat)
    ensures Covered(b + 1, size) == Covered(b, size) + size
  {}

  lemma {:induction false} ValuesStep(bt: Backend, n: nat, columns: nat)
    ensures Numbered(bt, ValueTokens(n + 1, columns), 0)
            == Numbered(bt, ValueTokens(n, columns), 0)
               + (Comma(n) + ("(" + (Numbered(bt, HoleList(Units(columns)), Covered(n, columns)) + ")")))
  {
    RowText(bt, columns, n * columns);
    ValuesHoles(n, columns);
    NumberedConcat(bt, ValueTokens(n, columns), Text(Comma(n)) + RowTokens(columns), 0);
    NumberedText(bt, Comma(n), RowTokens(columns), n * columns);
  }

  /** The text and the parameters of one statement. */
  method BuildBatch(bt: Backend, m: Model, recs: seq<Record>) returns (sql: string, params: seq<Value>)
    requires Records(m, recs)
    ensures sql == BatchSql(bt, m, |recs|)
    ensures params == Flatten(TuplesFor(m, recs))
  {
    hide Numbered, ValueTokens, Flatten, TuplesFor, Covered, InsertValues, HeadTokens;
    var columns := |InsertColumns(m.fields)|;
    var values := "";
    params := [];
    NoRows(bt, m, recs, columns);
    NoneCovered(columns);
    for r := 0 to |recs|
      invariant values == Numbered(bt, ValueTokens(r, columns), 0)
      invariant params == Flatten(TuplesFor(m, recs[..r])) && |params| == Covered(r, columns)
    {
      ValuesStep(bt, r, columns);
      var separator := "";
      if r > 0 {
        separator := ", ";
      }
      var holes := RowPlaceholders(bt, m.fields, |params|);
      values := values + (separator + ("(" + (holes + ")")));
      var tuple := BindRecord(m.fields, recs[r]);
      NextRow(m, recs, r);
      params := params + tuple;
      CoveredStep(r, columns);
    }
    assert recs[..|recs|] == recs;
    var head := BuildBatchHead(bt, m);
    sql := head + values;
    HeadHasNoHoles(m);
    NumberedConcat(bt, HeadTokens(m), ValueTokens(|recs|, columns), 0);
  }

  lemma {:induction false} NoRows(bt: Backend, m: Model, recs: seq<Record>, columns: nat)
    requires Records(m, recs)
    ensures Numbered(bt, ValueTokens(0, columns), 0) == "" && Flatten(TuplesFor(m, recs[..0])) == []
  {}

  lemma {:induction false} HeadHasNoHoles(m: Model)
    ensures Holes(HeadTokens(m)) == []
  {
    HeadPieces(Sqlite, m);
  }

  lemma {:induction false} FlattenStep(tuples: seq<Tuple>, tuple: Tuple)
    ensures Flatten(tuples + [tuple]) == Flatten(tuples) + tuple
  {
    assert (tuples + [tuple])[..|tuples|] == tuples;
  }

  lemma {:induction false} NextRow(m: Model, recs: seq<Record>, r: nat)
    requires Records(m, recs) && r < |recs|
    ensures Flatten(TuplesFor(m, recs[..r + 1])) == Flatten(TuplesFor(m, recs[..r])) + InsertValues(m.fields, recs[r])
    ensures |InsertValues(m.fields, recs[r])| == |InsertColumns(m.fields)|
  {
    assert TuplesFor(m, recs[..r + 1]) == TuplesFor(m, recs[..r]) + [InsertValues(m.fields, recs[r])];
    FlattenStep(TuplesFor(m, recs[..r]), InsertValues(m.fields, recs[r]));
  }

  lemma {:induction false} HeadText(bt: Backend, m: Model)
    ensures var columns: seq<Token<()>> := ColumnList(InsertColumns(m.fields));
            Numbered(bt, HeadTokens(m), 0)
            == "INSERT INTO " + (Quoted(bt, m.table) + (" (" + (Numbered(bt, columns, 0) + ") VALUES ")))
  {
    hide Numbered, ColumnList, InsertColumns, Holes;
    var list: seq<Token<()>> := ColumnList(InsertColumns(m.fields));
    NumberedText<()>(bt, ") VALUES ", [], |Holes(list)|);
    NumberedThen(bt, list, Text(") VALUES "), 0, ") VALUES ");
    TableParts(bt, "INSERT INTO ", m.table, " (", list + Text(") VALUES "));
  }

  method BuildBatchHead(bt: Backend, m: Model) returns (sql: string)
    ensures sql == Numbered(bt, HeadTokens(m), 0)
  {
    var columns := AppendColumns(bt, m.fields);
    var end := columns + ") VALUES ";
    sql := "INSERT INTO " + (Quoted(bt, m.table) + (" (" + end));
    HeadText(bt, m);
  }

  /** What inserting the first `k` records one at a time makes of the table. */
  function FirstEach(bt: Backend, m: Model, table: seq<Row>, recs: seq<Record>, k: nat): seq<Row>
    requires Records(m, recs) && k <= |recs|
  {
    CreateEach(bt, m, table, recs[..k])
  }

  /** `corm_create_batch`. On success the table is what inserting the records one at a time makes of it. When
      a statement fails, exactly the records of the statements before it are inserted and counted. */
  method CreateAll(db: Database, m: Model, recs: seq<Record>, batchSize: int) returns (err: Error, inserted: nat)
    requires ValidModel(m) && DistinctNames(m.fields) && Records(m, recs)
    modifies db
    ensures err.NullArgument? <==> recs == []
    ensures err.Mismatch? <==> recs != [] && forall j :: 0 <= j < |m.fields| ==> m.fields[j].autoInc
    ensures err.NullArgument? || err.Mismatch? ==>
              inserted == 0 && db.executed == old(db.executed) && db.table == old(db.table)
    ensures inserted <= |recs| && db.table == FirstEach(db.bt, m, old(db.table), recs, inserted)
    ensures db.table == old(db.table) + RowsFor(m, recs)[..inserted]
    ensures err.Ok? || err.Backend_? ==>
              var size := if batchSize <= 0 then DEFAULT_BATCH else batchSize;
              var n := db.executed - old(db.executed);
              && n > 0 && Covered(n - 1, size) < |recs|
              && (forall k: nat :: old(db.executed) <= k < db.executed - 1 ==> Succeeds(db.outcome, k))
              && (err.Ok? <==> Succeeds(db.outcome, db.executed - 1))
              && (err.Ok? ==> inserted == |recs| <= Covered(n, size))
              && (err.Backend_? ==> inserted == Covered(n - 1, size))
  {
    hide *;
    NoneEach(db.bt, m, db.table, recs);
    FirstEachRows(db.bt, m, db.table, recs, 0);
    NoColumns(m.fields);
    inserted := 0;
    if |recs| == 0 {
      return NullArgument, 0;
    }
    var size: nat := if batchSize <= 0 then DEFAULT_BATCH else batchSize;
    if |InsertColumns(m.fields)| == 0 {
      return Mismatch, 0;
    }
    NoneCovered(size);
    DefaultIsPositive();
    var i := 0;
    ghost var b := 0;
    while i < |recs|
      invariant i == Covered(b, size) && b == db.executed - old(db.executed)
      invariant inserted == (if i < |recs| then i else |recs|)
      invariant b > 0 ==> i - size < |recs|
      invariant db.table == FirstEach(db.bt, m, old(db.table), recs, inserted)
      invariant db.table == old(db.table) + RowsFor(m, recs)[..inserted]
      invariant forall k: nat :: old(db.executed) <= k < db.executed ==> Succeeds(db.outcome, k)
      decreases |recs| - i
    {
      var n := if i + size > |recs| then |recs| - i else size;
      var ok := CreateNext(db, m, recs, old(db.table), i, n);
      FirstEachRows(db.bt, m, old(db.table), recs, if ok then i + n else i);
      if !ok {
        return Backend_, inserted;
      }
      CoveredStep(b, size);
      inserted := inserted + n;
      i := i + size;
      b := b + 1;
    }
    CoveredStep(b - 1, size);
    return Ok, inserted;
  }

  lemma {:induction false} FirstEachRows(bt: Backend, m: Model, table: seq<Row>, recs: seq<Record>, k: nat)
    requires ValidModel(m) && DistinctNames(m.fields) && Records(m, recs) && k <= |recs|
    ensures FirstEach(bt, m, table, recs, k) == table + RowsFor(m, recs)[..k]
  {
    EachAddsRows(bt, m, table, recs[..k]);
    assert RowsFor(m, recs[..k]) == RowsFor(m, recs)[..k];
  }

  lemma {:induction false} NoColumns(fs: seq<Field>)
    ensures |InsertColumns(fs)| == 0 <==> forall j :: 0 <= j < |fs| ==> fs[j].autoInc
  {
    if fs != [] {
      NoColumns(fs[..|fs| - 1]);
      assert forall j :: 0 <= j < |fs| - 1 ==> fs[..|fs| - 1][j] == fs[j];
    }
  }

  lemma {:induction false} DefaultIsPositive()
    ensures DEFAULT_BATCH > 0
  {}

  lemma {:induction false} NoneEach(bt: Backend, m: Model, table: seq<Row>, recs: seq<Record>)
    requires Records(m, recs)
    ensures FirstEach(bt, m, table, recs, 0) == table
  {}

  /** The statement for the records i..i+n-1. */
  method CreateNext(db: Database, m: Model, recs: seq<Record>, ghost base: seq<Row>, i: nat, n: nat) returns (ok: bool)
    requires ValidModel(m) && DistinctNames(m.fields) && Records(m, recs) && i + n <= |recs|
    requires db.table == FirstEach(db.bt, m, base, recs, i)
    modifies db
    ensures db.executed == old(db.executed) + 1 && ok == Succeeds(db.outcome, old(db.executed))
    ensures db.table == FirstEach(db.bt, m, base, recs, if ok then i + n else i)
  {
    var batch := recs[i..i + n];
    NextRows(db.bt, m, base, recs, i, n);
    hide *;
    var sql, params := BuildBatch(db.bt, m, batch);
    ok := db.Exec(sql, params);
  }

  /** One statement for n records does what n single ones do. */
  lemma {:induction false} NextRows(bt: Backend, m: Model, base: seq<Row>, recs: seq<Record>, i: nat, n: nat)
    requires ValidModel(m) && DistinctNames(m.fields) && Records(m, recs) && i + n <= |recs|
    ensures Records(m, recs[i..i + n])
    ensures var batch := recs[i..i + n];
            FirstEach(bt, m, base, recs, i) + RowsAdded(bt, BatchSql(bt, m, |batch|), Flatten(TuplesFor(m, batch)))
            == FirstEach(bt, m, base, recs, i + n)
  {
    RowsForParts(m, recs, i, n);
    var batch := recs[i..i + n];
    BatchAddsRows(bt, m, batch, "");
    NoSuffix(bt, BatchSql(bt, m, |batch|));
    EachAddsRows(bt, m, base, recs[..i]);
    EachAddsRows(bt, m, base, recs[..i + n]);
    hide RowsAdded, RowsFor, CreateEach, Flatten, BatchSql;
    Associate(base, RowsFor(m, recs[..i]), RowsFor(m, batch));
  }

  lemma {:induction false} RowsForParts(m: Model, recs: seq<Record>, i: nat, n: nat)
    requires Records(m, recs) && DistinctNames(m.fields) && i + n <= |recs|
    ensures Records(m, recs[..i]) && Records(m, recs[i..i + n]) && Records(m, recs[..i + n])
    ensures RowsFor(m, recs[..i + n]) == RowsFor(m, recs[..i]) + RowsFor(m, recs[i..i + n])
  {}

  lemma {:induction false} NoSuffix(bt: Backend, s: string)
    ensures s + "" == s && SpacedFree(bt, "") && ParenFree("")
  {}
}
