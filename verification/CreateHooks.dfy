/**
 `corm_create` runs the `before_create` hook of the model, which may refuse the record or edit it, and
 `corm_create_batch` does not. When the two still store the same rows.
*/
module CreateHooks {
  import opened Common
  import opened SqlText
  import opened Builder
  import opened BatchInsert

  /** What a hook makes of a record, or None when it refuses it. */
  type Hook = Record -> Option<Record>

  function Ran(hook: Hook, rec: Record): Option<Record> {
    hook(rec)
  }

  /** A hook edits a record in place, so it keeps its fields. */
  ghost predicate InPlace(m: Model, hook: Hook) {
    forall rec: Record :: |rec| == |m.fields| && Ran(hook, rec).Some? ==> |Ran(hook, rec).value| == |m.fields|
  }

  /** `corm_create`, for one record. */
  function CreateHooked(bt: Backend, m: Model, hook: Hook, table: seq<Row>, rec: Record): seq<Row>
    requires InPlace(m, hook) && |rec| == |m.fields|
  {
    match Ran(hook, rec)
    case None => table
    case Some(edited) => CreateOne(bt, m, table, edited)
  }

  function HookedEach(bt: Backend, m: Model, hook: Hook, table: seq<Row>, recs: seq<Record>): seq<Row>
    requires InPlace(m, hook) && Records(m, recs)
  {
    if recs == [] then table
    else
      var last := |recs| - 1;
      CreateHooked(bt, m, hook, HookedEach(bt, m, hook, table, recs[..last]), recs[last])
  }

  /** The rows of the records that the hook lets through, as it leaves them. */
  function HookedRows(m: Model, hook: Hook, recs: seq<Record>): seq<Row>
    requires InPlace(m, hook) && Records(m, recs) && DistinctNames(m.fields)
  {
    if recs == [] then []
    else
      var last := |recs| - 1;
      HookedRows(m, hook, recs[..last])
      + match Ran(hook, recs[last]) case None => [] case Some(edited) => [RecordRow(m.fields, edited)]
  }

  lemma {:induction false} HookedAddsRows(bt: Backend, m: Model, hook: Hook, table: seq<Row>, recs: seq<Record>)
    requires ValidModel(m) && DistinctNames(m.fields) && InPlace(m, hook) && Records(m, recs)
    ensures HookedEach(bt, m, hook, table, recs) == table + HookedRows(m, hook, recs)
  {
    hide InsertValues, RecordRow, ValidModel, RowsAdded;
    if recs != [] {
      var last := |recs| - 1;
      HookedAddsRows(bt, m, hook, table, recs[..last]);
      match Ran(hook, recs[last])
      case None =>
      case Some(edited) => SingleAddsRow(bt, m, edited);
    }
  }

  /** The hook lets the record through and leaves its row as it is. */
  predicate Untouched(m: Model, hook: Hook, rec: Record)
    requires InPlace(m, hook) && |rec| == |m.fields| && DistinctNames(m.fields)
  {
    && Ran(hook, rec).Some?
    && RecordRow(m.fields, Ran(hook, rec).value) == RecordRow(m.fields, rec)
  }

  lemma {:induction false} HookedRowsExactly(m: Model, hook: Hook, recs: seq<Record>)
    requires InPlace(m, hook) && Records(m, recs) && DistinctNames(m.fields)
    ensures |HookedRows(m, hook, recs)| <= |recs| == |RowsFor(m, recs)|
    ensures HookedRows(m, hook, recs) == RowsFor(m, recs)
            <==> forall i :: 0 <= i < |recs| ==> Untouched(m, hook, recs[i])
  {
    hide InsertValues, RecordRow;
    if recs != [] {
      var last := |recs| - 1;
      HookedRowsExactly(m, hook, recs[..last]);
      var rows, plain := HookedRows(m, hook, recs[..last]), RowsFor(m, recs[..last]);
      assert RowsFor(m, recs) == plain + [RecordRow(m.fields, recs[last])];
      assert forall i :: 0 <= i < last ==> recs[..last][i] == recs[i];
      if HookedRows(m, hook, recs) == RowsFor(m, recs) {
        assert Ran(hook, recs[last]).Some?;
        assert rows == HookedRows(m, hook, recs)[..last] && plain == RowsFor(m, recs)[..last];
        assert HookedRows(m, hook, recs)[last] == RowsFor(m, recs)[last];
      }
    }
  }

  /** Whatever is in the table before, the plain INSERTs of the batch store what creating the records one at a
      time stores exactly if the hook refuses no record and edits no value that is inserted. */
  lemma {:induction false} BatchSkipsHookExactly(bt: Backend, m: Model, hook: Hook, table: seq<Row>, recs: seq<Record>)
    requires ValidModel(m) && DistinctNames(m.fields) && InPlace(m, hook) && Records(m, recs)
    ensures CreateEach(bt, m, table, recs) == HookedEach(bt, m, hook, table, recs)
            <==> forall i :: 0 <= i < |recs| ==> Untouched(m, hook, recs[i])
  {
    hide CreateEach, HookedEach, HookedRows, RowsFor, Untouched, InPlace, ValidModel;
    var plain, hooked := RowsFor(m, recs), HookedRows(m, hook, recs);
    EachAddsRows(bt, m, table, recs);
    HookedAddsRows(bt, m, hook, table, recs);
    HookedRowsExactly(m, hook, recs);
    assert (table + plain)[|table|..] == plain && (table + hooked)[|table|..] == hooked;
  }

  /** A record that the hook refuses is stored by the batch. */
  lemma {:induction false} RefusedIsStored(bt: Backend, m: Model, table: seq<Row>, rec: Record)
    requires ValidModel(m) && DistinctNames(m.fields) && |rec| == |m.fields|
    ensures var hook: Hook := _ => None;
            && InPlace(m, hook) && HookedEach(bt, m, hook, table, [rec]) == table
            && CreateEach(bt, m, table, [rec]) == table + [RecordRow(m.fields, rec)]
  {
    hide InsertValues, RecordRow, ValidModel, RowsAdded;
    var hook: Hook := _ => None;
    assert [rec][..0] == [];
    EachAddsRows(bt, m, table, [rec]);
    HookedAddsRows(bt, m, hook, table, [rec]);
    assert RowsFor(m, [rec]) == [RecordRow(m.fields, rec)];
  }
}
