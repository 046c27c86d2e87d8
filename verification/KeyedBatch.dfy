/**
 `corm_update_batch` and `corm_delete_batch`: one keyed statement for each record, inside one transaction.
 A statement acts on the table as the database reads it, whatever that action is.
*/
module KeyedBatch {
  import opened Common
  import opened SqlText
  import opened Builder
  import opened Dialects
  import opened QueryCalls
  import opened Alignment
  import opened BatchInsert
  import opened Execution
  import Q = Query

  // ----- Statements as the database sees them

  datatype Outcome<T> = Done(table: T, rows: nat) | Failed

  type Action<!T> = (seq<Bound>, T) -> Outcome<T>

  function Act<T>(run: Action<T>, stmt: seq<Bound>, table: T): Outcome<T> {
    run(stmt, table)
  }

  predicate Passes(hook: Record -> bool, rec: Record) {
    hook(rec)
  }

  // ----- The statement for a record

  /** The first primary-key field, or the number of fields. */
  function KeyIndex(fs: seq<Field>): (i: nat)
    ensures i <= |fs| && (i < |fs| ==> fs[i].primary)
    ensures forall j :: 0 <= j < i ==> !fs[j].primary
  {
    if fs == [] || fs[0].primary then 0 else 1 + KeyIndex(fs[1..])
  }

  function SetCalls(fs: seq<Field>, rec: Record): seq<Call>
    requires |rec| == |fs|
  {
    if fs == [] then []
    else
      var last := |fs| - 1;
      SetCalls(fs[..last], rec[..last]) + if fs[last].primary then [] else [Call.Set(fs[last].name, rec[last])]
  }

  function KeyCalls(m: Model, rec: Record): seq<Call>
    requires |rec| == |m.fields| && KeyIndex(m.fields) < |m.fields|
  {
    var k := KeyIndex(m.fields);
    [Where(KeyCondition(m)), Bind(rec[k])]
  }

  function KeyCondition(m: Model): string
    requires KeyIndex(m.fields) < |m.fields|
  {
    m.fields[KeyIndex(m.fields)].name + " = ?"
  }

  /** The calls before those for the key. */
  function SetPartCalls(kind: Kind, m: Model, rec: Record): seq<Call>
    requires |rec| == |m.fields|
  {
    match kind
    case Updating => SetCalls(m.fields, rec)
    case Deleting => if Soft(m) then [Call.Set(m.fields[Q.SoftIndex(m.fields)].name, Str("deleted"))] else []
  }

  datatype Kind = Updating | Deleting

  predicate Soft(m: Model) {
    Q.SoftIndex(m.fields) < |m.fields|
  }

  /** The calls on the query object for one record; a delete on a model with a soft-delete field is an update. */
  function CallsFor(kind: Kind, m: Model, rec: Record): seq<Call>
    requires |rec| == |m.fields| && KeyIndex(m.fields) < |m.fields|
  {
    SetPartCalls(kind, m, rec) + KeyCalls(m, rec)
  }

  function OpFor(kind: Kind, m: Model): Op {
    if kind.Updating? || Soft(m) then Op.Update else Op.Delete
  }

  function Blank(op: Op, m: Model): Clauses {
    Clauses(op, m, false, "", "", "", "", "", "", "", 0, 0)
  }

  function SqlFor(bt: Backend, kind: Kind, m: Model, rec: Record): string
    requires |rec| == |m.fields| && KeyIndex(m.fields) < |m.fields|
  {
    Built(bt, View(Blank(OpFor(kind, m), m), DoAll(bt, CallsFor(kind, m, rec))))
  }

  /** The keyed operation of one record on a table. */
  function Keyed<T>(run: Action<T>, bt: Backend, kind: Kind, m: Model, hook: Record -> bool, rec: Record,
                    table: T): Outcome<T>
    requires |rec| == |m.fields| && KeyIndex(m.fields) < |m.fields|
  {
    if !Passes(hook, rec) then Failed
    else Act(run, Executed(bt, SqlFor(bt, kind, m, rec), DoAll(bt, CallsFor(kind, m, rec)).params), table)
  }

  /** The left fold of the keyed operations; it fails when one of them does. */
  function KeyedAll<T>(run: Action<T>, bt: Backend, kind: Kind, m: Model, hook: Record -> bool, recs: seq<Record>,
                       table: T): Outcome<T>
    requires Records(m, recs) && KeyIndex(m.fields) < |m.fields|
  {
    if recs == [] then Done(table, 0)
    else
      match KeyedAll(run, bt, kind, m, hook, recs[..|recs| - 1], table)
      case Failed => Failed
      case Done(t, n) =>
        match Keyed(run, bt, kind, m, hook, recs[|recs| - 1], t)
        case Failed => Failed
        case Done(u, k) => Done(u, n + k)
  }

  lemma {:induction false} FailedPrefix<T>(run: Action<T>, bt: Backend, kind: Kind, m: Model, hook: Record -> bool,
                                           recs: seq<Record>, table: T, n: nat)
    requires Records(m, recs) && KeyIndex(m.fields) < |m.fields| && n <= |recs|
    requires KeyedAll(run, bt, kind, m, hook, recs[..n], table).Failed?
    ensures KeyedAll(run, bt, kind, m, hook, recs, table).Failed?
  {
    if n == |recs| {
      assert recs[..n] == recs;
    } else {
      assert recs[..|recs| - 1][..n] == recs[..n];
      FailedPrefix(run, bt, kind, m, hook, recs[..|recs| - 1], table, n);
    }
  }

  // ----- The database

  datatype Error = Ok | NullArgument | Mismatch | StatementFailed

  /** What a ROLLBACK would restore, after `corm_begin`: nothing new when BEGIN fails; inside a transaction,
      which SQLite refuses to begin and Postgres to begin anew, the state when that one began; MySQL commits
      it first. */
  function Begun<T>(bt: Backend, begins: bool, saved: Option<T>, table: T): Option<T> {
    if begins && (saved.None? || bt.Mysql?) then Some(table) else saved
  }

  /** `begins`: whether BEGIN succeeds; `saved`: the table when the open transaction began. */
  class Store<T> {
    const bt: Backend
    const run: Action<T>
    const begins: bool
    var table: T
    var saved: Option<T>
    var rows: nat

    constructor (bt: Backend, run: Action<T>, begins: bool, table: T)
      ensures this.bt == bt && this.run == run && this.begins == begins && this.table == table && saved == None
    {
      this.bt, this.run, this.begins, this.table, saved, rows := bt, run, begins, table, None, 0;
    }

    method Begin()
      modifies this
      ensures table == old(table) && saved == Begun(bt, begins, old(saved), table)
    {
      saved := Begun(bt, begins, saved, table);
    }

    method Commit()
      modifies this
      ensures table == old(table) && saved == None
    {
      saved := None;
    }

    method Rollback()
      modifies this
      ensures saved == None && table == if old(saved).Some? then old(saved).value else old(table)
    {
      if saved.Some? {
        table := saved.value;
      }
      saved := None;
    }

    method Exec(sql: string, params: seq<Value>) returns (ok: bool)
      modifies this
      ensures saved == old(saved)
      ensures match Act(run, Executed(bt, sql, params), old(table))
              case Done(t, n) => ok && table == t && rows == n
              case Failed => !ok && table == old(table)
    {
      match Act(run, Executed(bt, sql, params), table)
      case Done(t, n) =>
        table, rows := t, n;
        return true;
      case Failed => return false;
    }
  }

  lemma {:induction false} DoOne(bt: Backend, calls: seq<Call>, call: Call)
    ensures DoAll(bt, calls + [call]) == Do(bt, DoAll(bt, calls), call)
  {
    assert (calls + [call])[..|calls|] == calls;
  }

  /** The loop of `corm_update_batch` that sets every column that is not a key. */
  method SetAll(q: Q.Query, fs: seq<Field>, rec: Record)
    requires |rec| == |fs| && q.State() == DoAll(q.bt, [])
    modifies q
    ensures q.State() == DoAll(q.bt, SetCalls(fs, rec))
    ensures q.AsClauses() == old(q.AsClauses()).(op := q.op, setClause := q.setClause)
  {
    for j := 0 to |fs|
      invariant q.State() == DoAll(q.bt, SetCalls(fs[..j], rec[..j]))
      invariant q.AsClauses() == old(q.AsClauses()).(op := q.op, setClause := q.setClause)
    {
      assert fs[..j + 1][..j] == fs[..j] && rec[..j + 1][..j] == rec[..j];
      assert SetCalls(fs[..j + 1], rec[..j + 1])
          == if fs[j].primary then SetCalls(fs[..j], rec[..j])
             else SetCalls(fs[..j], rec[..j]) + [Call.Set(fs[j].name, rec[j])];
      if !fs[j].primary {
        DoOne(q.bt, SetCalls(fs[..j], rec[..j]), Call.Set(fs[j].name, rec[j]));
        q.SetColumn(fs[j].name, rec[j]);
      }
    }
    assert fs[..|fs|] == fs && rec[..|rec|] == rec;
  }

  /** The query object for one record. */
  method Prepare(bt: Backend, kind: Kind, m: Model, rec: Record) returns (q: Q.Query)
    requires |rec| == |m.fields| && KeyIndex(m.fields) < |m.fields|
    ensures fresh(q) && q.bt == bt && q.State() == DoAll(bt, CallsFor(kind, m, rec))
    ensures q.AsClauses().(op := OpFor(kind, m)) == View(Blank(OpFor(kind, m), m), q.State())
  {
    hide DoAll, KeyCalls, KeyIndex, SetCalls, Do, Continued, Quoted;
    q := new Q.Query(bt, m);
    if kind.Updating? {
      SetAll(q, m.fields, rec);
    } else if Soft(m) {
      var call := Call.Set(m.fields[Q.SoftIndex(m.fields)].name, Str("deleted"));
      DoOne(bt, [], call);
      assert [] + [call] == [call];
      q.SetColumn(m.fields[Q.SoftIndex(m.fields)].name, Str("deleted"));
    }
    AddKey(q, m, rec, SetPartCalls(kind, m, rec));
  }

  method AddKey(q: Q.Query, m: Model, rec: Record, ghost calls: seq<Call>)
    requires |rec| == |m.fields| && KeyIndex(m.fields) < |m.fields|
    requires q.State() == DoAll(q.bt, calls)
    modifies q
    ensures q.State() == DoAll(q.bt, calls + KeyCalls(m, rec))
    ensures q.AsClauses() == old(q.AsClauses()).(where := q.where)
  {
    hide Do, DoAll, KeyCondition, KeyIndex, Continued;
    var k := KeyIndex(m.fields);
    var cond := KeyCondition(m);
    DoOne(q.bt, calls, Where(cond));
    DoOne(q.bt, calls + [Where(cond)], Bind(rec[k]));
    assert calls + KeyCalls(m, rec) == calls + [Where(cond)] + [Bind(rec[k])];
    q.AndWhere(cond);
    q.BindParam(rec[k]);
  }

  /** `corm_update_internal` and `corm_delete_internal` for one record. */
  method RunOne<T>(db: Store<T>, kind: Kind, m: Model, hook: Record -> bool, rec: Record) returns (ok: bool, aff: nat)
    requires |rec| == |m.fields| && KeyIndex(m.fields) < |m.fields|
    modifies db
    ensures db.saved == old(db.saved)
    ensures match Keyed(db.run, db.bt, kind, m, hook, rec, old(db.table))
            case Done(t, n) => ok && db.table == t && aff == n
            case Failed => !ok && db.table == old(db.table) && aff == 0
  {
    var q := Prepare(db.bt, kind, m, rec);
    if !Passes(hook, rec) {
      return false, 0;
    }
    q.op := OpFor(kind, m);
    var sql := BuildSql(q.AsClauses(), db.bt);
    ok := db.Exec(sql, q.params);
    aff := if ok then db.rows else 0;
  }

  /** `corm_update_batch` (kind Updating) and `corm_delete_batch` (kind Deleting). */
  method RunBatch<T>(db: Store<T>, kind: Kind, m: Model, hook: Record -> bool, recs: seq<Record>)
    returns (err: Error, affected: nat)
    requires Records(m, recs)
    modifies db
    ensures err.NullArgument? <==> recs == []
    ensures err.Mismatch? <==> recs != [] && KeyIndex(m.fields) == |m.fields|
    ensures if err.NullArgument? || err.Mismatch?
            then db.table == old(db.table) && db.saved == old(db.saved) && affected == 0
            else db.saved == None
    // all: the table is the left fold of the keyed operations, and the count is their sum
    ensures recs != [] && KeyIndex(m.fields) < |m.fields| ==>
              match KeyedAll(db.run, db.bt, kind, m, hook, recs, old(db.table))
              case Done(t, n) => err.Ok? && db.table == t && affected == n
              case Failed => err.StatementFailed?
    // or nothing, when BEGIN succeeded: then the table is what it was when the transaction began, which may be
    // one of the caller's; otherwise what was done before the failure stays
    ensures err.StatementFailed? ==>
              exists n :: 0 <= n < |recs|
                && KeyedAll(db.run, db.bt, kind, m, hook, recs[..n + 1], old(db.table)).Failed?
                && var before := KeyedAll(db.run, db.bt, kind, m, hook, recs[..n], old(db.table));
                   before.Done? && affected == before.rows
                   && db.table == match Begun(db.bt, db.begins, old(db.saved), old(db.table))
                                  case Some(t) => t
                                  case None => before.table
  {
    if |recs| == 0 {
      return NullArgument, 0;
    }
    if KeyIndex(m.fields) == |m.fields| {
      return Mismatch, 0;
    }
    db.Begin();
    var done;
    done, affected := RunUntilFailure(db, kind, m, hook, recs);
    if done < |recs| {
      FailedPrefix(db.run, db.bt, kind, m, hook, recs, old(db.table), done + 1);
      db.Rollback();
      return StatementFailed, affected;
    }
    assert recs[..|recs|] == recs;
    db.Commit();
    return Ok, affected;
  }

  /** The loop over the records; it ends at the first failure. */
  method RunUntilFailure<T>(db: Store<T>, kind: Kind, m: Model, hook: Record -> bool, recs: seq<Record>)
    returns (done: nat, affected: nat)
    requires Records(m, recs) && KeyIndex(m.fields) < |m.fields|
    modifies db
    ensures db.saved == old(db.saved) && done <= |recs|
    ensures KeyedAll(db.run, db.bt, kind, m, hook, recs[..done], old(db.table)) == Done(db.table, affected)
    ensures done < |recs| ==> KeyedAll(db.run, db.bt, kind, m, hook, recs[..done + 1], old(db.table)).Failed?
  {
    hide InsertValues, KeyIndex, Keyed, RowsFor;
    done, affected := 0, 0;
    while done < |recs|
      invariant done <= |recs| && db.saved == old(db.saved)
      invariant KeyedAll(db.run, db.bt, kind, m, hook, recs[..done], old(db.table)) == Done(db.table, affected)
    {
      assert recs[..done + 1][..done] == recs[..done];
      var ok, aff := RunOne(db, kind, m, hook, recs[done]);
      if !ok {
        return;
      }
      affected := affected + aff;
      done := done + 1;
    }
  }
}
