/**
 The query object: its methods update the clause buffers and parameters in place, as module `QueryCalls`
 says; `corm_find` and `corm_query_count` build the statement from them.
*/
module Query {
  import opened Common
  import opened SqlText
  import opened Builder
  import opened Dialects
  import opened QueryCalls
  import opened Conditions
  import opened FindFilter

  /** The index of the first field flagged for soft deletion, or the number of fields. */
  function SoftIndex(fs: seq<Field>): (i: nat)
    ensures i <= |fs| && (i < |fs| ==> fs[i].softDelete)
    ensures forall j :: 0 <= j < i ==> !fs[j].softDelete
  {
    if fs == [] || fs[0].softDelete then 0 else 1 + SoftIndex(fs[1..])
  }

  function SoftColumn(fs: seq<Field>): Option<string> {
    if SoftIndex(fs) < |fs| then Some(fs[SoftIndex(fs)].name) else None
  }

  class Query {
    const bt: Backend
    const model: Model
    var op: Op
    var distinct: bool
    var unscoped: bool
    var selectCols: string
    var where: string
    var joins: string
    var group: string
    var having: string
    var order: string
    var setClause: string
    var params: seq<Value>
    var limit: int
    var offset: int

    function State(): Buffers
      reads this
    {
      Buffers(where, setClause, params)
    }

    function AsClauses(): Clauses
      reads this
    {
      Clauses(op, model, distinct, selectCols, joins, where, group, having, order, setClause, limit, offset)
    }

    constructor (bt: Backend, model: Model)
      ensures this.bt == bt && this.model == model && State() == DoAll(bt, []) && !unscoped
      ensures AsClauses() == Clauses(Op.Select, model, false, "", "", "", "", "", "", "", 0, 0)
    {
      this.bt, this.model := bt, model;
      op, distinct, unscoped := Op.Select, false, false;
      selectCols, where, joins, group, having, order, setClause := "", "", "", "", "", "", "";
      params, limit, offset := [], 0, 0;
    }

    method AndWhere(cond: string)
      modifies this`where
      ensures State() == Do(bt, old(State()), Where(cond))
    {
      if |where| > 0 {
        where := where + " AND ";
      }
      where := where + cond;
    }

    method OrElse(cond: string)
      modifies this`where
      ensures State() == Do(bt, old(State()), OrWhere(cond))
    {
      if |where| > 0 {
        where := where + " OR ";
      }
      where := where + cond;
    }

    method IsNull(field: string)
      modifies this`where
      ensures State() == Do(bt, old(State()), WhereNull(field))
    {
      if !ValidIdentifier(field) {
        return;
      }
      if |where| > 0 {
        where := where + " AND ";
      }
      where := where + (field + " IS NULL");
    }

    method IsNotNull(field: string)
      modifies this`where
      ensures State() == Do(bt, old(State()), WhereNotNull(field))
    {
      if !ValidIdentifier(field) {
        return;
      }
      if |where| > 0 {
        where := where + " AND ";
      }
      where := where + (field + " IS NOT NULL");
    }

    method In(field: string, vals: seq<Value>)
      modifies this`where, this`params
      ensures State() == Do(bt, old(State()), WhereIn(field, vals))
    {
      if !ValidIdentifier(field) || |vals| == 0 {
        return;
      }
      if |where| > 0 {
        where := where + " AND ";
      }
      var clause := field + " IN (";
      var list := BindList(vals);
      where := where + (clause + (list + ")"));
    }

    method BindList(vals: seq<Value>) returns (list: string)
      modifies this`params
      ensures list == InList(bt, |vals|, |old(params)|) && params == old(params) + vals
    {
      ghost var start := |params|;
      list := "";
      assert InList(bt, 0, start) == "";
      for i := 0 to |vals|
        invariant params == old(params) + vals[..i] && list == InList(bt, i, start)
      {
        HolesStep(bt, i, start);
        var separator := "";
        if i > 0 {
          separator := ", ";
        }
        list := list + (separator + Placeholder(bt, |params|));
        params := params + [vals[i]];
        assert vals[..i + 1] == vals[..i] + [vals[i]];
      }
      assert vals[..|vals|] == vals;
    }

    method Between(field: string, min: Value, max: Value)
      modifies this`where, this`params
      ensures State() == Do(bt, old(State()), WhereBetween(field, min, max))
    {
      if !ValidIdentifier(field) {
        return;
      }
      if |where| > 0 {
        where := where + " AND ";
      }
      var clause := field + " BETWEEN ";
      var first := Placeholder(bt, |params|);
      params := params + [min];
      var second := Placeholder(bt, |params|);
      params := params + [max];
      assert params == old(params) + [min, max];
      where := where + (clause + (first + (" AND " + second)));
    }

    method BindParam(v: Value)
      modifies this`params
      ensures State() == Do(bt, old(State()), Bind(v))
    {
      params := params + [v];
    }

    method SetColumn(field: string, v: Value)
      modifies this`setClause, this`params, this`op
      ensures State() == Do(bt, old(State()), Set(field, v))
      ensures op == if ValidIdentifier(field) then Update else old(op)
    {
      if !ValidIdentifier(field) {
        return;
      }
      if |setClause| > 0 {
        setClause := setClause + ", ";
      }
      setClause := setClause + ((Quoted(bt, field) + " = ") + Placeholder(bt, |params|));
      params := params + [v];
      op := Update;
    }

    method SetClause(clause: string)
      modifies this`setClause, this`op
      ensures State() == Do(bt, old(State()), SetRaw(clause)) && op == Update
    {
      setClause := clause;
      op := Update;
    }

    /** `corm_find`: adds the soft-delete filter, unless the query is unscoped, and builds a SELECT. */
    method Find() returns (sql: string)
      modifies this`where, this`op
      ensures FindScopes(bt, model.fields, unscoped, old(State()), State())
      ensures AsClauses() == old(AsClauses()).(op := Op.Select, where := where)
      ensures sql == Built(bt, AsClauses())
    {
      AddFilter();
      op := Op.Select;
      sql := BuildSql(AsClauses(), bt);
    }

    method AddFilter()
      modifies this`where
      ensures FindScopes(bt, model.fields, unscoped, old(State()), State())
    {
      hide FindScopes;
      if unscoped {
        NothingScoped(bt, model.fields, unscoped, State());
        return;
      }
      for i := 0 to |model.fields|
        invariant State() == old(State())
        invariant forall j :: 0 <= j < i ==> !model.fields[j].softDelete
      {
        if model.fields[i].softDelete {
          IsNull(model.fields[i].name);
          FirstScoped(bt, model.fields, old(State()), i);
          return;
        }
      }
      NothingScoped(bt, model.fields, unscoped, State());
    }

    /** `corm_delete`: with a soft-delete column an UPDATE that sets it, bound after everything else. */
    method Delete() returns (sql: string)
      modifies this`setClause, this`params, this`op
      ensures var soft := SoftColumn(model.fields);
              && State() == (if soft.None? then old(State()) else Do(bt, old(State()), Set(soft.value, Str("deleted"))))
              && op == (if soft.None? then Op.Delete else Op.Update)
      ensures AsClauses() == old(AsClauses()).(op := op, setClause := setClause)
      ensures sql == Built(bt, AsClauses())
    {
      for i := 0 to |model.fields|
        invariant State() == old(State()) && AsClauses() == old(AsClauses())
        invariant forall j :: 0 <= j < i ==> !model.fields[j].softDelete
      {
        if model.fields[i].softDelete {
          assert SoftIndex(model.fields) == i;
          SetColumn(model.fields[i].name, Str("deleted"));
          op := Op.Update;
          sql := BuildSql(AsClauses(), bt);
          return;
        }
      }
      op := Op.Delete;
      sql := BuildSql(AsClauses(), bt);
    }

    /** `corm_query_count`: the same rows, counted; the selected columns are put back. */
    method Count() returns (sql: string)
      modifies this`where, this`op, this`selectCols
      ensures FindScopes(bt, model.fields, unscoped, old(State()), State())
      ensures AsClauses() == old(AsClauses()).(op := Op.Select, where := where)
      ensures sql == Built(bt, AsClauses().(selectCols := "COUNT(*)"))
    {
      var oldCols := selectCols;
      selectCols := "COUNT(*)";
      sql := Find();
      selectCols := oldCols;
    }
  }
}
