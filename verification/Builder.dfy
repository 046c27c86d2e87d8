/**
 `corm_build_sql`: the text of a statement from the clause buffers of a query, and what a database reads in
 that text.
*/
module Builder {
  import opened Common
  import opened SqlText

  datatype Op = Select | Insert | Update | Delete

  datatype Field = Field(name: string, primary: bool, autoInc: bool, softDelete: bool)

  datatype Model = Model(table: string, fields: seq<Field>, primaryKey: Option<string>)

  /** The part of a query object that the builder reads. */
  datatype Clauses = Clauses(
    op: Op, model: Model, distinct: bool, selectCols: string, joins: string, where: string,
    group: string, having: string, order: string, setClause: string, limit: int, offset: int)

  // ----- The statement as tokens

  /** The columns an INSERT fills, and those an UPDATE without a SET clause sets. */
  function InsertColumns(fs: seq<Field>): seq<string> {
    if fs == [] then []
    else
      var last := |fs| - 1;
      InsertColumns(fs[..last]) + if fs[last].autoInc then [] else [fs[last].name]
  }

  function UpdateColumns(fs: seq<Field>): seq<string> {
    if fs == [] then []
    else
      var last := |fs| - 1;
      UpdateColumns(fs[..last]) + if fs[last].primary then [] else [fs[last].name]
  }

  function Comma(before: nat): string {
    if before == 0 then "" else ", "
  }

  /** Identifiers, holes and assignments, separated by commas. */
  function ColumnList<H>(names: seq<string>): seq<Token<H>> {
    if names == [] then []
    else
      var last := |names| - 1;
      ColumnList(names[..last]) + (Text(Comma(last)) + [Ident(names[last])])
  }

  function HoleList<H>(hs: seq<H>): seq<Token<H>> {
    if hs == [] then []
    else
      var last := |hs| - 1;
      HoleList(hs[..last]) + (Text(Comma(last)) + [Hole(hs[last])])
  }

  function Assignments<H>(names: seq<string>, hs: seq<H>): seq<Token<H>>
    requires |names| == |hs|
  {
    if names == [] then []
    else
      var last := |names| - 1;
      Assignments(names[..last], hs[..last])
      + (Text(Comma(last)) + ([Ident(names[last])] + (Text(" = ") + [Hole(hs[last])])))
  }

  function Optional(prefix: string, clause: string): string {
    if clause == "" then "" else prefix + clause
  }

  function Tail(q: Clauses): string {
    Optional(" GROUP BY ", q.group) + Optional(" HAVING ", q.having) + Optional(" ORDER BY ", q.order) + Limits(q)
  }

  function Limits(q: Clauses): string {
    if q.limit > 0 || q.offset > 0 then
      " LIMIT " + FormatInt(q.limit) + if q.offset > 0 then (" OFFSET " + FormatInt(q.offset)) else ""
    else ""
  }

  function SelectHead(q: Clauses): string {
    "SELECT " + (if q.distinct then "DISTINCT " else "") + (if q.selectCols == "" then "*" else q.selectCols) + " FROM "
  }

  function WherePart<H>(where: seq<Token<H>>): seq<Token<H>> {
    if where == [] then [] else Text(" WHERE ") + where
  }

  /** A statement whose SET clause, WHERE clause and row of values are given as tokens and holes. */
  function Assemble<H>(q: Clauses, set_: seq<Token<H>>, where: seq<Token<H>>, row: seq<H>): seq<Token<H>>
    requires q.op.Update? && set_ == [] ==> |row| == |UpdateColumns(q.model.fields)|
  {
    match q.op
    case Select =>
      Text(SelectHead(q))
      + ([Ident(q.model.table)] + (Text(Optional(" ", q.joins)) + (WherePart(where) + Text(Tail(q)))))
    case Insert =>
      Text("INSERT INTO ") + ([Ident(q.model.table)] + (Text(" (") + (ColumnList(InsertColumns(q.model.fields))
      + (Text(") VALUES (") + (HoleList(row) + Text(")"))))))
    case Update =>
      Text("UPDATE ") + ([Ident(q.model.table)] + (Text(" SET ")
      + ((if set_ != [] then set_ else Assignments(UpdateColumns(q.model.fields), row)) + WherePart(where))))
    case Delete =>
      Text("DELETE FROM ") + ([Ident(q.model.table)] + WherePart(where))
  }

  function Units(n: nat): seq<()> {
    seq(n, _ => ())
  }

  /** The length of the row of values: of an INSERT, or of an UPDATE that sets every column but the key. */
  function RowLength(q: Clauses): nat {
    if q.op.Insert? then |InsertColumns(q.model.fields)| else |UpdateColumns(q.model.fields)|
  }

  /** The statement with its holes not yet numbered; every `?` of a raw SET or WHERE clause is a hole. */
  function Skeleton(q: Clauses): seq<Token<()>> {
    Assemble(q, Scan(q.setClause), Scan(q.where), Units(RowLength(q)))
  }

  /** On Postgres an INSERT ends in a RETURNING clause for the key. */
  function Returning(bt: Backend, q: Clauses): string {
    if q.op.Insert? && bt.Postgres? && q.model.primaryKey.Some? then
      " RETURNING " + Quoted(bt, q.model.primaryKey.value)
    else ""
  }

  // ----- Rendering part by part

  function Numbered<H>(bt: Backend, ts: seq<Token<H>>, start: nat): string {
    Render(bt, Number(ts, start))
  }

  lemma {:induction false} NumberedConcat<H>(bt: Backend, a: seq<Token<H>>, b: seq<Token<H>>, start: nat)
    ensures Numbered(bt, a + b, start) == Numbered(bt, a, start) + Numbered(bt, b, start + |Holes(a)|)
    ensures |Holes(a + b)| == |Holes(a)| + |Holes(b)|
  {
    NumberConcat(a, b, start);
    RenderConcat(bt, Number(a, start), Number(b, start + |Holes(a)|));
    HolesConcat(a, b);
  }

  /** What follows begins with the next number. */
  lemma {:induction false} NumberedThen<H>(bt: Backend, a: seq<Token<H>>, b: seq<Token<H>>, start: nat, text: string)
    requires Numbered(bt, b, start + |Holes(a)|) == text
    ensures Numbered(bt, a + b, start) == Numbered(bt, a, start) + text
    ensures |Holes(a + b)| == |Holes(a)| + |Holes(b)|
  {
    NumberedConcat(bt, a, b, start);
  }

  lemma {:induction false} Glue<H>(bt: Backend, all: seq<Token<H>>, a: seq<Token<H>>, b: seq<Token<H>>, start: nat,
                                   n: nat, text: string)
    requires all == a + b && |Holes(a)| == n && Numbered(bt, b, start + n) == text
    ensures Numbered(bt, all, start) == Numbered(bt, a, start) + text && |Holes(all)| == n + |Holes(b)|
  {
    NumberedConcat(bt, a, b, start);
  }

  lemma {:induction false} NumberedText<H>(bt: Backend, s: string, rest: seq<Token<H>>, start: nat)
    ensures Numbered<H>(bt, Text(s), start) == s && Holes<H>(Text(s)) == []
    ensures Numbered(bt, Text(s) + rest, start) == s + Numbered(bt, rest, start)
    ensures |Holes(Text(s) + rest)| == |Holes(rest)|
  {
    TextHasNoHoles<H>(s);
    NumberText<H>(s, start);
    RenderText(bt, s);
    assert Numbered<H>(bt, Text(s), start) == s;
    NumberedConcat(bt, Text(s), rest, start);
  }

  lemma {:induction false} NumberText<H>(s: string, start: nat)
    ensures Number<H>(Text<H>(s), start) == Text<nat>(s)
  {
    if s != "" {
      var ts: seq<Token<H>> := Text(s);
      assert ts[1..] == Text(s[1..]);
      NumberText<H>(s[1..], start);
    }
  }

  function Quoted(bt: Backend, name: string): string {
    Quote(bt) + name + Quote(bt)
  }

  lemma {:induction false} NumberedIdent<H>(bt: Backend, name: string, rest: seq<Token<H>>, start: nat)
    ensures Numbered<H>(bt, [Ident(name)], start) == Quoted(bt, name)
    ensures Numbered(bt, [Ident(name)] + rest, start) == Quoted(bt, name) + Numbered(bt, rest, start)
    ensures |Holes([Ident(name)] + rest)| == |Holes(rest)|
  {
    assert ([Ident(name)] + rest)[1..] == rest;
    assert Number<H>([Ident(name)], start) == [Ident(name)];
    assert Number([Ident(name)] + rest, start) == [Ident(name)] + Number(rest, start);
    assert Render(bt, [Ident(name)]) == Quoted(bt, name) + Render(bt, []);
    RenderConcat(bt, [Ident(name)], Number(rest, start));
  }

  lemma {:induction false} NumberedHole<H>(bt: Backend, h: H, start: nat)
    ensures Numbered<H>(bt, [Hole(h)], start) == Placeholder(bt, start) && Holes<H>([Hole(h)]) == [h]
  {
    assert Number<H>([Hole(h)], start) == [Hole(start)];
    assert Render(bt, [Hole(start)]) == Placeholder(bt, start) + Render(bt, []);
  }

  // ----- The builder

  /** `append_with_placeholders`. */
  method AppendWithPlaceholders(sql: string, bt: Backend, text: string, start: nat) returns (out: string, n: nat)
    ensures out == sql + Numbered(bt, Scan(text), start)
    ensures n == |Holes(Scan(text))|
  {
    hide Number, Placeholder, Quote, Scan;
    out := sql;
    var pi, pos := start, 0;
    while pos < |text|
      invariant 0 <= pos <= |text| && pi == start + |Holes(Scan(text[..pos]))|
      invariant out == sql + Numbered(bt, Scan(text[..pos]), start)
    {
      var qm := FindMark(text, pos);
      ScanRun(bt, text, pos, qm, start);
      out := out + text[pos..qm];
      if qm == |text| {
        pos := qm;
        break;
      }
      ScanMark(bt, text, qm, start);
      out := out + Placeholder(bt, pi);
      pi := pi + 1;
      pos := qm + 1;
    }
    assert text[..pos] == text;
    n := pi - start;
  }

  lemma {:induction false} ScanRun(bt: Backend, text: string, pos: nat, qm: nat, start: nat)
    requires pos <= qm <= |text| && forall i :: pos <= i < qm ==> text[i] != '?'
    ensures Numbered(bt, Scan(text[..qm]), start) == Numbered(bt, Scan(text[..pos]), start) + text[pos..qm]
    ensures |Holes(Scan(text[..qm]))| == |Holes(Scan(text[..pos]))|
  {
    var a, b := Scan(text[..pos]), Text<()>(text[pos..qm]);
    assert Scan(text[..qm]) == a + b;
    NumberedConcat(bt, a, b, start);
    NumberedText<()>(bt, text[pos..qm], [], start + |Holes(a)|);
  }

  lemma {:induction false} ScanMark(bt: Backend, text: string, qm: nat, start: nat)
    requires qm < |text| && text[qm] == '?'
    ensures Numbered(bt, Scan(text[..qm + 1]), start)
            == Numbered(bt, Scan(text[..qm]), start) + Placeholder(bt, start + |Holes(Scan(text[..qm]))|)
    ensures |Holes(Scan(text[..qm + 1]))| == |Holes(Scan(text[..qm]))| + 1
  {
    var a := Scan(text[..qm]);
    assert Scan(text[..qm + 1]) == a + [Hole(())];
    NumberedConcat(bt, a, [Hole(())], start);
    NumberedHole(bt, (), start + |Holes(a)|);
  }

  /** `strchr(text + pos, '?')`, or the end of the text. */
  method FindMark(text: string, pos: nat) returns (qm: nat)
    requires pos <= |text|
    ensures pos <= qm <= |text| && (qm < |text| ==> text[qm] == '?')
    ensures forall i :: pos <= i < qm ==> text[i] != '?'
  {
    qm := pos;
    while qm < |text| && text[qm] != '?'
      invariant pos <= qm <= |text| && forall i :: pos <= i < qm ==> text[i] != '?'
    {
      qm := qm + 1;
    }
  }

  method CountMarks(text: string) returns (n: nat)
    ensures n == |Holes(Scan(text))|
  {
    n := 0;
    for i := 0 to |text|
      invariant n == |Holes(Scan(text[..i]))|
    {
      assert Scan(text[..i + 1]) == Scan(text[..i]) + [Scan(text)[i]];
      HolesConcat(Scan(text[..i]), [Scan(text)[i]]);
      if text[i] == '?' {
        n := n + 1;
      }
    }
    assert text[..|text|] == text;
  }

  method AppendWhere(sql: string, bt: Backend, where: string, start: nat) returns (out: string)
    ensures out == sql + Numbered(bt, WherePart(Scan(where)), start)
  {
    out := sql;
    if |where| > 0 {
      out := out + " WHERE ";
      var n;
      out, n := AppendWithPlaceholders(out, bt, where, start);
      NumberedText(bt, " WHERE ", Scan(where), start);
    } else {
      assert Scan(where) == [];
    }
  }

  method BuildSelect(q: Clauses, bt: Backend) returns (sql: string)
    requires q.op.Select?
    ensures sql == Numbered(bt, Skeleton(q), 0)
  {
    sql := BuildHead(q);
    sql := sql + Quoted(bt, q.model.table);
    if |q.joins| > 0 {
      sql := sql + (" " + q.joins);
    }
    assert sql == SelectHead(q) + Quoted(bt, q.model.table) + Optional(" ", q.joins);
    sql := AppendWhere(sql, bt, q.where, 0);
    sql := AppendTail(sql, q);
    AssociateRight(SelectHead(q), Quoted(bt, q.model.table), Optional(" ", q.joins),
                   Numbered(bt, WherePart(Scan(q.where)), 0), Tail(q));
    SelectParts(bt, SelectHead(q), q.model.table, Optional(" ", q.joins), WherePart(Scan(q.where)), Tail(q));
  }

  method BuildHead(q: Clauses) returns (sql: string)
    ensures sql == SelectHead(q)
  {
    sql := "SELECT ";
    if q.distinct {
      sql := sql + "DISTINCT ";
    }
    if |q.selectCols| > 0 {
      sql := sql + q.selectCols;
    } else {
      sql := sql + "*";
    }
    sql := sql + " FROM ";
  }

  method AppendTail(sql: string, q: Clauses) returns (out: string)
    ensures out == sql + Tail(q)
  {
    var tail := "";
    if |q.group| > 0 {
      tail := " GROUP BY " + q.group;
    }
    assert tail == Optional(" GROUP BY ", q.group);
    if |q.having| > 0 {
      tail := tail + (" HAVING " + q.having);
    }
    assert tail == Optional(" GROUP BY ", q.group) + Optional(" HAVING ", q.having);
    if |q.order| > 0 {
      tail := tail + (" ORDER BY " + q.order);
    }
    assert tail == Optional(" GROUP BY ", q.group) + Optional(" HAVING ", q.having) + Optional(" ORDER BY ", q.order);
    if q.limit > 0 || q.offset > 0 {
      var limits := " LIMIT " + FormatInt(q.limit);
      if q.offset > 0 {
        limits := limits + (" OFFSET " + FormatInt(q.offset));
      }
      tail := tail + limits;
    }
    out := sql + tail;
  }

  lemma {:induction false} SelectParts<H>(bt: Backend, head: string, table: string, joins: string,
                                          where: seq<Token<H>>, tail: string)
    ensures Numbered(bt, Text(head) + ([Ident(table)] + (Text(joins) + (where + Text(tail)))), 0)
            == head + (Quoted(bt, table) + (joins + (Numbered(bt, where, 0) + tail)))
  {
    NumberedText<H>(bt, tail, [], |Holes(where)|);
    NumberedConcat(bt, where, Text(tail), 0);
    TableParts(bt, head, table, joins, where + Text(tail));
  }

  method BuildDelete(q: Clauses, bt: Backend) returns (sql: string)
    requires q.op.Delete?
    ensures sql == Numbered(bt, Skeleton(q), 0)
  {
    hide Number, Render, Scan;
    sql := "DELETE FROM ";
    sql := sql + Quoted(bt, q.model.table);
    sql := AppendWhere(sql, bt, q.where, 0);
    NumberedIdent(bt, q.model.table, WherePart(Scan(q.where)), 0);
    NumberedText(bt, "DELETE FROM ", [Ident(q.model.table)] + WherePart(Scan(q.where)), 0);
  }

  // ----- INSERT and UPDATE

  lemma {:induction false} ColumnItem(bt: Backend, n: nat, name: string, k: nat)
    ensures Numbered<()>(bt, Text(Comma(n)) + [Ident(name)], k) == Comma(n) + Quoted(bt, name)
  {
    NumberedText<()>(bt, Comma(n), [Ident(name)], k);
    NumberedIdent<()>(bt, name, [], k);
  }

  lemma {:induction false} ColumnStep(bt: Backend, names: seq<string>, name: string)
    ensures Numbered<()>(bt, ColumnList(names + [name]), 0)
            == Numbered<()>(bt, ColumnList(names), 0) + (Comma(|names|) + Quoted(bt, name))
  {
    var all := names + [name];
    assert all[..|names|] == names;
    var list: seq<Token<()>> := ColumnList(names);
    var item: seq<Token<()>> := Text(Comma(|names|)) + [Ident(name)];
    NumberedConcat(bt, list, item, 0);
    ColumnsHaveNoHoles<()>(names);
    ColumnItem(bt, |names|, name, 0);
  }

  lemma {:induction false} ColumnsHaveNoHoles<H>(names: seq<string>)
    ensures Holes<H>(ColumnList(names)) == []
  {
    if names != [] {
      var last := |names| - 1;
      ColumnsHaveNoHoles<H>(names[..last]);
      HolesConcat<H>(ColumnList(names[..last]), Text(Comma(last)) + [Ident(names[last])]);
      HolesConcat<H>(Text(Comma(last)), [Ident(names[last])]);
      TextHasNoHoles<H>(Comma(last));
    }
  }

  lemma {:induction false} HoleListHoles<H>(hs: seq<H>)
    ensures Holes(HoleList(hs)) == hs
  {
    if hs != [] {
      var last := |hs| - 1;
      HoleListHoles(hs[..last]);
      TextHasNoHoles<H>(Comma(last));
      HolesConcat<H>(HoleList(hs[..last]), Text(Comma(last)) + [Hole(hs[last])]);
      HolesConcat<H>(Text(Comma(last)), [Hole(hs[last])]);
    }
  }

  lemma {:induction false} HoleListCount<H>(hs: seq<H>)
    ensures |Holes(HoleList(hs))| == |hs|
  {
    HoleListHoles(hs);
  }

  lemma {:induction false} HoleStep<H>(bt: Backend, hs: seq<H>, h: H, start: nat)
    ensures Numbered(bt, HoleList(hs + [h]), start)
            == Numbered(bt, HoleList(hs), start) + (Comma(|hs|) + Placeholder(bt, start + |hs|))
  {
    hide HoleList, Numbered, Placeholder;
    HoleListStep(hs, h);
    HoleListCount(hs);
    HoleItem(bt, |hs|, h, start + |hs|);
    HoleGlue(bt, hs, h, start);
  }

  lemma {:induction false} HoleGlue<H>(bt: Backend, hs: seq<H>, h: H, start: nat)
    requires HoleList(hs + [h]) == HoleList(hs) + (Text(Comma(|hs|)) + [Hole(h)]) && |Holes(HoleList(hs))| == |hs|
    requires Numbered(bt, Text(Comma(|hs|)) + [Hole(h)], start + |hs|) == Comma(|hs|) + Placeholder(bt, start + |hs|)
    ensures Numbered(bt, HoleList(hs + [h]), start)
            == Numbered(bt, HoleList(hs), start) + (Comma(|hs|) + Placeholder(bt, start + |hs|))
  {
    Glue(bt, HoleList(hs + [h]), HoleList(hs), Text(Comma(|hs|)) + [Hole(h)], start, |hs|,
         Comma(|hs|) + Placeholder(bt, start + |hs|));
  }

  lemma {:induction false} HoleListStep<H>(hs: seq<H>, h: H)
    ensures HoleList(hs + [h]) == HoleList(hs) + (Text(Comma(|hs|)) + [Hole(h)])
  {
    assert (hs + [h])[..|hs|] == hs;
  }

  lemma {:induction false} HoleItem<H>(bt: Backend, n: nat, h: H, k: nat)
    ensures Numbered(bt, Text(Comma(n)) + [Hole(h)], k) == Comma(n) + Placeholder(bt, k)
  {
    NumberedText<H>(bt, Comma(n), [Hole(h)], k);
    NumberedHole(bt, h, k);
  }

  lemma {:induction false} HolesStep(bt: Backend, n: nat, start: nat)
    ensures Numbered(bt, HoleList(Units(n + 1)), start)
            == Numbered(bt, HoleList(Units(n)), start) + (Comma(n) + Placeholder(bt, start + n))
  {
    HoleStep(bt, Units(n), (), start);
    assert Units(n) + [()] == Units(n + 1);
  }

  lemma {:induction false} AssignmentItem(bt: Backend, n: nat, name: string, k: nat)
    ensures var item: seq<Token<()>> := Text(Comma(n)) + ([Ident(name)] + (Text(" = ") + [Hole(())]));
            && Numbered(bt, item, k) == Comma(n) + (Quoted(bt, name) + (" = " + Placeholder(bt, k)))
            && |Holes(item)| == 1
  {
    var value: seq<Token<()>> := Text(" = ") + [Hole(())];
    NumberedText(bt, Comma(n), [Ident(name)] + value, k);
    NumberedIdent(bt, name, value, k);
    NumberedText<()>(bt, " = ", [Hole(())], k);
    NumberedHole(bt, (), k);
  }

  lemma {:induction false} AssignmentStep(bt: Backend, names: seq<string>, name: string)
    requires |Holes(Assignments(names, Units(|names|)))| == |names|
    ensures Numbered(bt, Assignments(names + [name], Units(|names| + 1)), 0)
            == Numbered(bt, Assignments(names, Units(|names|)), 0)
               + (Comma(|names|) + (Quoted(bt, name) + (" = " + Placeholder(bt, |names|))))
    ensures |Holes(Assignments(names + [name], Units(|names| + 1)))| == |names| + 1
  {
    var n := |names|;
    var all := names + [name];
    assert all[..n] == names && Units(n + 1)[..n] == Units(n);
    AssignmentItem(bt, n, name, n);
    NumberedConcat(bt, Assignments(names, Units(n)), Text(Comma(n)) + ([Ident(name)] + (Text(" = ") + [Hole(())])), 0);
  }

  method AppendColumns(bt: Backend, fs: seq<Field>) returns (out: string)
    ensures out == Numbered<()>(bt, ColumnList(InsertColumns(fs)), 0)
  {
    out := "";
    var count := 0;
    for i := 0 to |fs|
      invariant count == |InsertColumns(fs[..i])|
      invariant out == Numbered<()>(bt, ColumnList(InsertColumns(fs[..i])), 0)
    {
      assert fs[..i + 1][..i] == fs[..i];
      assert InsertColumns(fs[..i + 1])
             == if fs[i].autoInc then InsertColumns(fs[..i]) else InsertColumns(fs[..i]) + [fs[i].name];
      if !fs[i].autoInc {
        ColumnStep(bt, InsertColumns(fs[..i]), fs[i].name);
        var separator := "";
        if count > 0 {
          separator := ", ";
        }
        out := out + (separator + Quoted(bt, fs[i].name));
        count := count + 1;
      }
    }
    assert fs[..|fs|] == fs;
  }

  method AppendHoles(bt: Backend, fs: seq<Field>) returns (out: string)
    ensures out == Numbered(bt, HoleList(Units(|InsertColumns(fs)|)), 0)
  {
    out := "";
    var j := 0;
    for i := 0 to |fs|
      invariant j == |InsertColumns(fs[..i])|
      invariant out == Numbered(bt, HoleList(Units(j)), 0)
    {
      assert fs[..i + 1][..i] == fs[..i];
      assert InsertColumns(fs[..i + 1])
             == if fs[i].autoInc then InsertColumns(fs[..i]) else InsertColumns(fs[..i]) + [fs[i].name];
      if !fs[i].autoInc {
        HolesStep(bt, j, 0);
        var separator := "";
        if j > 0 {
          separator := ", ";
        }
        out := out + (separator + Placeholder(bt, j));
        j := j + 1;
      }
    }
    assert fs[..|fs|] == fs;
  }

  method BuildInsert(q: Clauses, bt: Backend) returns (sql: string)
    requires q.op.Insert?
    ensures sql == Numbered(bt, Skeleton(q), 0) + Returning(bt, q)
  {
    var columns := AppendColumns(bt, q.model.fields);
    var holes := AppendHoles(bt, q.model.fields);
    sql := InsertText(Quoted(bt, q.model.table), columns, holes);
    InsertSkeleton(bt, q, columns, holes);
    if bt.Postgres? && q.model.primaryKey.Some? {
      sql := sql + (" RETURNING " + Quoted(bt, q.model.primaryKey.value));
    }
  }

  method InsertText(table: string, columns: string, holes: string) returns (sql: string)
    ensures sql == "INSERT INTO " + (table + (" (" + (columns + (") VALUES (" + (holes + ")")))))
  {
    var end := holes + ")";
    end := ") VALUES (" + end;
    sql := "INSERT INTO ";
    sql := sql + table;
    sql := sql + " (";
    sql := sql + columns;
    sql := sql + end;
    AssociateRight("INSERT INTO ", table, " (", columns, end);
  }

  lemma {:induction false} InsertSkeleton(bt: Backend, q: Clauses, columns: string, holes: string)
    requires q.op.Insert?
    requires columns == Numbered<()>(bt, ColumnList(InsertColumns(q.model.fields)), 0)
    requires holes == Numbered(bt, HoleList(Units(RowLength(q))), 0)
    ensures Numbered(bt, Skeleton(q), 0)
            == "INSERT INTO " + (Quoted(bt, q.model.table) + (" (" + (columns + (") VALUES (" + (holes + ")")))))
  {
    InsertParts(bt, q.model.table, ColumnList(InsertColumns(q.model.fields)), HoleList(Units(RowLength(q))));
    ColumnsHaveNoHoles<()>(InsertColumns(q.model.fields));
  }

  lemma {:induction false} InsertParts<H>(bt: Backend, table: string, columns: seq<Token<H>>, holes: seq<Token<H>>)
    ensures Numbered(bt,
                     Text("INSERT INTO ")
                     + ([Ident(table)] + (Text(" (") + (columns + (Text(") VALUES (") + (holes + Text(")")))))), 0)
            == "INSERT INTO "
               + (Quoted(bt, table)
                  + (" (" + (Numbered(bt, columns, 0)
                             + (") VALUES (" + (Numbered(bt, holes, |Holes(columns)|) + ")")))))
  {
    var k := |Holes(columns)|;
    var values: seq<Token<H>> := Text(") VALUES (") + (holes + Text(")"));
    ValuesParts(bt, holes, k);
    NumberedConcat(bt, columns, values, 0);
    TableParts(bt, "INSERT INTO ", table, " (", columns + values);
  }

  lemma {:induction false} ValuesParts<H>(bt: Backend, holes: seq<Token<H>>, k: nat)
    ensures Numbered(bt, Text(") VALUES (") + (holes + Text(")")), k) == ") VALUES (" + (Numbered(bt, holes, k) + ")")
  {
    NumberedText<H>(bt, ")", [], k + |Holes(holes)|);
    NumberedConcat(bt, holes, Text(")"), k);
    NumberedText(bt, ") VALUES (", holes + Text(")"), k);
  }

  lemma {:induction false} TableParts<H>(bt: Backend, head: string, table: string, mid: string, rest: seq<Token<H>>)
    ensures Numbered(bt, Text(head) + ([Ident(table)] + (Text(mid) + rest)), 0)
            == head + (Quoted(bt, table) + (mid + Numbered(bt, rest, 0)))
  {
    NumberedText(bt, mid, rest, 0);
    NumberedIdent(bt, table, Text(mid) + rest, 0);
    NumberedText(bt, head, [Ident(table)] + (Text(mid) + rest), 0);
  }

  method AppendAssignments(bt: Backend, fs: seq<Field>) returns (out: string, count: nat)
    ensures count == |UpdateColumns(fs)|
    ensures out == Numbered(bt, Assignments(UpdateColumns(fs), Units(count)), 0)
    ensures |Holes(Assignments(UpdateColumns(fs), Units(count)))| == count
  {
    out, count := "", 0;
    for i := 0 to |fs|
      invariant count == |UpdateColumns(fs[..i])| == |Holes(Assignments(UpdateColumns(fs[..i]), Units(count)))|
      invariant out == Numbered(bt, Assignments(UpdateColumns(fs[..i]), Units(count)), 0)
    {
      assert fs[..i + 1][..i] == fs[..i];
      assert UpdateColumns(fs[..i + 1])
             == if fs[i].primary then UpdateColumns(fs[..i]) else UpdateColumns(fs[..i]) + [fs[i].name];
      if !fs[i].primary {
        AssignmentStep(bt, UpdateColumns(fs[..i]), fs[i].name);
        var separator := "";
        if count > 0 {
          separator := ", ";
        }
        out := out + (separator + (Quoted(bt, fs[i].name) + (" = " + Placeholder(bt, count))));
        count := count + 1;
      }
    }
    assert fs[..|fs|] == fs;
  }

  /** The number of the WHERE clause's first hole is the number of holes of the SET clause, in both forms. */
  method BuildUpdate(q: Clauses, bt: Backend) returns (sql: string)
    requires q.op.Update?
    ensures sql == Numbered(bt, Skeleton(q), 0)
  {
    var set_, whereOffset;
    if |q.setClause| > 0 {
      set_, whereOffset := AppendWithPlaceholders("", bt, q.setClause, 0);
      whereOffset := CountMarks(q.setClause);
    } else {
      set_, whereOffset := AppendAssignments(bt, q.model.fields);
    }
    sql := "UPDATE ";
    sql := sql + Quoted(bt, q.model.table);
    sql := sql + " SET ";
    sql := sql + set_;
    sql := AppendWhere(sql, bt, q.where, whereOffset);
    AssociateRight("UPDATE ", Quoted(bt, q.model.table), " SET ", set_,
                   Numbered(bt, WherePart(Scan(q.where)), whereOffset));
    UpdateParts(bt, q.model.table, SetPart(q), WherePart(Scan(q.where)));
  }

  function SetPart(q: Clauses): seq<Token<()>> {
    if Scan(q.setClause) != [] then Scan(q.setClause)
    else Assignments(UpdateColumns(q.model.fields), Units(|UpdateColumns(q.model.fields)|))
  }

  lemma {:induction false} UpdateParts<H>(bt: Backend, table: string, set_: seq<Token<H>>, where: seq<Token<H>>)
    ensures Numbered(bt, Text("UPDATE ") + ([Ident(table)] + (Text(" SET ") + (set_ + where))), 0)
            == "UPDATE "
               + (Quoted(bt, table) + (" SET " + (Numbered(bt, set_, 0) + Numbered(bt, where, |Holes(set_)|))))
  {
    NumberedConcat(bt, set_, where, 0);
    TableParts(bt, "UPDATE ", table, " SET ", set_ + where);
  }

  /** `corm_build_sql`. */
  method BuildSql(q: Clauses, bt: Backend) returns (sql: string)
    ensures sql == Numbered(bt, Skeleton(q), 0) + Returning(bt, q)
  {
    match q.op
    case Select => sql := BuildSelect(q, bt);
    case Insert => sql := BuildInsert(q, bt); return;
    case Update => sql := BuildUpdate(q, bt);
    case Delete => sql := BuildDelete(q, bt);
    assert sql == sql + Returning(bt, q);
  }
}
