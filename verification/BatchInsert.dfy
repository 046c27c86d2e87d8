/**
 `corm_create_batch`: multi-row INSERT statements against one INSERT for each record. What a statement does to
 the table is read off its text: the names in the first parentheses are the columns, and each parenthesised group
 of holes after them is a row.
*/
module BatchInsert {
  import opened Common
  import opened SqlText
  import opened Builder
  import opened Dialects
  import opened Identifiers
  import opened QueryCalls

  // ----- What an INSERT does

  /** The holes between each pair of parentheses; `open` are those since the last opening one. */
  function Groups(ps: seq<Piece>, open: seq<int>): seq<seq<int>> {
    if ps == [] then []
    else
      match ps[0]
      case Slot(i) => Groups(ps[1..], open + [i])
      case Lit(c) =>
        if c == '(' then Groups(ps[1..], [])
        else if c == ')' then [open] + Groups(ps[1..], [])
        else Groups(ps[1..], open)
  }

  /** The values for one row, in the order of the columns. */
  type Tuple = seq<Value>

  /** A table row: the value of each column that an INSERT fills. */
  type Row = map<string, Value>

  function TupleOf(group: seq<int>, params: seq<Value>): (tuple: Tuple)
    ensures |tuple| == |group|
  {
    seq(|group|, i requires 0 <= i < |group| => if 0 <= group[i] < |params| then params[group[i]] else Null)
  }

  function TuplesIn(groups: seq<seq<int>>, params: seq<Value>): seq<Tuple> {
    if groups == [] then [] else [TupleOf(groups[0], params)] + TuplesIn(groups[1..], params)
  }

  /** The pieces before the first parenthesis, in which the table is named. */
  function BeforeParens(ps: seq<Piece>): seq<Piece> {
    if ps == [] || ps[0] == Lit('(') then [] else [ps[0]] + BeforeParens(ps[1..])
  }

  /** The pieces between the first parentheses, which name the columns. */
  function InParens(ps: seq<Piece>): seq<Piece> {
    if ps == [] then [] else if ps[0] == Lit('(') then UpToClosing(ps[1..]) else InParens(ps[1..])
  }

  function UpToClosing(ps: seq<Piece>): seq<Piece> {
    if ps == [] || ps[0] == Lit(')') then [] else [ps[0]] + UpToClosing(ps[1..])
  }

  function TablesRead(bt: Backend, ps: seq<Piece>): seq<string> {
    Names(BeforeParens(ps), IdentifierQuote(bt), None)
  }

  function ColumnsRead(bt: Backend, ps: seq<Piece>): seq<string> {
    Names(InParens(ps), IdentifierQuote(bt), None)
  }

  /** Each value goes to the column in its place. */
  function Stored(columns: seq<string>, tuple: Tuple): Row
    requires |columns| == |tuple|
  {
    if columns == [] then map[]
    else
      var last := |columns| - 1;
      Stored(columns[..last], tuple[..last])[columns[last] := tuple[last]]
  }

  /** A statement with a tuple of another length is refused. */
  function StoredAll(columns: seq<string>, tuples: seq<Tuple>): seq<Row> {
    if exists i :: 0 <= i < |tuples| && |tuples[i]| != |columns| then []
    else seq(|tuples|, i requires 0 <= i < |tuples| => Stored(columns, tuples[i]))
  }

  /** The rows an INSERT adds: every group but the first, which is the column list. */
  function RowsAdded(bt: Backend, sql: string, params: seq<Value>): seq<Row> {
    var ps := Read(bt, sql, 0);
    var groups := Groups(ps, []);
    if groups == [] then [] else StoredAll(ColumnsRead(bt, ps), TuplesIn(groups[1..], params))
  }

  // ----- Models and records

  /** As `corm_validate_model` accepts it. */
  predicate ValidModel(m: Model) {
    && ValidIdentifier(m.table)
    && (forall i :: 0 <= i < |m.fields| ==> ValidIdentifier(m.fields[i].name))
    && (m.primaryKey.Some? ==> ValidIdentifier(m.primaryKey.value))
  }

  /** A record: the values of all fields. */
  type Record = seq<Value>

  /** The values that an INSERT binds, in field order. */
  function InsertValues(fs: seq<Field>, rec: Record): (tuple: Tuple)
    requires |rec| == |fs|
    ensures |tuple| == |InsertColumns(fs)|
  {
    if fs == [] then []
    else
      var last := |fs| - 1;
      InsertValues(fs[..last], rec[..last]) + if fs[last].autoInc then [] else [rec[last]]
  }

  predicate Records(m: Model, recs: seq<Record>) {
    forall i :: 0 <= i < |recs| ==> |recs[i]| == |m.fields|
  }

  function TuplesFor(m: Model, recs: seq<Record>): (ts: seq<Tuple>)
    requires Records(m, recs)
    ensures |ts| == |recs| && forall i :: 0 <= i < |ts| ==> ts[i] == InsertValues(m.fields, recs[i])
  {
    seq(|recs|, i requires 0 <= i < |recs| => InsertValues(m.fields, recs[i]))
  }

  function Flatten(tuples: seq<Tuple>): seq<Value> {
    if tuples == [] then [] else Flatten(tuples[..|tuples| - 1]) + tuples[|tuples| - 1]
  }

  /** No two fields have the same name. */
  predicate DistinctNames(fs: seq<Field>) {
    forall i, j :: 0 <= i < j < |fs| ==> fs[i].name != fs[j].name
  }

  /** The row of a record: under the name of every field that is not auto-increment, the value of the field. */
  function RecordRow(fs: seq<Field>, rec: Record): Row
    requires |rec| == |fs| && DistinctNames(fs)
  {
    map j | 0 <= j < |fs| && !fs[j].autoInc :: fs[j].name := rec[j]
  }

  function RowsFor(m: Model, recs: seq<Record>): (rows: seq<Row>)
    requires Records(m, recs) && DistinctNames(m.fields)
    ensures |rows| == |recs| && forall i :: 0 <= i < |rows| ==> rows[i] == RecordRow(m.fields, recs[i])
  {
    seq(|recs|, i requires 0 <= i < |recs| => RecordRow(m.fields, recs[i]))
  }

  // ----- The multi-row statement

  function RowTokens(columns: nat): seq<Token<()>> {
    Text("(") + (HoleList(Units(columns)) + Text(")"))
  }

  function ValueTokens(rows: nat, columns: nat): seq<Token<()>> {
    if rows == 0 then []
    else ValueTokens(rows - 1, columns) + (Text(Comma(rows - 1)) + RowTokens(columns))
  }

  function HeadTokens(m: Model): seq<Token<()>> {
    Text("INSERT INTO ") + ([Ident(m.table)] + (Text(" (") + (ColumnList(InsertColumns(m.fields)) + Text(") VALUES "))))
  }

  function BatchTokens(m: Model, rows: nat): seq<Token<()>> {
    HeadTokens(m) + ValueTokens(rows, |InsertColumns(m.fields)|)
  }

  /** The text of a batch of `rows` records. */
  function BatchSql(bt: Backend, m: Model, rows: nat): string {
    Numbered(bt, BatchTokens(m, rows), 0)
  }

  // ----- Reading it back

  predicate ParenFree(s: string) {
    forall i :: 0 <= i < |s| ==> s[i] != '(' && s[i] != ')'
  }

  lemma {:induction false} GroupsSkip(s: string, rest: seq<Piece>, open: seq<int>)
    requires ParenFree(s)
    ensures Groups(Lits(s) + rest, open) == Groups(rest, open)
  {
    if s == "" {
      assert Lits(s) + rest == rest;
    } else {
      GroupsSkip(s[1..], rest, open);
      assert (Lits(s) + rest)[1..] == Lits(s[1..]) + rest;
    }
  }

  lemma {:induction false} GroupsParens(c: char, rest: seq<Piece>, open: seq<int>)
    ensures Groups(Lits("(") + rest, open) == Groups(rest, [])
    ensures Groups(Lits(")") + rest, open) == [open] + Groups(rest, [])
  {
    assert (Lits("(") + rest)[1..] == rest && (Lits(")") + rest)[1..] == rest;
  }

  lemma {:induction false} HoleListPieces(bt: Backend, n: nat, start: nat)
    ensures Pieces(bt, HoleList(Units(n + 1)), start)
            == Pieces(bt, HoleList(Units(n)), start) + (Lits(Comma(n)) + [Slot(start + n)])
  {
    hide Pieces, Comma, Lits, Text, Holes;
    var comma: seq<Token<()>> := Text(Comma(n));
    assert Units(n + 1)[..n] == Units(n);
    HoleListHoles(Units(n));
    PiecesConcat(bt, HoleList(Units(n)), comma + [Hole(())], start);
    PiecesConcat(bt, comma, [Hole(())], start + n);
    PiecesText(bt, Comma(n), start + n);
    PiecesHole(bt, start + n);
  }

  /** Within a list of holes, each adds to the open group. */
  lemma {:induction false} GroupsHoles(bt: Backend, n: nat, start: nat, rest: seq<Piece>, open: seq<int>)
    ensures Groups(Pieces(bt, HoleList(Units(n)), start) + rest, open) == Groups(rest, open + Range(start, n))
  {
    hide *;
    if n == 0 {
      NoHolePieces(bt, start);
      assert [] + rest == rest;
      assert open + Range(start, 0) == open;
    } else {
      var last := n - 1;
      var list := Pieces(bt, HoleList(Units(last)), start);
      var tail := [Slot(start + last)] + rest;
      HoleListPieces(bt, last, start);
      AssociateInner(list, Lits(Comma(last)), [Slot(start + last)], rest);
      GroupsHoles(bt, last, start, Lits(Comma(last)) + tail, open);
      CommaFree(last);
      GroupsSkip(Comma(last), tail, open + Range(start, last));
      GroupsSlot(start + last, rest, open + Range(start, last));
      assert open + Range(start, last) + [start + last] == open + Range(start, n);
    }
  }

  lemma {:induction false} NoHolePieces(bt: Backend, start: nat)
    ensures Pieces(bt, HoleList(Units(0)), start) == []
  {}

  lemma {:induction false} GroupsSlot(k: nat, rest: seq<Piece>, open: seq<int>)
    ensures Groups([Slot(k)] + rest, open) == Groups(rest, open + [k])
  {}

  /** A row of holes is one group. */
  lemma {:induction false} GroupsRow(bt: Backend, columns: nat, start: nat, rest: seq<Piece>, open: seq<int>)
    ensures Groups(Pieces(bt, RowTokens(columns), start) + rest, open) == [Range(start, columns)] + Groups(rest, [])
  {
    hide Pieces;
    var close: seq<Token<()>> := Text(")");
    var list := HoleList(Units(columns));
    HoleListHoles(Units(columns));
    PiecesText(bt, "(", start);
    PiecesText(bt, ")", start + columns);
    PiecesConcat(bt, list, close, start);
    PiecesConcat(bt, Text("("), list + close, start);
    var tail := Lits(")") + rest;
    assert Pieces(bt, RowTokens(columns), start) + rest == Lits("(") + (Pieces(bt, list, start) + tail);
    GroupsParens('(', Pieces(bt, list, start) + tail, open);
    GroupsHoles(bt, columns, start, tail, []);
    assert [] + Range(start, columns) == Range(start, columns);
    GroupsParens(')', rest, Range(start, columns));
  }

  /** The groups of `rows` rows of holes: row r has the holes r * columns, r * columns + 1, ... */
  function RowGroups(rows: nat, columns: nat): (gs: seq<seq<int>>)
    ensures |gs| == rows
  {
    seq(rows, r requires 0 <= r < rows => Range(r * columns, columns))
  }

  lemma {:induction false} ValuesHoles(rows: nat, columns: nat)
    ensures |Holes(ValueTokens(rows, columns))| == rows * columns
  {
    hide Units;
    if rows > 0 {
      ValuesHoles(rows - 1, columns);
      var comma: seq<Token<()>> := Text(Comma(rows - 1));
      HolesConcat(ValueTokens(rows - 1, columns), comma + RowTokens(columns));
      HolesConcat(comma, RowTokens(columns));
      TextHasNoHoles<()>(Comma(rows - 1));
      RowHoles(columns);
      assert rows * columns == (rows - 1) * columns + columns;
    }
  }

  lemma {:induction false} RowHoles(columns: nat)
    ensures |Holes(RowTokens(columns))| == columns
  {
    var close: seq<Token<()>> := Text(")");
    TextHasNoHoles<()>("(");
    TextHasNoHoles<()>(")");
    HoleListHoles(Units(columns));
    HolesConcat(HoleList(Units(columns)), close);
    HolesConcat(Text("("), HoleList(Units(columns)) + close);
  }

  lemma {:induction false} ValuesPieces(bt: Backend, n: nat, columns: nat)
    ensures Pieces(bt, ValueTokens(n + 1, columns), 0)
            == Pieces(bt, ValueTokens(n, columns), 0) + (Lits(Comma(n)) + Pieces(bt, RowTokens(columns), n * columns))
  {
    var comma: seq<Token<()>> := Text(Comma(n));
    ValuesHoles(n, columns);
    PiecesConcat(bt, ValueTokens(n, columns), comma + RowTokens(columns), 0);
    PiecesConcat(bt, comma, RowTokens(columns), n * columns);
    PiecesText(bt, Comma(n), n * columns);
  }

  lemma {:induction false} GroupsValues(bt: Backend, rows: nat, columns: nat, rest: seq<Piece>)
    ensures Groups(Pieces(bt, ValueTokens(rows, columns), 0) + rest, []) == RowGroups(rows, columns) + Groups(rest, [])
  {
    if rows == 0 {
      NoValues(bt, columns, rest);
    } else {
      hide Pieces, ValueTokens, RowTokens, Lits, Comma, Groups, RowGroups;
      var last := rows - 1;
      var start := last * columns;
      var front := ValueTokens(last, columns);
      ValuesPieces(bt, last, columns);
      var row := Pieces(bt, RowTokens(columns), start) + rest;
      AssociateInner(Pieces(bt, front, 0), Lits(Comma(last)), Pieces(bt, RowTokens(columns), start), rest);
      GroupsValues(bt, last, columns, Lits(Comma(last)) + row);
      CommaFree(last);
      GroupsSkip(Comma(last), row, []);
      GroupsRow(bt, columns, start, rest, []);
      LastGroup(last, columns);
      Associate(RowGroups(last, columns), [Range(start, columns)], Groups(rest, []));
    }
  }

  lemma {:induction false} NoValues(bt: Backend, columns: nat, rest: seq<Piece>)
    ensures Groups(Pieces(bt, ValueTokens(0, columns), 0) + rest, []) == RowGroups(0, columns) + Groups(rest, [])
  {
    assert Pieces(bt, ValueTokens(0, columns), 0) + rest == rest;
  }

  lemma {:induction false} CommaFree(n: nat)
    ensures ParenFree(Comma(n))
  {}

  lemma {:induction false} LastGroup(rows: nat, columns: nat)
    ensures RowGroups(rows + 1, columns) == RowGroups(rows, columns) + [Range(rows * columns, columns)]
  {}

  lemma {:induction false} HoleFreeMeaning(bt: Backend, ts: seq<Token<nat>>)
    requires forall i :: 0 <= i < |ts| ==> !ts[i].Hole?
    ensures Meaning(bt, ts) == Lits(Render(bt, ts))
  {
    if ts != [] {
      HoleFreeMeaning(bt, ts[1..]);
      var first := RenderToken(bt, ts[0]);
      LitsConcat(first, Render(bt, ts[1..]));
      assert Lits(first) == match ts[0] { case Chr(c) => [Lit(c)] case _ => Lits(first) };
    }
  }

  lemma {:induction false} ColumnTokens(names: seq<string>)
    ensures forall i :: 0 <= i < |ColumnList<()>(names)| ==> !ColumnList<()>(names)[i].Hole?
  {
    if names != [] {
      ColumnTokens(names[..|names| - 1]);
    }
  }

  lemma {:induction false} ColumnsParenFree(bt: Backend, names: seq<string>)
    requires forall i :: 0 <= i < |names| ==> ParenFree(names[i])
    ensures ParenFree(Numbered<()>(bt, ColumnList(names), 0))
  {
    if names != [] {
      var last := |names| - 1;
      ColumnsParenFree(bt, names[..last]);
      ColumnStep(bt, names[..last], names[last]);
      assert names[..last] + [names[last]] == names;
      ItemParenFree(bt, last, names[last]);
      hide Numbered, Comma, Quoted, ColumnList;
      ParenFreeBoth(Numbered<()>(bt, ColumnList(names[..last]), 0), Comma(last) + Quoted(bt, names[last]));
    }
  }

  lemma {:induction false} ItemParenFree(bt: Backend, k: nat, name: string)
    requires ParenFree(name)
    ensures ParenFree(Comma(k) + Quoted(bt, name))
  {}

  lemma {:induction false} ParenFreeBoth(a: string, b: string)
    requires ParenFree(a) && ParenFree(b)
    ensures ParenFree(a + b)
  {}

  lemma {:induction false} ColumnPieces(bt: Backend, names: seq<string>)
    ensures Pieces(bt, ColumnList(names), 0) == Lits(Numbered<()>(bt, ColumnList(names), 0))
  {
    ColumnTokens(names);
    NumberShape<()>(ColumnList(names), 0);
    HoleFreeMeaning(bt, Number<()>(ColumnList(names), 0));
  }

  lemma {:induction false} ValidNames(bt: Backend, m: Model)
    requires ValidModel(m)
    ensures forall i :: 0 <= i < |InsertColumns(m.fields)| ==> ParenFree(InsertColumns(m.fields)[i])
    ensures forall i :: 0 <= i < |InsertColumns(m.fields)| ==> Plain(bt, InsertColumns(m.fields)[i])
    ensures ParenFree(m.table) && PlainModel(bt, m)
  {
    ColumnsPlain(bt, m.fields);
    ParenFreeColumns(m.fields);
  }

  lemma {:induction false} ParenFreeColumns(fs: seq<Field>)
    requires forall i :: 0 <= i < |fs| ==> ParenFree(fs[i].name)
    ensures forall i :: 0 <= i < |InsertColumns(fs)| ==> ParenFree(InsertColumns(fs)[i])
  {
    if fs != [] {
      ParenFreeColumns(fs[..|fs| - 1]);
    }
  }

  lemma {:induction false} TablePieces(bt: Backend, head: string, table: string, mid: string, rest: seq<Token<()>>)
    ensures Pieces(bt, Text(head) + ([Ident(table)] + (Text(mid) + rest)), 0)
            == Lits(head + (Quoted(bt, table) + mid)) + Pieces(bt, rest, 0)
  {
    hide *;
    PiecesText(bt, mid, 0);
    PiecesConcat(bt, Text(mid), rest, 0);
    PiecesIdent(bt, table, 0);
    PiecesConcat(bt, [Ident(table)], Text(mid) + rest, 0);
    PiecesText(bt, head, 0);
    PiecesConcat(bt, Text(head), [Ident(table)] + (Text(mid) + rest), 0);
    LitsConcat(Quoted(bt, table), mid);
    LitsConcat(head, Quoted(bt, table) + mid);
  }

  /** The pieces up to the values: text around the column list. */
  lemma {:induction false} HeadPieces(bt: Backend, m: Model)
    ensures Holes(HeadTokens(m)) == []
    ensures Pieces(bt, HeadTokens(m), 0)
            == Lits("INSERT INTO " + (Quoted(bt, m.table) + " ("))
               + (Lits(Numbered<()>(bt, ColumnList(InsertColumns(m.fields)), 0)) + Lits(") VALUES "))
  {
    var columns: seq<Token<()>> := ColumnList(InsertColumns(m.fields));
    var values: seq<Token<()>> := Text(") VALUES ");
    ColumnsHaveNoHoles<()>(InsertColumns(m.fields));
    PiecesText(bt, ") VALUES ", 0);
    ColumnPieces(bt, InsertColumns(m.fields));
    PiecesConcat(bt, columns, values, 0);
    TablePieces(bt, "INSERT INTO ", m.table, " (", columns + values);
    TableHoles("INSERT INTO ", m.table, " (", columns + values);
  }

  /** The column list is the first group, and it is empty. */
  lemma {:induction false} GroupsHead(bt: Backend, m: Model, rest: seq<Piece>)
    requires ValidModel(m)
    ensures Groups(Pieces(bt, HeadTokens(m), 0) + rest, []) == [[]] + Groups(rest, [])
  {
    ValidNames(bt, m);
    HeadPieces(bt, m);
    var columns := Numbered<()>(bt, ColumnList(InsertColumns(m.fields)), 0);
    ColumnsParenFree(bt, InsertColumns(m.fields));
    var before := "INSERT INTO " + (Quoted(bt, m.table) + " ");
    GroupsAround(before, columns, rest);
    HeadLits(Quoted(bt, m.table), before);
    AssociateInner(Lits(before + "("), Lits(columns), Lits(") VALUES "), rest);
  }

  lemma {:induction false} HeadLits(table: string, before: string)
    requires before == "INSERT INTO " + (table + " ")
    ensures "INSERT INTO " + (table + " (") == before + "("
  {}

  lemma {:induction false} GroupsAround(before: string, columns: string, rest: seq<Piece>)
    requires ParenFree(before) && ParenFree(columns)
    ensures Groups(Lits(before + "(") + (Lits(columns) + (Lits(") VALUES ") + rest)), []) == [[]] + Groups(rest, [])
  {
    var r1 := Lits(" VALUES ") + rest;
    var r2 := Lits(")") + r1;
    var r3 := Lits(columns) + r2;
    LitsConcat(before, "(");
    LitsConcat(")", " VALUES ");
    assert Lits(") VALUES ") + rest == r2;
    assert Lits(before + "(") + r3 == Lits(before) + (Lits("(") + r3);
    GroupsSkip(before, Lits("(") + r3, []);
    GroupsParens('(', r3, []);
    GroupsSkip(columns, r2, []);
    GroupsParens(')', r1, []);
    GroupsSkip(" VALUES ", rest, []);
  }

  // ----- The names

  lemma {:induction false} BeforeParensSkip(s: string, rest: seq<Piece>)
    requires ParenFree(s)
    ensures BeforeParens(Lits(s) + (Lits("(") + rest)) == Lits(s)
    ensures InParens(Lits(s) + (Lits("(") + rest)) == UpToClosing(rest)
  {
    var all := Lits(s) + (Lits("(") + rest);
    if s == "" {
      assert all[0] == Lit('(') && all[1..] == rest;
    } else {
      BeforeParensSkip(s[1..], rest);
      assert all[1..] == Lits(s[1..]) + (Lits("(") + rest) && all[0] == Lit(s[0]);
      assert Lits(s) == [Lit(s[0])] + Lits(s[1..]);
    }
  }

  lemma {:induction false} UpToClosingIs(s: string, rest: seq<Piece>)
    requires ParenFree(s)
    ensures UpToClosing(Lits(s) + (Lits(")") + rest)) == Lits(s)
  {
    var all := Lits(s) + (Lits(")") + rest);
    if s == "" {
      assert all[0] == Lit(')');
    } else {
      UpToClosingIs(s[1..], rest);
      assert all[1..] == Lits(s[1..]) + (Lits(")") + rest) && all[0] == Lit(s[0]);
      assert Lits(s) == [Lit(s[0])] + Lits(s[1..]);
    }
  }

  /** The head names the table and the columns. */
  lemma {:induction false} HeadNames(bt: Backend, m: Model, rest: seq<Piece>)
    requires ValidModel(m)
    ensures TablesRead(bt, Pieces(bt, HeadTokens(m), 0) + rest) == [m.table]
    ensures ColumnsRead(bt, Pieces(bt, HeadTokens(m), 0) + rest) == InsertColumns(m.fields)
  {
    hide Names, Pieces, Numbered, Quoted, Lits, BeforeParens, InParens, UpToClosing, HeadTokens;
    var columns := Numbered<()>(bt, ColumnList(InsertColumns(m.fields)), 0);
    var before := "INSERT INTO " + (Quoted(bt, m.table) + " ");
    ValidNames(bt, m);
    HeadAround(bt, m, rest);
    ColumnsParenFree(bt, InsertColumns(m.fields));
    QuotedParenFree(bt, m);
    BeforeParensSkip(before, Lits(columns) + (Lits(")") + (Lits(" VALUES ") + rest)));
    UpToClosingIs(columns, Lits(" VALUES ") + rest);
    TableNamed(bt, m);
    ColumnsNamed(bt, m);
  }

  lemma {:induction false} QuotedParenFree(bt: Backend, m: Model)
    requires ValidModel(m)
    ensures ParenFree("INSERT INTO " + (Quoted(bt, m.table) + " "))
  {}

  lemma {:induction false} HeadAround(bt: Backend, m: Model, rest: seq<Piece>)
    ensures var columns := Numbered<()>(bt, ColumnList(InsertColumns(m.fields)), 0);
            var before := "INSERT INTO " + (Quoted(bt, m.table) + " ");
            Pieces(bt, HeadTokens(m), 0) + rest
            == Lits(before) + (Lits("(") + (Lits(columns) + (Lits(")") + (Lits(" VALUES ") + rest))))
  {
    hide Pieces, Numbered, Quoted, HeadTokens, ColumnList, InsertColumns;
    HeadPieces(bt, m);
    var columns := Numbered<()>(bt, ColumnList(InsertColumns(m.fields)), 0);
    var before := "INSERT INTO " + (Quoted(bt, m.table) + " ");
    HeadLits(Quoted(bt, m.table), before);
    LitsConcat(before, "(");
    LitsConcat(")", " VALUES ");
    assert ")" + " VALUES " == ") VALUES ";
    hide Lits;
    HeadThenRest(Lits(before), Lits("("), Lits(columns), Lits(")"), Lits(" VALUES "), rest);
  }

  lemma {:induction false} HeadThenRest(a: seq<Piece>, b: seq<Piece>, c: seq<Piece>, d: seq<Piece>, e: seq<Piece>,
                                        rest: seq<Piece>)
    ensures ((a + b) + (c + (d + e))) + rest == a + (b + (c + (d + (e + rest))))
  {}

  lemma {:induction false} TableNamed(bt: Backend, m: Model)
    requires ValidModel(m)
    ensures Names(Lits("INSERT INTO " + (Quoted(bt, m.table) + " ")), IdentifierQuote(bt), None) == [m.table]
  {
    var q, name := IdentifierQuote(bt), Quoted(bt, m.table);
    assert QuoteFree(q, m.table) && QuoteFree(q, "INSERT INTO ") && QuoteFree(q, " ");
    LitsConcat("INSERT INTO ", name + " ");
    LitsConcat(name, " ");
    NamesSkip(q, "INSERT INTO ", Lits(name) + Lits(" "));
    NameRead(bt, m.table, Lits(" "));
    NamesSkip(q, " ", []);
    assert Lits(" ") + [] == Lits(" ");
  }

  lemma {:induction false} ColumnsNamed(bt: Backend, m: Model)
    requires ValidModel(m)
    ensures Names(Lits(Numbered<()>(bt, ColumnList(InsertColumns(m.fields)), 0)), IdentifierQuote(bt), None)
            == InsertColumns(m.fields)
  {
    var columns, names := Lits(Numbered<()>(bt, ColumnList(InsertColumns(m.fields)), 0)), InsertColumns(m.fields);
    ColumnsQuoteFree(bt, m.fields);
    ListRead(bt, names, []);
    assert columns + [] == columns && names + [] == names;
  }

  lemma {:induction false} ColumnsQuoteFree(bt: Backend, fs: seq<Field>)
    requires forall i :: 0 <= i < |fs| ==> ValidIdentifier(fs[i].name)
    ensures AllQuoteFree(bt, InsertColumns(fs))
  {
    if fs != [] {
      ColumnsQuoteFree(bt, fs[..|fs| - 1]);
    }
  }

  lemma {:induction false} BatchNames(bt: Backend, m: Model, rows: nat, suffix: string)
    requires ValidModel(m) && SpacedFree(bt, suffix)
    ensures TablesRead(bt, Read(bt, BatchSql(bt, m, rows) + suffix, 0)) == [m.table]
    ensures ColumnsRead(bt, Read(bt, BatchSql(bt, m, rows) + suffix, 0)) == InsertColumns(m.fields)
  {
    BatchPieces(bt, m, rows, suffix);
    hide *;
    var values := Pieces(bt, ValueTokens(rows, |InsertColumns(m.fields)|), 0);
    Associate(Pieces(bt, HeadTokens(m), 0), values, Lits(suffix));
    HeadNames(bt, m, values + Lits(suffix));
  }

  lemma {:induction false} CleanBatch(bt: Backend, m: Model, rows: nat)
    requires ValidModel(m)
    ensures Clean(bt, BatchTokens(m, rows))
  {
    hide ValueTokens, ColumnList, Comma, PlainModel;
    var columns: seq<Token<()>> := ColumnList(InsertColumns(m.fields));
    var values: seq<Token<()>> := Text(") VALUES ");
    ValidNames(bt, m);
    CleanColumns<()>(bt, InsertColumns(m.fields));
    CleanText<()>(bt, ") VALUES ");
    CleanConcat(bt, columns, values);
    CleanTable(bt, "INSERT INTO ", m.table, " (", columns + values);
    CleanValues(bt, rows, |InsertColumns(m.fields)|);
    HeadEnds(m);
    CleanConcat(bt, HeadTokens(m), ValueTokens(rows, |InsertColumns(m.fields)|));
  }

  lemma {:induction false} HeadEnds(m: Model)
    ensures HeadTokens(m) != [] && !HeadTokens(m)[|HeadTokens(m)| - 1].Hole?
  {
    var inner: seq<Token<()>> := ColumnList(InsertColumns(m.fields)) + Text(") VALUES ");
    assert inner[|inner| - 1] == Chr(' ');
    var all := [Ident(m.table)] + (Text(" (") + inner);
    assert all[|all| - 1] == Chr(' ');
    assert HeadTokens(m)[|HeadTokens(m)| - 1] == Chr(' ');
  }

  lemma {:induction false} CleanValues(bt: Backend, rows: nat, columns: nat)
    ensures Clean(bt, ValueTokens(rows, columns))
  {
    if rows > 0 {
      var comma: seq<Token<()>> := Text(Comma(rows - 1));
      var close: seq<Token<()>> := Text(")");
      CleanValues(bt, rows - 1, columns);
      CleanHoles(bt, Units(columns));
      CleanText<()>(bt, ")");
      CleanText<()>(bt, "(");
      CleanText<()>(bt, Comma(rows - 1));
      CleanConcat(bt, HoleList(Units(columns)), close);
      CleanConcat(bt, Text("("), HoleList(Units(columns)) + close);
      CleanConcat(bt, comma, RowTokens(columns));
      CleanConcat(bt, ValueTokens(rows - 1, columns), comma + RowTokens(columns));
    }
  }

  /** A batch statement reads as `rows` rows, row r with the parameters r * columns, r * columns + 1, ... */
  lemma {:induction false} BatchReads(bt: Backend, m: Model, rows: nat, suffix: string)
    requires ValidModel(m) && SpacedFree(bt, suffix) && ParenFree(suffix)
    ensures Groups(Read(bt, BatchSql(bt, m, rows) + suffix, 0), [])
            == [[]] + RowGroups(rows, |InsertColumns(m.fields)|)
  {
    BatchPieces(bt, m, rows, suffix);
    hide *;
    var columns := |InsertColumns(m.fields)|;
    Grouped(Pieces(bt, HeadTokens(m), 0) + Pieces(bt, ValueTokens(rows, columns), 0), Pieces(bt, HeadTokens(m), 0),
            Pieces(bt, ValueTokens(rows, columns), 0), Lits(suffix));
    BatchGroups(bt, m, rows, suffix);
  }

  lemma {:induction false} BatchPieces(bt: Backend, m: Model, rows: nat, suffix: string)
    requires ValidModel(m) && SpacedFree(bt, suffix)
    ensures Read(bt, BatchSql(bt, m, rows) + suffix, 0)
            == (Pieces(bt, HeadTokens(m), 0) + Pieces(bt, ValueTokens(rows, |InsertColumns(m.fields)|), 0))
               + Lits(suffix)
  {
    hide Read, Numbered, Meaning, Number, HeadTokens, ValueTokens;
    CleanBatch(bt, m, rows);
    ReadSuffix(bt, BatchTokens(m, rows), suffix);
    NoHeadHoles(bt, m);
    PiecesConcat(bt, HeadTokens(m), ValueTokens(rows, |InsertColumns(m.fields)|), 0);
  }

  lemma {:induction false} NoHeadHoles(bt: Backend, m: Model)
    ensures |Holes(HeadTokens(m))| == 0
  {
    HeadPieces(bt, m);
  }

  lemma {:induction false} Grouped(all: seq<Piece>, a: seq<Piece>, b: seq<Piece>, c: seq<Piece>)
    requires all == a + b
    ensures Groups(all + c, []) == Groups(a + (b + (c + [])), [])
  {
    NothingAfter(a, b, c);
  }

  lemma {:induction false} NothingAfter(a: seq<Piece>, b: seq<Piece>, c: seq<Piece>)
    ensures (a + b) + c == a + (b + (c + []))
  {}

  lemma {:induction false} BatchGroups(bt: Backend, m: Model, rows: nat, suffix: string)
    requires ValidModel(m) && ParenFree(suffix)
    ensures var columns := |InsertColumns(m.fields)|;
            Groups(Pieces(bt, HeadTokens(m), 0) + (Pieces(bt, ValueTokens(rows, columns), 0) + (Lits(suffix) + [])), [])
            == [[]] + RowGroups(rows, columns)
  {
    var columns := |InsertColumns(m.fields)|;
    GroupsHead(bt, m, Pieces(bt, ValueTokens(rows, columns), 0) + (Lits(suffix) + []));
    GroupsValues(bt, rows, columns, Lits(suffix) + []);
    GroupsSkip(suffix, [], []);
  }

  // ----- The rows it adds

  predicate AllOf(rows: seq<Tuple>, columns: nat) {
    forall i :: 0 <= i < |rows| ==> |rows[i]| == columns
  }

  lemma {:induction false} FlattenSize(rows: seq<Tuple>, columns: nat)
    requires AllOf(rows, columns)
    ensures |Flatten(rows)| == |rows| * columns
  {
    if rows != [] {
      FlattenSize(rows[..|rows| - 1], columns);
      assert |rows| * columns == (|rows| - 1) * columns + columns;
    }
  }

  /** Parameter r * columns + c is column c of row r. */
  lemma {:induction false} FlattenAt(rows: seq<Tuple>, columns: nat, r: nat, c: nat)
    requires AllOf(rows, columns) && r < |rows| && c < columns
    ensures 0 <= r * columns + c < |Flatten(rows)| && Flatten(rows)[r * columns + c] == rows[r][c]
  {
    var last := |rows| - 1;
    FlattenSize(rows[..last], columns);
    FlattenSize(rows, columns);
    if r < last {
      FlattenAt(rows[..last], columns, r, c);
    } else {
      assert r * columns == last * columns;
    }
  }

  lemma {:induction false} TuplesInAt(groups: seq<seq<int>>, params: seq<Value>)
    ensures |TuplesIn(groups, params)| == |groups|
    ensures forall i :: 0 <= i < |groups| ==> TuplesIn(groups, params)[i] == TupleOf(groups[i], params)
  {
    if groups != [] {
      TuplesInAt(groups[1..], params);
      assert forall i :: 0 < i < |groups| ==> groups[i] == groups[1..][i - 1];
    }
  }

  lemma {:induction false} TuplesRecovered(rows: seq<Tuple>, columns: nat)
    requires AllOf(rows, columns)
    ensures TuplesIn(RowGroups(|rows|, columns), Flatten(rows)) == rows
  {
    var groups := RowGroups(|rows|, columns);
    TuplesInAt(groups, Flatten(rows));
    forall r | 0 <= r < |rows| ensures TuplesIn(groups, Flatten(rows))[r] == rows[r] {
      forall c | 0 <= c < columns ensures TupleOf(groups[r], Flatten(rows))[c] == rows[r][c] {
        FlattenAt(rows, columns, r, c);
        assert groups[r][c] == r * columns + c;
      }
    }
  }

  /** The values, each under the name of its column, are the record's row. */
  lemma {:induction false} StoredIsRecord(fs: seq<Field>, rec: Record)
    requires |rec| == |fs| && DistinctNames(fs)
    ensures Stored(InsertColumns(fs), InsertValues(fs, rec)) == RecordRow(fs, rec)
  {
    if fs != [] {
      var last := |fs| - 1;
      var front := RecordRow(fs[..last], rec[..last]);
      StoredIsRecord(fs[..last], rec[..last]);
      RecordRowGrows(fs, rec);
      StoredGrows(fs, rec);
    }
  }

  lemma {:induction false} StoredGrows(fs: seq<Field>, rec: Record)
    requires |rec| == |fs| && fs != []
    ensures var last := |fs| - 1;
            var front := Stored(InsertColumns(fs[..last]), InsertValues(fs[..last], rec[..last]));
            Stored(InsertColumns(fs), InsertValues(fs, rec))
            == if fs[last].autoInc then front else front[fs[last].name := rec[last]]
  {
    var last := |fs| - 1;
    var columns, tuple := InsertColumns(fs[..last]), InsertValues(fs[..last], rec[..last]);
    if !fs[last].autoInc {
      assert (columns + [fs[last].name])[..|columns|] == columns && (tuple + [rec[last]])[..|tuple|] == tuple;
    } else {
      assert columns + [] == columns && tuple + [] == tuple;
    }
  }

  lemma {:induction false} RecordRowHas(fs: seq<Field>, rec: Record, j: nat)
    requires |rec| == |fs| && DistinctNames(fs) && j < |fs| && !fs[j].autoInc
    ensures fs[j].name in RecordRow(fs, rec) && RecordRow(fs, rec)[fs[j].name] == rec[j]
  {}

  lemma {:induction false} RecordRowKey(fs: seq<Field>, rec: Record, c: string) returns (j: nat)
    requires |rec| == |fs| && DistinctNames(fs) && c in RecordRow(fs, rec)
    ensures j < |fs| && !fs[j].autoInc && fs[j].name == c && RecordRow(fs, rec)[c] == rec[j]
  {
    j :| 0 <= j < |fs| && !fs[j].autoInc && fs[j].name == c;
  }

  lemma {:induction false} RecordRowGrows(fs: seq<Field>, rec: Record)
    requires |rec| == |fs| && fs != [] && DistinctNames(fs)
    ensures var last := |fs| - 1;
            var front := RecordRow(fs[..last], rec[..last]);
            RecordRow(fs, rec) == if fs[last].autoInc then front else front[fs[last].name := rec[last]]
  {
    hide RecordRow;
    var last := |fs| - 1;
    var front, row := RecordRow(fs[..last], rec[..last]), RecordRow(fs, rec);
    var grown := if fs[last].autoInc then front else front[fs[last].name := rec[last]];
    forall c: string | c in row ensures c in grown && grown[c] == row[c] {
      var j := RecordRowKey(fs, rec, c);
      if j < last {
        RecordRowHas(fs[..last], rec[..last], j);
      }
    }
    forall c: string | c in grown ensures c in row {
      if c in front {
        var j := RecordRowKey(fs[..last], rec[..last], c);
        RecordRowHas(fs, rec, j);
      } else {
        RecordRowHas(fs, rec, last);
      }
    }
  }

  lemma {:induction false} StoredAllRecords(m: Model, recs: seq<Record>)
    requires Records(m, recs) && DistinctNames(m.fields)
    ensures StoredAll(InsertColumns(m.fields), TuplesFor(m, recs)) == RowsFor(m, recs)
  {
    hide Stored, InsertValues, InsertColumns, RecordRow;
    forall i | 0 <= i < |recs|
      ensures Stored(InsertColumns(m.fields), InsertValues(m.fields, recs[i])) == RecordRow(m.fields, recs[i])
    {
      StoredIsRecord(m.fields, recs[i]);
    }
  }

  /** A batch of records adds their rows, in order, to the table of the model. */
  lemma {:induction false} BatchAddsRows(bt: Backend, m: Model, recs: seq<Record>, suffix: string)
    requires ValidModel(m) && DistinctNames(m.fields) && Records(m, recs)
    requires SpacedFree(bt, suffix) && ParenFree(suffix)
    ensures RowsAdded(bt, BatchSql(bt, m, |recs|) + suffix, Flatten(TuplesFor(m, recs))) == RowsFor(m, recs)
    ensures TablesRead(bt, Read(bt, BatchSql(bt, m, |recs|) + suffix, 0)) == [m.table]
  {
    BatchReads(bt, m, |recs|, suffix);
    BatchNames(bt, m, |recs|, suffix);
    TuplesRecovered(TuplesFor(m, recs), |InsertColumns(m.fields)|);
    StoredAllRecords(m, recs);
    var groups := RowGroups(|recs|, |InsertColumns(m.fields)|);
    var all: seq<seq<int>> := [[]] + groups;
    assert all[1..] == groups;
  }

  // ----- One record at a time

  /** The query object of `corm_create`. */
  function InsertClauses(m: Model): Clauses {
    Clauses(Op.Insert, m, false, "", "", "", "", "", "", "", 0, 0)
  }

  /** The INSERT of `corm_create`, for one record. */
  function CreateOne(bt: Backend, m: Model, table: seq<Row>, rec: Record): seq<Row>
    requires |rec| == |m.fields|
  {
    table + RowsAdded(bt, Built(bt, InsertClauses(m)), InsertValues(m.fields, rec))
  }

  function CreateEach(bt: Backend, m: Model, table: seq<Row>, recs: seq<Record>): seq<Row>
    requires Records(m, recs)
  {
    if recs == [] then table
    else CreateOne(bt, m, CreateEach(bt, m, table, recs[..|recs| - 1]), recs[|recs| - 1])
  }

  lemma {:induction false} SingleIsBatchOfOne(bt: Backend, m: Model)
    ensures Built(bt, InsertClauses(m)) == BatchSql(bt, m, 1) + Returning(bt, InsertClauses(m))
  {
    var columns: seq<Token<()>> := ColumnList(InsertColumns(m.fields));
    var holes := HoleList(Units(|InsertColumns(m.fields)|));
    var close: seq<Token<()>> := Text(")");
    assert Text<()>(") VALUES (") == Text<()>(") VALUES ") + Text<()>("(");
    assert ValueTokens(1, |InsertColumns(m.fields)|) == RowTokens(|InsertColumns(m.fields)|) by {
      assert ValueTokens(0, |InsertColumns(m.fields)|) == [] && Text<()>(Comma(0)) == [];
    }
    Reassociate(Text("INSERT INTO "), [Ident(m.table)], Text(" ("), columns, Text(") VALUES "), Text("("),
                holes + close);
  }

  lemma {:induction false} Reassociate(a: seq<Token<()>>, b: seq<Token<()>>, c: seq<Token<()>>, d: seq<Token<()>>,
                                       e: seq<Token<()>>, f: seq<Token<()>>, g: seq<Token<()>>)
    ensures a + (b + (c + (d + ((e + f) + g)))) == (a + (b + (c + (d + e)))) + (f + g)
  {}

  lemma {:induction false} SingleAddsRow(bt: Backend, m: Model, rec: Record)
    requires ValidModel(m) && DistinctNames(m.fields) && |rec| == |m.fields|
    ensures RowsAdded(bt, Built(bt, InsertClauses(m)), InsertValues(m.fields, rec)) == [RecordRow(m.fields, rec)]
    ensures TablesRead(bt, Read(bt, Built(bt, InsertClauses(m)), 0)) == [m.table]
  {
    var tuple := InsertValues(m.fields, rec);
    var suffix := Returning(bt, InsertClauses(m));
    SingleIsBatchOfOne(bt, m);
    ReturningPlain(bt, m);
    FlattenOne(tuple);
    assert TuplesFor(m, [rec]) == [tuple] && RowsFor(m, [rec]) == [RecordRow(m.fields, rec)];
    BatchAddsRows(bt, m, [rec], suffix);
  }

  lemma {:induction false} FlattenOne(tuple: Tuple)
    ensures Flatten([tuple]) == tuple
  {
    assert [tuple][..0] == [];
    assert Flatten([tuple]) == [] + tuple;
  }

  lemma {:induction false} ReturningPlain(bt: Backend, m: Model)
    requires ValidModel(m)
    ensures SpacedFree(bt, Returning(bt, InsertClauses(m))) && ParenFree(Returning(bt, InsertClauses(m)))
  {
    if bt.Postgres? && m.primaryKey.Some? {
      var q := Quoted(bt, m.primaryKey.value);
      assert Plain(bt, q) && ParenFree(q);
      Joined(bt, " RETURNING ", q);
    }
  }

  /** Inserting records one at a time adds their rows, in order. */
  lemma {:induction false} EachAddsRows(bt: Backend, m: Model, table: seq<Row>, recs: seq<Record>)
    requires ValidModel(m) && DistinctNames(m.fields) && Records(m, recs)
    ensures CreateEach(bt, m, table, recs) == table + RowsFor(m, recs)
  {
    hide Built, Read, RowsAdded, InsertValues, RecordRow, ValidModel, TablesRead;
    if recs != [] {
      var last := |recs| - 1;
      var row := RecordRow(m.fields, recs[last]);
      EachAddsRows(bt, m, table, recs[..last]);
      SingleAddsRow(bt, m, recs[last]);
      assert CreateEach(bt, m, table, recs) == table + RowsFor(m, recs[..last]) + [row];
      assert RowsFor(m, recs) == RowsFor(m, recs[..last]) + [row];
    }
  }
}
