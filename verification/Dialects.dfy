/**
 What the databases read in the text that the builder writes: the dialects agree, hole by hole.
*/
module Dialects {
  import opened Common
  import opened SqlText
  import opened Builder

  // ----- Raw clauses

  /** A raw clause whose only holes are its question marks, none of them followed by a digit. */
  predicate RawClause(bt: Backend, text: string) {
    && (forall i :: 0 <= i < |text| ==> text[i] == '?' || PlainChar(bt, text[i]))
    && (forall i :: 0 <= i < |text| - 1 && text[i] == '?' ==> !IsDigit(text[i + 1]))
  }

  function Marks(text: string): nat {
    multiset(text)['?']
  }

  lemma {:induction false} MarksAreHoles(text: string)
    ensures |Holes(Scan(text))| == Marks(text)
  {
    if text != "" {
      MarksAreHoles(text[1..]);
      assert Scan(text)[1..] == Scan(text[1..]);
      assert text == [text[0]] + text[1..];
    }
  }

  lemma {:induction false} ScanClean(bt: Backend, text: string)
    requires RawClause(bt, text)
    ensures Clean(bt, Scan(text))
  {
    forall i | 0 <= i < |text| ensures CleanAt(bt, Scan(text), i) {}
  }

  lemma {:induction false} UnreadMeaning(bt: Backend, text: string, start: nat)
    ensures Unread(Meaning(bt, Number(Scan(text), start))) == text
  {
    var ts := Scan(text);
    if text != "" {
      var next := NextNumber(ts[0], start);
      UnreadMeaning(bt, text[1..], next);
      assert ts[1..] == Scan(text[1..]);
      var rest := Meaning(bt, Number(ts[1..], next));
      var all := Meaning(bt, Number(ts, start));
      assert Number(ts, start)[1..] == Number(ts[1..], next);
      assert |all| > 0 && all[1..] == rest;
      assert text == [text[0]] + text[1..];
    }
  }

  /** The placeholders written by `append_with_placeholders` decode to the text they came from, and are
      numbered start, start + 1, ..., one for each question mark. */
  lemma {:induction false} RewriteRoundTrip(bt: Backend, text: string, start: nat)
    requires RawClause(bt, text)
    ensures var seen := Read(bt, Numbered(bt, Scan(text), start), start);
            Unread(seen) == text && Slots(seen) == Range(start, Marks(text))
  {
    ScanClean(bt, text);
    NumberClean(bt, Scan(text), start);
    NumberInOrder(Scan(text), start);
    ReadRender(bt, Number(Scan(text), start), start);
    UnreadMeaning(bt, text, start);
    NumberedSlots(bt, Scan(text), start);
    MarksAreHoles(text);
  }

  /** For the `?` dialects the rewriting changes nothing, whatever the text. */
  lemma {:induction false} RewriteIsIdentity(bt: Backend, text: string, start: nat)
    requires !bt.Postgres?
    ensures Numbered(bt, Scan(text), start) == text
  {
    var ts := Scan(text);
    if text != "" {
      var next := NextNumber(ts[0], start);
      RewriteIsIdentity(bt, text[1..], next);
      assert ts[1..] == Scan(text[1..]);
      assert Number(ts, start)[1..] == Number(ts[1..], next);
      assert RenderToken(bt, Number(ts, start)[0]) == [text[0]];
      assert text == [text[0]] + text[1..];
    }
  }

  // ----- Clean statements

  /** Nothing that a dialect takes for a part of a hole. */
  predicate HoleFree(s: string) {
    forall i :: 0 <= i < |s| ==> s[i] != '?' && !Sigil(s[i])
  }

  predicate PlainModel(bt: Backend, m: Model) {
    && Plain(bt, m.table)
    && (forall i :: 0 <= i < |m.fields| ==> Plain(bt, m.fields[i].name))
    && (m.primaryKey.Some? ==> Plain(bt, m.primaryKey.value))
  }

  /** Nothing but the `?` of the raw SET and WHERE clauses is a parameter. */
  predicate RawOnly(bt: Backend, q: Clauses) {
    && PlainModel(bt, q.model)
    && Plain(bt, q.selectCols) && Plain(bt, q.joins) && Plain(bt, q.group) && Plain(bt, q.having) && Plain(bt, q.order)
    && RawClause(bt, q.setClause) && RawClause(bt, q.where)
  }

  predicate SafeStart<H>(ts: seq<Token<H>>) {
    ts != [] && ts[0].Chr? ==> !IsDigit(ts[0].c)
  }

  lemma {:induction false} CleanConcat<H>(bt: Backend, a: seq<Token<H>>, b: seq<Token<H>>)
    requires Clean(bt, a) && Clean(bt, b)
    requires SafeStart(b) || (a != [] && !a[|a| - 1].Hole?)
    ensures Clean(bt, a + b)
  {
    var ts := a + b;
    forall i | 0 <= i < |ts| ensures CleanAt(bt, ts, i) {
      if i < |a| {
        assert CleanAt(bt, a, i);
      } else {
        assert CleanAt(bt, b, i - |a|);
      }
    }
  }

  lemma {:induction false} CleanText<H>(bt: Backend, s: string)
    requires Plain(bt, s)
    ensures Clean<H>(bt, Text(s))
  {
    forall i | 0 <= i < |s| ensures CleanAt<H>(bt, Text(s), i) {}
  }

  lemma {:induction false} DecimalHoleFree(n: nat)
    ensures HoleFree(Decimal(n))
  {
    assert forall c :: IsDigit(c) ==> c != '?' && !Sigil(c);
  }

  predicate SpacedFree(bt: Backend, s: string) {
    Plain(bt, s) && (s == "" || s[0] == ' ')
  }

  lemma {:induction false} Joined(bt: Backend, a: string, b: string)
    ensures Plain(bt, a) && Plain(bt, b) ==> Plain(bt, a + b)
    ensures SpacedFree(bt, a) && SpacedFree(bt, b) ==> SpacedFree(bt, a + b)
  {}

  lemma {:induction false} LimitsSpaced(bt: Backend, q: Clauses)
    ensures SpacedFree(bt, Limits(q))
  {
    DecimalHoleFree(if q.limit < 0 then -q.limit else q.limit);
    DecimalHoleFree(if q.offset < 0 then -q.offset else q.offset);
    Joined(bt, " LIMIT ", FormatInt(q.limit));
    Joined(bt, " OFFSET ", FormatInt(q.offset));
    Joined(bt, " LIMIT " + FormatInt(q.limit), " OFFSET " + FormatInt(q.offset));
  }

  lemma {:induction false} TailPlain(bt: Backend, q: Clauses)
    requires RawOnly(bt, q)
    ensures SpacedFree(bt, Tail(q))
  {
    LimitsSpaced(bt, q);
    var g, h, o := Optional(" GROUP BY ", q.group), Optional(" HAVING ", q.having), Optional(" ORDER BY ", q.order);
    assert SpacedFree(bt, g) && SpacedFree(bt, h) && SpacedFree(bt, o);
    Joined(bt, g, h);
    Joined(bt, g + h, o);
    Joined(bt, g + h + o, Limits(q));
  }

  lemma {:induction false} ColumnsPlain(bt: Backend, fs: seq<Field>)
    requires forall i :: 0 <= i < |fs| ==> Plain(bt, fs[i].name)
    ensures forall i :: 0 <= i < |InsertColumns(fs)| ==> Plain(bt, InsertColumns(fs)[i])
    ensures forall i :: 0 <= i < |UpdateColumns(fs)| ==> Plain(bt, UpdateColumns(fs)[i])
  {
    if fs != [] {
      ColumnsPlain(bt, fs[..|fs| - 1]);
    }
  }

  lemma {:induction false} CleanColumns<H>(bt: Backend, names: seq<string>)
    requires forall i :: 0 <= i < |names| ==> Plain(bt, names[i])
    ensures Clean<H>(bt, ColumnList(names))
  {
    if names != [] {
      var last := |names| - 1;
      CleanColumns<H>(bt, names[..last]);
      CleanText<H>(bt, Comma(last));
      CleanConcat<H>(bt, Text(Comma(last)), [Ident(names[last])]);
      CleanConcat<H>(bt, ColumnList(names[..last]), Text(Comma(last)) + [Ident(names[last])]);
    }
  }

  lemma {:induction false} CleanHoles<H>(bt: Backend, hs: seq<H>)
    ensures Clean(bt, HoleList(hs))
  {
    if hs != [] {
      var last := |hs| - 1;
      CleanHoles(bt, hs[..last]);
      CleanText<H>(bt, Comma(last));
      CleanConcat<H>(bt, Text(Comma(last)), [Hole(hs[last])]);
      CleanConcat<H>(bt, HoleList(hs[..last]), Text(Comma(last)) + [Hole(hs[last])]);
    }
  }

  lemma {:induction false} CleanAssignments<H>(bt: Backend, names: seq<string>, hs: seq<H>)
    requires |names| == |hs| && forall i :: 0 <= i < |names| ==> Plain(bt, names[i])
    ensures Clean(bt, Assignments(names, hs))
  {
    if names != [] {
      var last := |names| - 1;
      CleanAssignments(bt, names[..last], hs[..last]);
      CleanText<H>(bt, Comma(last));
      CleanText<H>(bt, " = ");
      CleanConcat<H>(bt, Text(" = "), [Hole(hs[last])]);
      CleanConcat<H>(bt, [Ident(names[last])], Text(" = ") + [Hole(hs[last])]);
      CleanConcat<H>(bt, Text(Comma(last)), [Ident(names[last])] + (Text(" = ") + [Hole(hs[last])]));
      CleanConcat<H>(bt, Assignments(names[..last], hs[..last]),
                     Text(Comma(last)) + ([Ident(names[last])] + (Text(" = ") + [Hole(hs[last])])));
    }
  }

  lemma {:induction false} CleanWhere<H>(bt: Backend, where: seq<Token<H>>)
    requires Clean(bt, where)
    ensures Clean(bt, WherePart(where)) && SafeStart(WherePart(where))
  {
    CleanText<H>(bt, " WHERE ");
    CleanConcat<H>(bt, Text(" WHERE "), where);
  }

  lemma {:induction false} CleanTable<H>(bt: Backend, head: string, table: string, mid: string, rest: seq<Token<H>>)
    requires Plain(bt, head) && head != "" && Plain(bt, table) && Plain(bt, mid) && Clean(bt, rest)
    requires SafeStart(rest) || mid != ""
    ensures Clean(bt, Text(head) + ([Ident(table)] + (Text(mid) + rest)))
  {
    CleanText<H>(bt, mid);
    CleanText<H>(bt, head);
    CleanConcat(bt, Text(mid), rest);
    CleanConcat(bt, [Ident(table)], Text(mid) + rest);
    CleanConcat(bt, Text(head), [Ident(table)] + (Text(mid) + rest));
  }

  lemma {:induction false} HeadPlain(bt: Backend, q: Clauses)
    requires RawOnly(bt, q)
    ensures Plain(bt, SelectHead(q)) && SelectHead(q) != "" && Plain(bt, Optional(" ", q.joins))
  {
    KeywordsPlain(bt);
    hide Plain, PlainModel, RawClause, SpacedFree;
    var head := "SELECT " + if q.distinct then "DISTINCT " else "";
    Joined(bt, "SELECT ", if q.distinct then "DISTINCT " else "");
    Joined(bt, head, if q.selectCols == "" then "*" else q.selectCols);
    Joined(bt, head + (if q.selectCols == "" then "*" else q.selectCols), " FROM ");
    Joined(bt, " ", q.joins);
  }

  lemma {:induction false} KeywordsPlain(bt: Backend)
    ensures Plain(bt, "") && Plain(bt, " ") && Plain(bt, "*")
    ensures Plain(bt, "SELECT ") && Plain(bt, "DISTINCT ") && Plain(bt, " FROM ")
  {}

  lemma {:induction false} CleanSelect<H>(bt: Backend, q: Clauses, where: seq<Token<H>>)
    requires RawOnly(bt, q) && Clean(bt, where)
    ensures Clean(bt,
                  Text(SelectHead(q))
                  + ([Ident(q.model.table)] + (Text(Optional(" ", q.joins)) + (WherePart(where) + Text(Tail(q))))))
  {
    TailPlain(bt, q);
    HeadPlain(bt, q);
    CleanText<H>(bt, Tail(q));
    CleanWhere(bt, where);
    CleanConcat(bt, WherePart(where), Text(Tail(q)));
    CleanTable(bt, SelectHead(q), q.model.table, Optional(" ", q.joins), WherePart(where) + Text(Tail(q)));
  }

  lemma {:induction false} CleanInsert<H>(bt: Backend, q: Clauses, row: seq<H>)
    requires RawOnly(bt, q)
    ensures Clean(bt,
                  Text("INSERT INTO ")
                  + ([Ident(q.model.table)]
                     + (Text(" (") + (ColumnList(InsertColumns(q.model.fields))
                                      + (Text(") VALUES (") + (HoleList(row) + Text(")")))))))
  {
    hide Clean, Comma, ColumnList, HoleList, InsertColumns;
    var columns: seq<Token<H>> := ColumnList(InsertColumns(q.model.fields));
    var end: seq<Token<H>> := HoleList(row) + Text(")");
    ColumnsPlain(bt, q.model.fields);
    CleanColumns<H>(bt, InsertColumns(q.model.fields));
    CleanHoles(bt, row);
    CleanText<H>(bt, ")");
    CleanText<H>(bt, ") VALUES (");
    CleanConcat(bt, HoleList(row), Text(")"));
    CleanConcat(bt, Text(") VALUES ("), end);
    CleanConcat(bt, columns, Text(") VALUES (") + end);
    CleanTable(bt, "INSERT INTO ", q.model.table, " (", columns + (Text(") VALUES (") + end));
  }

  lemma {:induction false} CleanUpdate<H>(bt: Backend, q: Clauses, set_: seq<Token<H>>, where: seq<Token<H>>)
    requires RawOnly(bt, q) && Clean(bt, where) && Clean(bt, set_)
    ensures Clean(bt, Text("UPDATE ") + ([Ident(q.model.table)] + (Text(" SET ") + (set_ + WherePart(where)))))
  {
    CleanWhere(bt, where);
    CleanConcat(bt, set_, WherePart(where));
    CleanTable(bt, "UPDATE ", q.model.table, " SET ", set_ + WherePart(where));
  }

  lemma {:induction false} CleanDelete<H>(bt: Backend, q: Clauses, where: seq<Token<H>>)
    requires RawOnly(bt, q) && Clean(bt, where)
    ensures Clean(bt, Text("DELETE FROM ") + ([Ident(q.model.table)] + WherePart(where)))
  {
    CleanWhere(bt, where);
    CleanText<H>(bt, "DELETE FROM ");
    CleanConcat(bt, [Ident(q.model.table)], WherePart(where));
    CleanConcat(bt, Text("DELETE FROM "), [Ident(q.model.table)] + WherePart(where));
  }

  /** A statement is clean when its model and clauses are. */
  lemma {:induction false} CleanAssembled<H>(bt: Backend, q: Clauses, set_: seq<Token<H>>, where: seq<Token<H>>,
                                             row: seq<H>)
    requires RawOnly(bt, q) && Clean(bt, set_) && Clean(bt, where)
    requires q.op.Update? && set_ == [] ==> |row| == |UpdateColumns(q.model.fields)|
    ensures Clean(bt, Assemble(q, set_, where, row))
  {
    match q.op
    case Select => CleanSelect(bt, q, where);
    case Insert => CleanInsert(bt, q, row);
    case Delete => CleanDelete(bt, q, where);
    case Update =>
      if set_ != [] {
        CleanUpdate(bt, q, set_, where);
      } else {
        ColumnsPlain(bt, q.model.fields);
        CleanAssignments(bt, UpdateColumns(q.model.fields), row);
        CleanUpdate(bt, q, Assignments(UpdateColumns(q.model.fields), row), where);
      }
  }

  // ----- The dialects agree

  /** How many parameters a statement has. */
  function HoleCount(q: Clauses): nat {
    match q.op
    case Insert => |InsertColumns(q.model.fields)|
    case Update => (if q.setClause != "" then Marks(q.setClause) else |UpdateColumns(q.model.fields)|) + Marks(q.where)
    case _ => Marks(q.where)
  }

  lemma {:induction false} AssignmentHoles<H>(names: seq<string>, hs: seq<H>)
    requires |names| == |hs|
    ensures Holes(Assignments(names, hs)) == hs
  {
    if names != [] {
      var last := |names| - 1;
      AssignmentHoles(names[..last], hs[..last]);
      TextHasNoHoles<H>(Comma(last));
      TextHasNoHoles<H>(" = ");
      var value: seq<Token<H>> := Text(" = ") + [Hole(hs[last])];
      HolesConcat<H>(Text(" = "), [Hole(hs[last])]);
      HolesConcat<H>([Ident(names[last])], value);
      HolesConcat<H>(Text(Comma(last)), [Ident(names[last])] + value);
      HolesConcat<H>(Assignments(names[..last], hs[..last]), Text(Comma(last)) + ([Ident(names[last])] + value));
    }
  }

  /** The holes of a statement are those of its SET clause, then those of its WHERE clause, or its row. */
  lemma {:induction false} AssembledHoles<H>(q: Clauses, set_: seq<Token<H>>, where: seq<Token<H>>, row: seq<H>)
    requires q.op.Update? && set_ == [] ==> |row| == |UpdateColumns(q.model.fields)|
    ensures Holes(Assemble(q, set_, where, row)) ==
            match q.op
            case Insert => row
            case Update => (if set_ != [] then Holes(set_) else row) + Holes(where)
            case _ => Holes(where)
  {
    WhereHoles(where);
    match q.op
    case Select =>
      TextHasNoHoles<H>(Tail(q));
      HolesConcat<H>(WherePart(where), Text(Tail(q)));
      TableHoles(SelectHead(q), q.model.table, Optional(" ", q.joins), WherePart(where) + Text(Tail(q)));
    case Insert =>
      var columns: seq<Token<H>> := ColumnList(InsertColumns(q.model.fields));
      var end: seq<Token<H>> := HoleList(row) + Text(")");
      ColumnsHaveNoHoles<H>(InsertColumns(q.model.fields));
      HoleListHoles(row);
      TextHasNoHoles<H>(")");
      HolesConcat<H>(HoleList(row), Text(")"));
      TextHasNoHoles<H>(") VALUES (");
      HolesConcat<H>(Text(") VALUES ("), end);
      HolesConcat<H>(columns, Text(") VALUES (") + end);
      TableHoles("INSERT INTO ", q.model.table, " (", columns + (Text(") VALUES (") + end));
    case Update =>
      var sets := if set_ != [] then set_ else Assignments(UpdateColumns(q.model.fields), row);
      if set_ == [] { AssignmentHoles(UpdateColumns(q.model.fields), row); }
      HolesConcat(sets, WherePart(where));
      TableHoles("UPDATE ", q.model.table, " SET ", sets + WherePart(where));
    case Delete =>
      TextHasNoHoles<H>("DELETE FROM ");
      HolesConcat<H>([Ident(q.model.table)], WherePart(where));
      HolesConcat<H>(Text("DELETE FROM "), [Ident(q.model.table)] + WherePart(where));
  }

  lemma {:induction false} WhereHoles<H>(where: seq<Token<H>>)
    ensures Holes(WherePart(where)) == Holes(where)
  {
    TextHasNoHoles<H>(" WHERE ");
    HolesConcat<H>(Text(" WHERE "), where);
  }

  lemma {:induction false} TableHoles<H>(head: string, table: string, mid: string, rest: seq<Token<H>>)
    ensures Holes(Text(head) + ([Ident(table)] + (Text(mid) + rest))) == Holes(rest)
  {
    TextHasNoHoles<H>(head);
    TextHasNoHoles<H>(mid);
    HolesConcat<H>(Text(mid), rest);
    HolesConcat<H>([Ident(table)], Text(mid) + rest);
    HolesConcat<H>(Text(head), [Ident(table)] + (Text(mid) + rest));
  }

  /** The text that `corm_build_sql` produces. */
  function Built(bt: Backend, q: Clauses): string {
    Numbered(bt, Skeleton(q), 0) + Returning(bt, q)
  }

  lemma {:induction false} ReadSuffix(bt: Backend, ts: seq<Token<()>>, suffix: string)
    requires Clean(bt, ts) && SpacedFree(bt, suffix)
    ensures Read(bt, Numbered(bt, ts, 0) + suffix, 0) == Meaning(bt, Number(ts, 0)) + Lits(suffix)
  {
    hide Read, Meaning, Number, Clean;
    var end: seq<Token<()>> := Text(suffix);
    var k := |Holes(ts)|;
    CleanText<()>(bt, suffix);
    CleanConcat(bt, ts, end);
    NumberedConcat(bt, ts, end, 0);
    NumberedText<()>(bt, suffix, [], k);
    NumberClean(bt, ts + end, 0);
    NumberInOrder(ts + end, 0);
    ReadRender(bt, Number(ts + end, 0), 0);
    NumberConcat(ts, end, 0);
    NumberText<()>(suffix, k);
    MeaningConcat(bt, Number(ts, 0), Text(suffix));
    MeaningText(bt, suffix);
  }

  lemma {:induction false} MeaningConcat(bt: Backend, a: seq<Token<nat>>, b: seq<Token<nat>>)
    ensures Meaning(bt, a + b) == Meaning(bt, a) + Meaning(bt, b)
  {
    if a == [] {
      assert a + b == b;
    } else {
      assert (a + b)[1..] == a[1..] + b;
      MeaningConcat(bt, a[1..], b);
    }
  }

  lemma {:induction false} MeaningText(bt: Backend, s: string)
    ensures Meaning(bt, Text<nat>(s)) == Lits(s)
  {
    var ts: seq<Token<nat>> := Text(s);
    if s != "" {
      var rest: seq<Token<nat>> := Text(s[1..]);
      MeaningText(bt, s[1..]);
      assert ts[1..] == rest && ts[0] == Chr(s[0]);
      assert Meaning(bt, ts) == [Lit(s[0])] + Meaning(bt, rest);
      assert Lits(s) == [Lit(s[0])] + Lits(s[1..]);
    }
  }

  lemma {:induction false} ReturningSpaced(bt: Backend, q: Clauses)
    requires RawOnly(bt, q)
    ensures SpacedFree(bt, Returning(bt, q))
  {
    if q.op.Insert? && bt.Postgres? && q.model.primaryKey.Some? {
      Joined(bt, Quote(bt), q.model.primaryKey.value);
      Joined(bt, Quote(bt) + q.model.primaryKey.value, Quote(bt));
      Joined(bt, " RETURNING ", Quoted(bt, q.model.primaryKey.value));
    }
  }

  lemma {:induction false} ClausesClean(bt: Backend, q: Clauses)
    requires RawOnly(bt, q)
    ensures Clean(bt, Skeleton(q))
  {
    ScanClean(bt, q.setClause);
    ScanClean(bt, q.where);
    CleanAssembled(bt, q, Scan(q.setClause), Scan(q.where), Units(RowLength(q)));
  }

  /** What the database reads is the same statement in every dialect, with the parameters 0, 1, ... in its
      holes: only the quotes around identifiers and the RETURNING clause of Postgres differ. */
  lemma {:induction false} BuiltIsRead(bt: Backend, q: Clauses)
    requires RawOnly(bt, q)
    ensures Read(bt, Built(bt, q), 0) == Meaning(bt, Number(Skeleton(q), 0)) + Lits(Returning(bt, q))
    ensures Slots(Read(bt, Built(bt, q), 0)) == Range(0, HoleCount(q))
  {
    ReturningSpaced(bt, q);
    ClausesClean(bt, q);
    hide Clean, Number, Meaning, Read, Numbered, RawOnly, Assemble, SpacedFree, Lits;
    ReadSuffix(bt, Skeleton(q), Returning(bt, q));
    NumberedSlots(bt, Skeleton(q), 0);
    SlotsSuffix(Meaning(bt, Number(Skeleton(q), 0)), Returning(bt, q));
    AssembledHoles(q, Scan(q.setClause), Scan(q.where), Units(RowLength(q)));
    MarksAreHoles(q.setClause);
    MarksAreHoles(q.where);
  }

  lemma {:induction false} SlotsSuffix(ps: seq<Piece>, s: string)
    ensures Slots(ps + Lits(s)) == Slots(ps)
  {
    if ps == [] {
      LitsNoSlots(s, []);
      assert ps + Lits(s) == Lits(s) + [];
    } else {
      SlotsSuffix(ps[1..], s);
      assert (ps + Lits(s))[1..] == ps[1..] + Lits(s);
    }
  }

  /** Sqlite and Postgres, which quote alike, read literally the same statement, and every pair of dialects
      the same parameter in every hole. */
  lemma {:induction false} DialectsAgree(q: Clauses, a: Backend, b: Backend)
    requires RawOnly(a, q) && RawOnly(b, q)
    ensures Slots(Read(a, Built(a, q), 0)) == Slots(Read(b, Built(b, q), 0))
    ensures a.Postgres? && b.Sqlite? ==>
              Read(a, Built(a, q), 0) == Read(b, Built(b, q), 0) + Lits(Returning(a, q))
  {
    hide RawOnly, Read, Skeleton, Slots;
    BuiltIsRead(a, q);
    BuiltIsRead(b, q);
    SameQuotes(Number(Skeleton(q), 0));
  }

  lemma {:induction false} SameQuotes(ts: seq<Token<nat>>)
    ensures Meaning(Postgres, ts) == Meaning(Sqlite, ts)
  {
    if ts != [] {
      SameQuotes(ts[1..]);
    }
  }

  /** An UPDATE reads its SET clause with the parameters 0..n-1 and its WHERE clause with n..n+m-1, whether
      the SET clause was given or is made of the columns that are not keys. */
  lemma {:induction false} UpdateSplitsParameters(bt: Backend, q: Clauses)
    requires RawOnly(bt, q) && q.op.Update?
    ensures var n := if q.setClause != "" then Marks(q.setClause) else |UpdateColumns(q.model.fields)|;
            var before := "UPDATE " + (Quoted(bt, q.model.table) + " SET ");
            var where := if q.where == "" then [] else Lits(" WHERE ") + Meaning(bt, Number(Scan(q.where), n));
            && Read(bt, Built(bt, q), 0) == Lits(before) + (Meaning(bt, Number(SetPart(q), 0)) + where)
            && Slots(Meaning(bt, Number(SetPart(q), 0))) == Range(0, n)
            && Slots(Meaning(bt, Number(Scan(q.where), n))) == Range(n, Marks(q.where))
  {
    BuiltIsRead(bt, q);
    var n := |Holes(SetPart(q))|;
    SetPartHoles(q);
    MarksAreHoles(q.where);
    NumberedSlots(bt, SetPart(q), 0);
    NumberedSlots(bt, Scan(q.where), n);
    hide Read, Built, Meaning, Number, Lits, SetPart, Slots, RawOnly, UpdateColumns, Marks, Holes, Text;
    UpdateMeaning(bt, q.model.table, SetPart(q), WherePart(Scan(q.where)));
    WhereMeaning(bt, Scan(q.where), n);
    UpdateSkeleton(bt, q);
  }

  lemma {:induction false} SetPartHoles(q: Clauses)
    ensures |Holes(SetPart(q))|
            == if q.setClause != "" then Marks(q.setClause) else |UpdateColumns(q.model.fields)|
  {
    hide UpdateColumns;
    if q.setClause == "" {
      AssignmentHoles(UpdateColumns(q.model.fields), Units(|UpdateColumns(q.model.fields)|));
    }
    MarksAreHoles(q.setClause);
  }

  lemma {:induction false} UpdateSkeleton(bt: Backend, q: Clauses)
    requires q.op.Update?
    ensures Skeleton(q)
            == Text("UPDATE ") + ([Ident(q.model.table)] + (Text(" SET ") + (SetPart(q) + WherePart(Scan(q.where)))))
    ensures Returning(bt, q) == ""
  {}

  lemma {:induction false} WhereMeaning(bt: Backend, where: seq<Token<()>>, n: nat)
    ensures Meaning(bt, Number(WherePart(where), n))
            == if where == [] then [] else Lits(" WHERE ") + Meaning(bt, Number(where, n))
  {
    if where != [] {
      TextMeaning(bt, " WHERE ", where, n);
    }
  }

  lemma {:induction false} TextMeaning(bt: Backend, s: string, rest: seq<Token<()>>, n: nat)
    ensures Meaning(bt, Number(Text(s) + rest, n)) == Lits(s) + Meaning(bt, Number(rest, n))
  {
    NumberConcat(Text(s), rest, n);
    TextHasNoHoles<()>(s);
    NumberText<()>(s, n);
    MeaningConcat(bt, Text(s), Number(rest, n));
    MeaningText(bt, s);
  }

  lemma {:induction false} UpdateMeaning(bt: Backend, table: string, set_: seq<Token<()>>, where: seq<Token<()>>)
    ensures Meaning(bt, Number(Text("UPDATE ") + ([Ident(table)] + (Text(" SET ") + (set_ + where))), 0))
            == Lits("UPDATE " + (Quoted(bt, table) + " SET "))
               + (Meaning(bt, Number(set_, 0)) + Meaning(bt, Number(where, |Holes(set_)|)))
  {
    NumberConcat(set_, where, 0);
    MeaningConcat(bt, Number(set_, 0), Number(where, |Holes(set_)|));
    UpdateHead(bt, table, set_ + where);
  }

  lemma {:induction false} UpdateHead(bt: Backend, table: string, rest: seq<Token<()>>)
    ensures Meaning(bt, Number(Text("UPDATE ") + ([Ident(table)] + (Text(" SET ") + rest)), 0))
            == Lits("UPDATE " + (Quoted(bt, table) + " SET ")) + Meaning(bt, Number(rest, 0))
  {
    TextMeaning(bt, " SET ", rest, 0);
    IdentMeaning(bt, table, Text(" SET ") + rest);
    TextMeaning(bt, "UPDATE ", [Ident(table)] + (Text(" SET ") + rest), 0);
    LitsConcat(Quoted(bt, table), " SET ");
    LitsConcat("UPDATE ", Quoted(bt, table) + " SET ");
    AssociateInner(Lits("UPDATE "), Lits(Quoted(bt, table)), Lits(" SET "), Meaning(bt, Number(rest, 0)));
  }

  lemma {:induction false} IdentMeaning(bt: Backend, name: string, rest: seq<Token<()>>)
    ensures Meaning(bt, Number([Ident(name)] + rest, 0)) == Lits(Quoted(bt, name)) + Meaning(bt, Number(rest, 0))
  {
    assert ([Ident(name)] + rest)[1..] == rest;
  }

  lemma {:induction false} LitsConcat(a: string, b: string)
    ensures Lits(a + b) == Lits(a) + Lits(b)
  {}

  // ----- Pieces

  /** The pieces of numbered tokens. */
  function Pieces(bt: Backend, ts: seq<Token<()>>, start: nat): seq<Piece> {
    Meaning(bt, Number(ts, start))
  }

  lemma {:induction false} PiecesConcat(bt: Backend, a: seq<Token<()>>, b: seq<Token<()>>, start: nat)
    ensures Pieces(bt, a + b, start) == Pieces(bt, a, start) + Pieces(bt, b, start + |Holes(a)|)
    ensures |Holes(a + b)| == |Holes(a)| + |Holes(b)|
  {
    NumberConcat(a, b, start);
    HolesConcat(a, b);
    MeaningConcat(bt, Number(a, start), Number(b, start + |Holes(a)|));
  }

  lemma {:induction false} PiecesText(bt: Backend, s: string, start: nat)
    ensures Pieces(bt, Text(s), start) == Lits(s) && |Holes<()>(Text(s))| == 0
  {
    NumberText<()>(s, start);
    MeaningText(bt, s);
    TextHasNoHoles<()>(s);
  }

  lemma {:induction false} PiecesHole(bt: Backend, start: nat)
    ensures Pieces(bt, [Hole(())], start) == [Slot(start)] && |Holes([Hole(())])| == 1
  {
    assert Number([Hole(())], start) == [Hole(start)];
    assert Meaning(bt, [Hole(start)]) == [Slot(start)] + Meaning(bt, []);
  }

  lemma {:induction false} PiecesIdent(bt: Backend, name: string, start: nat)
    ensures Pieces(bt, [Ident(name)], start) == Lits(Quoted(bt, name)) && |Holes<()>([Ident(name)])| == 0
  {
    assert Number<()>([Ident(name)], start) == [Ident(name)];
    assert Meaning(bt, [Ident(name)]) == Lits(Quoted(bt, name)) + Meaning(bt, []);
  }
}
