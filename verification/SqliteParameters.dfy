/**
 SQLite numbers its named parameters (`:x`, `@x`, `#x`, `$x`) and `?5` together with the `?`. When a query whose
 calls mean `?` only is still read as meant.
*/
module SqliteParameters {
  import opened Common
  import opened SqlText
  import opened Builder
  import opened Dialects
  import opened QueryCalls
  import opened Alignment
  import opened Execution
  import opened KeyedBatch
  import opened KeyedMeaning

  /** The only parameters are single `?`, read from left to right. */
  predicate OnlyMarks(text: string, inName: bool) {
    text != "" ==>
    && (text[0] == '?' && |text| > 1 ==> !IsDigit(text[1]))
    && (Begins(text[0], inName) && |text| > 1 ==> !NameChar(text[1]))
    && OnlyMarks(text[1..], NameChar(text[0]))
  }

  // ----- What SQLite reads

  lemma {:induction false} RunsBegin(s: string)
    ensures DigitRun(s) > 0 <==> s != "" && IsDigit(s[0])
    ensures NameRun(s) > 0 <==> s != "" && NameChar(s[0])
  {}

  /** Where there are only `?`, they are counted; any other parameter makes the reading shorter. */
  predicate Counted(text: string, next: nat, names: map<string, nat>, inName: bool) {
    var seen := ReadSqlite(text, next, names, inName);
    && |seen| <= |text|
    && if OnlyMarks(text, inName) then seen == ReadMarks(text, next) else |seen| < |text|
  }

  lemma {:induction false} NothingCounted(next: nat, names: map<string, nat>, inName: bool)
    ensures Counted("", next, names, inName)
  {}

  lemma {:induction false} MarkStep(text: string, next: nat, names: map<string, nat>, inName: bool)
    requires text != "" && text[0] == '?' && DigitRun(text[1..]) == 0
    requires Counted(text[1..], next + 1, names, false)
    ensures Counted(text, next, names, inName)
  {
    RunsBegin(text[1..]);
    hide DigitRun, NameRun;
  }

  lemma {:induction false} NumberStep(text: string, next: nat, names: map<string, nat>, inName: bool)
    requires text != "" && text[0] == '?' && DigitRun(text[1..]) > 0
    requires var n := DigitRun(text[1..]);
             var k := NatOf(text[1..][..n]);
             Counted(text[1 + n..], if k > next then k else next, names, false)
    ensures Counted(text, next, names, inName)
  {
    RunsBegin(text[1..]);
    hide DigitRun, NameRun, NatOf, ReadMarks;
    var n := DigitRun(text[1..]);
    assert |text[1 + n..]| < |text| - 1;
  }

  lemma {:induction false} NamedStep(text: string, next: nat, names: map<string, nat>, inName: bool)
    requires text != "" && Begins(text[0], inName) && NameRun(text[1..]) > 0
    requires var n := NameRun(text[1..]);
             var name := text[..1 + n];
             if name in names then Counted(text[1 + n..], next, names, false)
             else Counted(text[1 + n..], next + 1, names[name := next], false)
    ensures Counted(text, next, names, inName)
  {
    RunsBegin(text[1..]);
    hide DigitRun, NameRun, NatOf, ReadMarks;
    var n := NameRun(text[1..]);
    assert |text[1 + n..]| < |text| - 1;
  }

  lemma {:induction false} LitStep(text: string, next: nat, names: map<string, nat>, inName: bool)
    requires text != "" && text[0] != '?' && !(Begins(text[0], inName) && NameRun(text[1..]) > 0)
    requires Counted(text[1..], next, names, NameChar(text[0]))
    ensures Counted(text, next, names, inName)
  {
    RunsBegin(text[1..]);
    hide DigitRun, NameRun, NatOf;
  }

  lemma {:induction false} CountedExactly(text: string, next: nat, names: map<string, nat>, inName: bool)
    ensures Counted(text, next, names, inName)
    decreases |text|
  {
    NothingCounted(next, names, inName);
    hide Counted, OnlyMarks, ReadSqlite, Begins, NameChar, IsDigit;
    if text != "" {
      var rest := text[1..];
      if text[0] == '?' && DigitRun(rest) > 0 {
        var n := DigitRun(rest);
        var k := NatOf(rest[..n]);
        CountedExactly(text[1 + n..], if k > next then k else next, names, false);
        NumberStep(text, next, names, inName);
      } else if text[0] == '?' {
        CountedExactly(rest, next + 1, names, false);
        MarkStep(text, next, names, inName);
      } else if Begins(text[0], inName) && NameRun(rest) > 0 {
        var n := NameRun(rest);
        var name := text[..1 + n];
        if name in names {
          CountedExactly(text[1 + n..], next, names, false);
        } else {
          CountedExactly(text[1 + n..], next + 1, names[name := next], false);
        }
        NamedStep(text, next, names, inName);
      } else {
        CountedExactly(rest, next, names, NameChar(text[0]));
        LitStep(text, next, names, inName);
      }
    }
  }

  lemma {:induction false} MarksLength(text: string, next: nat)
    ensures |ReadMarks(text, next)| == |text|
  {
    if text != "" {
      MarksLength(text[1..], if text[0] == '?' then next + 1 else next);
    }
  }

  // ----- Counting the `?`

  predicate Unmarked<H>(ts: seq<Token<H>>) {
    forall i :: 0 <= i < |ts| ==>
      (ts[i].Chr? ==> ts[i].c != '?') && (ts[i].Ident? ==> Plain(Mysql, ts[i].name))
  }

  lemma {:induction false} MarksRender(bt: Backend, ts: seq<Token<nat>>, next: nat)
    requires !bt.Postgres? && Unmarked(ts) && InOrder(ts, next)
    ensures ReadMarks(Render(bt, ts), next) == Meaning(bt, ts)
  {
    if ts != [] {
      var rest := ts[1..];
      MarksRender(bt, rest, if ts[0].Hole? then next + 1 else next);
      match ts[0]
      case Hole(i) => assert ("?" + Render(bt, rest))[1..] == Render(bt, rest);
      case Chr(c) =>
        ReadMarksPlain([c], Render(bt, rest), next);
        assert Lits([c]) == [Lit(c)];
      case Ident(name) => ReadMarksPlain(Quote(bt) + name + Quote(bt), Render(bt, rest), next);
    }
  }

  lemma {:induction false} UnmarkedNumber(ts: seq<Tok>, start: nat)
    requires Unmarked(ts)
    ensures Unmarked(Number(ts, start))
  {
    NumberShape(ts, start);
  }

  lemma {:induction false} UnmarkedConcat<H>(a: seq<Token<H>>, b: seq<Token<H>>)
    requires Unmarked(a) && Unmarked(b)
    ensures Unmarked(a + b)
  {}

  lemma {:induction false} UnmarkedText<H>(s: string)
    requires Plain(Mysql, s)
    ensures Unmarked<H>(Text(s))
  {}

  /** No `?` outside the raw SET and WHERE clauses. */
  predicate MarksInRaw(q: Clauses) {
    && Plain(Mysql, q.model.table) && Plain(Mysql, SelectHead(q)) && Plain(Mysql, Tail(q))
    && Plain(Mysql, Optional(" ", q.joins))
  }

  lemma {:induction false} UnmarkedTable(head: string, table: string, mid: string, rest: seq<Tok>)
    requires Plain(Mysql, head) && Plain(Mysql, table) && Plain(Mysql, mid) && Unmarked(rest)
    ensures Unmarked(Text(head) + ([Ident(table)] + (Text(mid) + rest)))
  {
    UnmarkedText<Option<Value>>(head);
    UnmarkedText<Option<Value>>(mid);
    UnmarkedConcat(Text(mid), rest);
    UnmarkedConcat<Option<Value>>([Ident(table)], Text(mid) + rest);
    UnmarkedConcat(Text(head), [Ident(table)] + (Text(mid) + rest));
  }

  lemma {:induction false} UnmarkedWhere(where: seq<Tok>)
    requires Unmarked(where)
    ensures Unmarked(WherePart(where))
  {
    UnmarkedText<Option<Value>>(" WHERE ");
    UnmarkedConcat(Text(" WHERE "), where);
  }

  lemma {:induction false} UnmarkedIntended(q: Clauses, i: Intent)
    requires MarksInRaw(q) && !q.op.Insert? && (q.op.Update? ==> Assigned(i) != [])
    requires Unmarked(Assigned(i)) && Unmarked(i.raw + i.late)
    ensures Unmarked(Intended(q, i))
  {
    var where := WherePart(i.raw + i.late);
    UnmarkedWhere(i.raw + i.late);
    match q.op
    case Select =>
      UnmarkedText<Option<Value>>(Tail(q));
      UnmarkedConcat(where, Text(Tail(q)));
      UnmarkedTable(SelectHead(q), q.model.table, Optional(" ", q.joins), where + Text(Tail(q)));
    case Update =>
      UnmarkedConcat(Assigned(i), where);
      UnmarkedTable("UPDATE ", q.model.table, " SET ", Assigned(i) + where);
    case Delete =>
      UnmarkedText<Option<Value>>("DELETE FROM ");
      UnmarkedConcat<Option<Value>>([Ident(q.model.table)], where);
      UnmarkedConcat(Text("DELETE FROM "), [Ident(q.model.table)] + where);
  }

  /** The `?` of the text, counted, are the holes of the statement meant, in order. */
  lemma {:induction false} CountedAsMeant(q: Clauses, b: Buffers, i: Intent)
    requires Faithful(Sqlite, b, i) && !Pending(HolesOf(i)) && Suits(Sqlite, q.op, i) && MarksInRaw(q)
    ensures BindPieces(ReadMarks(Built(Sqlite, View(q, b)), 0), b.params) == Seen(Sqlite, Intended(q, i))
  {
    IntendedBuilt(Sqlite, q, b, i);
    UnmarkedMeant(q, b, i);
    IntendedHoles(q, i);
    HolesAreParams(i, b.params);
    hide Intended, Built, ReadMarks, BindPieces, Seen, Faithful, Suits, MarksInRaw, Holes;
    CountedInOrder(Intended(q, i), b.params);
  }

  lemma {:induction false} UnmarkedMeant(q: Clauses, b: Buffers, i: Intent)
    requires Faithful(Sqlite, b, i) && Suits(Sqlite, q.op, i) && MarksInRaw(q)
    ensures Unmarked(Intended(q, i))
  {
    hide MarksInRaw, Intended, ClauseText, Aligned, Pending;
    UnmarkedIntended(q, i);
  }

  lemma {:induction false} CountedInOrder(ts: seq<Tok>, params: seq<Value>)
    requires Unmarked(ts) && Holes(ts) == Somes(params)
    ensures BindPieces(ReadMarks(Numbered(Sqlite, ts, 0), 0), params) == Seen(Sqlite, ts)
  {
    hide Unmarked, ReadMarks, BindPieces, Seen, Number, Render, Fill, Meaning, InOrder;
    UnmarkedNumber(ts, 0);
    NumberInOrder(ts, 0);
    MarksRender(Sqlite, Number(ts, 0), 0);
    FillNumber(ts, 0, params);
    BindMeaning(Sqlite, Number(ts, 0), params);
  }

  // ----- The theorem

  /** On SQLite, after any disciplined run of calls that leaves no hole waiting, the database sees the statement
      meant exactly if the text has no other parameters than `?`. */
  lemma {:induction false} SqliteExactly(calls: seq<Call>, q: Clauses)
    requires Disciplined(Sqlite, calls) && MarksInRaw(q)
    requires !Pending(HolesOf(MeanAll(Sqlite, calls))) && Suits(Sqlite, q.op, MeanAll(Sqlite, calls))
    ensures var i, b := MeanAll(Sqlite, calls), DoAll(Sqlite, calls);
            var text := Built(Sqlite, View(q, b));
            Executed(Sqlite, text, b.params) == Seen(Sqlite, Intended(q, i)) <==> OnlyMarks(text, false)
  {
    var b := DoAll(Sqlite, calls);
    var text := Built(Sqlite, View(q, b));
    RunFaithful(Sqlite, calls);
    CountedAsMeant(q, b, MeanAll(Sqlite, calls));
    CountedExactly(text, 0, map[], false);
    MarksLength(text, 0);
  }

  // ----- A statement that does not say what is meant

  lemma {:induction false} NamedAt(text: string, k: nat, inName: bool)
    requires k + 1 < |text| && text[k] == ':' && NameChar(text[k + 1])
    ensures !OnlyMarks(text, inName)
  {
    if k > 0 {
      NamedAt(text[1..], k - 1, NameChar(text[0]));
    }
  }

  lemma {:induction false} DeleteText(q: Clauses)
    requires q.op.Delete? && q.where != ""
    ensures Built(Sqlite, q) == ("DELETE FROM " + Quoted(Sqlite, q.model.table) + " WHERE ") + q.where
  {
    var where := Scan(q.where);
    RewriteIsIdentity(Sqlite, q.where, 0);
    NumberedText(Sqlite, " WHERE ", where, 0);
    NumberedIdent(Sqlite, q.model.table, WherePart(where), 0);
    NumberedText(Sqlite, "DELETE FROM ", [Ident(q.model.table)] + WherePart(where), 0);
  }

  function NamedCalls(v: Value): seq<Call> {
    [Where("a = :x"), Where("b = ?"), Bind(v)]
  }

  lemma {:induction false} NamedBuffers(v: Value)
    ensures DoAll(Sqlite, NamedCalls(v)) == Buffers("a = :x" + " AND " + "b = ?", "", [v])
  {
    var calls, one := NamedCalls(v), [Where("a = :x")];
    assert calls[..2] == [Where("a = :x"), Where("b = ?")] && calls[..2][..1] == one && one[..0] == [];
    assert DoAll(Sqlite, one) == Buffers("a = :x", "", []);
    hide Placeholder, InList, Quoted;
    assert DoAll(Sqlite, calls[..2]) == Do(Sqlite, DoAll(Sqlite, one), Where("b = ?"));
    assert DoAll(Sqlite, calls) == Do(Sqlite, DoAll(Sqlite, calls[..2]), Bind(v));
    assert [] + [v] == [v];
  }

  /** The conditions, before the value is bound. */
  function NamedRaw(): seq<Tok> {
    Waiting("a = :x") + (Text(" AND ") + Waiting("b = ?"))
  }

  lemma {:induction false} NamedHoles()
    ensures Holes(NamedRaw()) == [None]
  {
    assert Waiting("a = :x") == Text("a = :x") && Waiting("b = ?") == Text("b = ") + [Hole(None)];
    hide Holes, Waiting, Text;
    TextHasNoHoles<Option<Value>>("a = :x");
    TextHasNoHoles<Option<Value>>(" AND ");
    TextHasNoHoles<Option<Value>>("b = ");
    HolesConcat<Option<Value>>(Text("b = "), [Hole(None)]);
    OneHole();
    HolesConcat(Text(" AND "), Waiting("b = ?"));
    HolesConcat(Waiting("a = :x"), Text(" AND ") + Waiting("b = ?"));
  }

  lemma {:induction false} OneHole()
    ensures Holes<Option<Value>>([Hole(None)]) == [None]
  {}

  lemma {:induction false} NamedFirst()
    ensures MeanAll(Sqlite, [Where("a = :x")]) == Intent([], [], Waiting("a = :x"), [])
    ensures Disciplined(Sqlite, [Where("a = :x")])
  {
    var one := [Where("a = :x")];
    assert one[..0] == [] && one[0] == Where("a = :x");
    assert [] + ([] + Waiting("a = :x")) == Waiting("a = :x");
  }

  lemma {:induction false} NamedSecond()
    ensures MeanAll(Sqlite, [Where("a = :x"), Where("b = ?")]) == Intent([], [], NamedRaw(), [])
    ensures Disciplined(Sqlite, [Where("a = :x"), Where("b = ?")])
  {
    NamedFirst();
    var two := [Where("a = :x"), Where("b = ?")];
    assert two[..1] == [Where("a = :x")] && two[1] == Where("b = ?");
    assert |Waiting("a = :x")| > 0;
    hide Waiting, Text;
  }

  lemma {:induction false} RawHoles(raw: seq<Tok>)
    ensures HolesOf(Intent([], [], raw, [])) == Holes(raw)
  {
    NoHoles();
    hide Holes;
    assert ([] + []) + (Holes(raw) + []) == Holes(raw);
  }

  lemma {:induction false} NamedGiven(v: Value)
    ensures var i := Intent([], [], NamedRaw(), []);
            && Pending(HolesOf(i))
            && Mean(Sqlite, i, Bind(v)) == Intent([], [], GiveFirst(NamedRaw(), v), [])
            && Holes(GiveFirst(NamedRaw(), v)) == [Some(v)]
  {
    hide NamedRaw, GiveFirst, Holes;
    NamedHoles();
    RawHoles(NamedRaw());
    assert Holes(NamedRaw())[0] == None;
    WaitsIfPending(NamedRaw());
    GivenHoles(NamedRaw(), v, 0);
  }

  lemma {:induction false} NamedMeant(v: Value)
    ensures Disciplined(Sqlite, NamedCalls(v))
    ensures var i := MeanAll(Sqlite, NamedCalls(v));
            !Pending(HolesOf(i)) && Suits(Sqlite, Op.Delete, i)
  {
    var calls := NamedCalls(v);
    assert calls[..2] == [Where("a = :x"), Where("b = ?")] && calls[2] == Bind(v);
    hide NamedRaw, GiveFirst, Holes, Mean;
    NoHoles();
    NamedSecond();
    NamedGiven(v);
    RawHoles(GiveFirst(NamedRaw(), v));
    assert MeanAll(Sqlite, calls) == Mean(Sqlite, MeanAll(Sqlite, calls[..2]), Bind(v));
  }

  /** `DELETE FROM t WHERE a = :x AND b = ?` with one value: it goes to `:x`, and nothing to `b`. */
  lemma {:induction false} NamedMisread(v: Value)
    ensures var calls, q := NamedCalls(v), Blank(Op.Delete, Example(false));
            var i, b := MeanAll(Sqlite, calls), DoAll(Sqlite, calls);
            && Disciplined(Sqlite, calls) && !Pending(HolesOf(i))
            && Executed(Sqlite, Built(Sqlite, View(q, b)), b.params) != Seen(Sqlite, Intended(q, i))
  {
    var calls, q := NamedCalls(v), Blank(Op.Delete, Example(false));
    NamedMeant(v);
    NamedText(q, v);
    ExamplePlain();
    hide NamedCalls, DoAll, MeanAll, Disciplined, OnlyMarks, Built, Seen, Executed, Intended, Example, Pending;
    SqliteExactly(calls, q);
  }

  lemma {:induction false} NamedText(q: Clauses, v: Value)
    requires q.op.Delete?
    ensures !OnlyMarks(Built(Sqlite, View(q, DoAll(Sqlite, NamedCalls(v)))), false)
  {
    hide Number, Numbered, Built, DoAll, Quoted, Do;
    NamedBuffers(v);
    var w := View(q, DoAll(Sqlite, NamedCalls(v)));
    var head := "DELETE FROM " + Quoted(Sqlite, q.model.table) + " WHERE ";
    DeleteText(w);
    hide OnlyMarks;
    assert (head + w.where)[|head| + 4] == w.where[4] && (head + w.where)[|head| + 5] == w.where[5];
    NamedAt(head + w.where, |head| + 4, false);
  }

  lemma {:induction false} ExamplePlain()
    ensures MarksInRaw(Blank(Op.Delete, Example(false)))
  {}
}
