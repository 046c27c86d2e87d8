/**
 What the helpers with values contribute to the statement that the database sees: the condition of the last call
 with its own values, each in its place.
*/
module HelperMeaning {
  import opened Common
  import opened SqlText
  import opened Builder
  import opened Dialects
  import opened QueryCalls
  import opened Alignment
  import opened Execution

  function Chars(s: string): (bs: seq<Bound>)
    ensures |bs| == |s|
  {
    seq(|s|, i requires 0 <= i < |s| => Char(s[i]))
  }

  /** The values, separated by commas. */
  function ValueList(vals: seq<Value>): seq<Bound> {
    if vals == [] then []
    else if |vals| == 1 then [Val(Some(vals[0]))]
    else ValueList(vals[..|vals| - 1]) + (Chars(", ") + [Val(Some(vals[|vals| - 1]))])
  }

  /** A call that adds a condition of its own. */
  predicate Helps(call: Call) {
    match call
    case WhereNull(field) => ValidIdentifier(field)
    case WhereNotNull(field) => ValidIdentifier(field)
    case WhereIn(field, vals) => ValidIdentifier(field) && vals != []
    case WhereBetween(field, _, _) => ValidIdentifier(field)
    case _ => false
  }

  /** Its condition, with its values. */
  function ConditionSeen(call: Call): seq<Bound>
    requires Helps(call)
  {
    match call
    case WhereNull(field) => Chars(field + " IS NULL")
    case WhereNotNull(field) => Chars(field + " IS NOT NULL")
    case WhereIn(field, vals) => Chars(field + " IN (") + (ValueList(vals) + Chars(")"))
    case WhereBetween(field, min, max) =>
      Chars(field + " BETWEEN ") + ([Val(Some(min))] + (Chars(" AND ") + [Val(Some(max))]))
  }

  predicate EndsIn<T(==)>(s: seq<T>, end: seq<T>) {
    |end| <= |s| && s[|s| - |end|..] == end
  }

  lemma {:induction false} EndsAfter<T>(front: seq<T>, end: seq<T>)
    ensures EndsIn(front + end, end)
  {}

  // ----- What is seen of tokens

  lemma {:induction false} SeenConcat(bt: Backend, a: seq<Tok>, b: seq<Tok>)
    ensures Seen(bt, a + b) == Seen(bt, a) + Seen(bt, b)
  {
    if a == [] {
      assert a + b == b;
    } else {
      assert (a + b)[0] == a[0] && (a + b)[1..] == a[1..] + b;
      SeenConcat(bt, a[1..], b);
    }
  }

  lemma {:induction false} SeenText(bt: Backend, s: string)
    ensures Seen(bt, Text(s)) == Chars(s)
  {
    if s != "" {
      var ts: seq<Tok> := Text(s);
      assert ts[0] == Chr(s[0]) && ts[1..] == Text(s[1..]);
      SeenText(bt, s[1..]);
    }
  }

  lemma {:induction false} SeenHole(bt: Backend, v: Value)
    ensures Seen(bt, [Hole(Some(v))]) == [Val(Some(v))]
  {}

  lemma {:induction false} SeenList(bt: Backend, vals: seq<Value>)
    ensures Seen(bt, HoleList(Somes(vals))) == ValueList(vals)
  {
    if vals != [] {
      var last := |vals| - 1;
      var hs := Somes(vals);
      assert hs[..last] == Somes(vals[..last]);
      SeenList(bt, vals[..last]);
      SeenText(bt, Comma(last));
      SeenHole(bt, vals[last]);
      SeenConcat(bt, Text(Comma(last)), [Hole(hs[last])]);
      SeenConcat(bt, HoleList(hs[..last]), Text(Comma(last)) + [Hole(hs[last])]);
    }
  }

  // ----- The last call

  /** The tokens that the call means. */
  function Tokens(call: Call): seq<Tok>
    requires Helps(call)
  {
    match call
    case WhereNull(field) => Text(field + " IS NULL")
    case WhereNotNull(field) => Text(field + " IS NOT NULL")
    case WhereIn(field, vals) => Text(field + " IN (") + (HoleList(Somes(vals)) + Text(")"))
    case WhereBetween(field, min, max) =>
      Text(field + " BETWEEN ") + ([Hole(Some(min))] + (Text(" AND ") + [Hole(Some(max))]))
  }

  lemma {:induction false} TokensSeen(bt: Backend, call: Call)
    requires Helps(call)
    ensures Seen(bt, Tokens(call)) == ConditionSeen(call)
  {
    hide Seen, Text, HoleList, ValidIdentifier;
    match call
    case WhereNull(field) => SeenText(bt, field + " IS NULL");
    case WhereNotNull(field) => SeenText(bt, field + " IS NOT NULL");
    case WhereIn(field, vals) =>
      SeenText(bt, field + " IN (");
      SeenText(bt, ")");
      SeenList(bt, vals);
      SeenConcat(bt, HoleList(Somes(vals)), Text(")"));
      SeenConcat(bt, Text(field + " IN ("), HoleList(Somes(vals)) + Text(")"));
    case WhereBetween(field, min, max) =>
      SeenText(bt, field + " BETWEEN ");
      SeenText(bt, " AND ");
      SeenHole(bt, min);
      SeenHole(bt, max);
      SeenConcat(bt, Text(" AND "), [Hole(Some(max))]);
      SeenConcat(bt, [Hole(Some(min))], Text(" AND ") + [Hole(Some(max))]);
      SeenConcat(bt, Text(field + " BETWEEN "), [Hole(Some(min))] + (Text(" AND ") + [Hole(Some(max))]));
    case _ =>
  }

  lemma {:induction false} TokensLast(bt: Backend, i: Intent, call: Call)
    requires Helps(call)
    ensures var j := Mean(bt, i, call); EndsIn(j.raw + j.late, Tokens(call)) && Assigned(j) == Assigned(i)
  {
    hide Text, HoleList, ValidIdentifier, EndsIn;
    var j, ts := Mean(bt, i, call), Tokens(call);
    var and := Text<Option<Value>>(" AND ");
    if call.WhereNull? || call.WhereNotNull? {
      if i.late == [] {
        assert j.raw + j.late == (i.raw + Link(i.raw, " AND ")) + ts;
        EndsAfter(i.raw + Link(i.raw, " AND "), ts);
      } else {
        assert j.raw + j.late == (i.raw + i.late + and) + ts;
        EndsAfter(i.raw + i.late + and, ts);
      }
    } else {
      var link := Link(i.raw + i.late, " AND ");
      assert j.raw + j.late == (i.raw + i.late + link) + ts;
      EndsAfter(i.raw + i.late + link, ts);
    }
  }

  /** What follows the WHERE clause. */
  function AfterWhere(q: Clauses): string {
    if q.op.Select? then Tail(q) else ""
  }

  lemma {:induction false} AssembledEnds(q: Clauses, set_: seq<Tok>, where: seq<Tok>, end: seq<Tok>)
    requires !q.op.Insert? && (q.op.Update? ==> set_ != []) && EndsIn(where, end) && end != []
    ensures EndsIn(Assemble(q, set_, where, []), end + Text(AfterWhere(q)))
  {
    FrontAndEnd(where, end);
    hide Text, EndsIn, Tail;
    var front := where[..|where| - |end|];
    var tail := Text<Option<Value>>(AfterWhere(q));
    var head := HeadOf(q, set_) + (Text(" WHERE ") + front);
    AssembledParts(q, set_, where);
    Regroup(HeadOf(q, set_), Text(" WHERE "), front, end, tail);
    EndsAfter(head, end + tail);
  }

  lemma {:induction false} Regroup<T>(a: seq<T>, b: seq<T>, c: seq<T>, d: seq<T>, e: seq<T>)
    ensures a + ((b + (c + d)) + e) == (a + (b + c)) + (d + e)
  {}

  lemma {:induction false} FrontAndEnd<T>(s: seq<T>, end: seq<T>)
    requires EndsIn(s, end)
    ensures |end| <= |s| && s == s[..|s| - |end|] + end
  {}

  /** What comes before the WHERE clause. */
  function HeadOf(q: Clauses, set_: seq<Tok>): seq<Tok> {
    match q.op
    case Select => Text(SelectHead(q)) + ([Ident(q.model.table)] + Text(Optional(" ", q.joins)))
    case Update => Text("UPDATE ") + ([Ident(q.model.table)] + (Text(" SET ") + set_))
    case _ => Text("DELETE FROM ") + [Ident(q.model.table)]
  }

  lemma {:induction false} AssembledParts(q: Clauses, set_: seq<Tok>, where: seq<Tok>)
    requires !q.op.Insert? && (q.op.Update? ==> set_ != []) && where != []
    ensures Assemble(q, set_, where, []) == HeadOf(q, set_) + ((Text(" WHERE ") + where) + Text(AfterWhere(q)))
  {
    hide Tail, SelectHead, Optional;
    assert Text<Option<Value>>("") == [];
  }

  /** After any disciplined run that ends in a helper call and leaves no hole waiting, the WHERE clause that the
      database sees ends in the condition of that call with the values it was given, in their order. */
  lemma {:induction false} HelperSays(bt: Backend, calls: seq<Call>, call: Call, q: Clauses)
    requires Disciplined(bt, calls + [call]) && Helps(call)
    requires forall k :: 0 <= k < |calls + [call]| ==> RawCall(bt, (calls + [call])[k])
    requires !Pending(HolesOf(MeanAll(bt, calls + [call]))) && Suits(bt, q.op, MeanAll(bt, calls + [call]))
    requires RawOnly(bt, q) && q.where == "" && q.setClause == ""
    ensures var b := DoAll(bt, calls + [call]);
            EndsIn(Executed(bt, Built(bt, View(q, b)), b.params), ConditionSeen(call) + Chars(AfterWhere(q)))
  {
    hide *;
    var all := calls + [call];
    var i, b := MeanAll(bt, all), DoAll(bt, all);
    ParametersAligned(bt, all, q);
    LastMeans(bt, calls, call);
    SuitsIntended(bt, q, i);
    SaysIntended(bt, q, i, b);
    TokensSome(call);
    IntendedEnds(q, i, Tokens(call));
    SeenEnds(bt, Intended(q, i), Tokens(call) + Text(AfterWhere(q)));
    SeenConcat(bt, Tokens(call), Text(AfterWhere(q)));
    TokensSeen(bt, call);
    SeenText(bt, AfterWhere(q));
  }

  lemma {:induction false} SuitsIntended(bt: Backend, q: Clauses, i: Intent)
    requires Suits(bt, q.op, i)
    ensures !q.op.Insert? && (q.op.Update? ==> Assigned(i) != [])
  {}

  lemma {:induction false} LastMeans(bt: Backend, calls: seq<Call>, call: Call)
    requires Helps(call)
    ensures var i := MeanAll(bt, calls + [call]); EndsIn(i.raw + i.late, Tokens(call))
  {
    hide Mean, EndsIn, Tokens, Helps;
    assert (calls + [call])[..|calls|] == calls;
    TokensLast(bt, MeanAll(bt, calls), call);
  }

  lemma {:induction false} TokensSome(call: Call)
    requires Helps(call)
    ensures Tokens(call) != []
  {}

  lemma {:induction false} IntendedEnds(q: Clauses, i: Intent, end: seq<Tok>)
    requires !q.op.Insert? && (q.op.Update? ==> Assigned(i) != []) && EndsIn(i.raw + i.late, end) && end != []
    ensures EndsIn(Intended(q, i), end + Text(AfterWhere(q)))
  {
    AssembledEnds(q, Assigned(i), i.raw + i.late, end);
  }

  lemma {:induction false} SaysIntended(bt: Backend, q: Clauses, i: Intent, b: Buffers)
    requires q.op.Update? ==> Assigned(i) != []
    requires Read(bt, Built(bt, View(q, b)), 0) == Meaning(bt, Number(Intended(q, i), 0))
    requires Fill(Number(Intended(q, i), 0), b.params) == Intended(q, i)
    ensures Executed(bt, Built(bt, View(q, b)), b.params) == Seen(bt, Intended(q, i))
  {
    hide Read, Built, Meaning, Number, Intended, Fill, BindPieces, Seen;
    BindMeaning(bt, Number(Intended(q, i), 0), b.params);
  }

  lemma {:induction false} SeenEnds(bt: Backend, ts: seq<Tok>, end: seq<Tok>)
    requires EndsIn(ts, end)
    ensures EndsIn(Seen(bt, ts), Seen(bt, end))
  {
    FrontAndEnd(ts, end);
    hide Seen, EndsIn;
    SeenConcat(bt, ts[..|ts| - |end|], end);
    EndsAfter(Seen(bt, ts[..|ts| - |end|]), Seen(bt, end));
  }
}
