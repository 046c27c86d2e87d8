/**
 `corm_delete` on a model with a soft-delete field sets the column after the caller has bound the WHERE
 values, while the SET clause comes first in the text. When that still says what is meant.
*/
module SoftDelete {
  import opened Common
  import opened SqlText
  import opened Builder
  import opened Dialects
  import opened QueryCalls
  import opened Alignment
  import opened Execution
  import opened KeyedBatch
  import opened KeyedMeaning
  import opened PostgresUpdate
  import Q = Query

  /** A value in front equals the same value behind exactly when there is no other value. */
  lemma {:induction false} Rotated(ps: seq<Value>, v: Value)
    ensures [v] + ps == ps + [v] <==> forall k :: 0 <= k < |ps| ==> ps[k] == v
  {
    var a, b := [v] + ps, ps + [v];
    if a == b {
      RotatedAt(ps, v, |ps|);
    }
    if forall k :: 0 <= k < |ps| ==> ps[k] == v {
      assert forall k :: 0 <= k < |a| ==> a[k] == b[k];
    }
  }

  lemma {:induction false} RotatedAt(ps: seq<Value>, v: Value, n: nat)
    requires [v] + ps == ps + [v] && n <= |ps|
    ensures forall k :: 0 <= k < n ==> ps[k] == v
  {
    if n > 0 {
      RotatedAt(ps, v, n - 1);
      assert ([v] + ps)[n - 1] == (ps + [v])[n - 1] == ps[n - 1];
      if n > 1 {
        assert ([v] + ps)[n - 1] == ps[n - 2];
      }
    }
  }

  /** What is meant, with the late SET value. */
  function LateSet(bt: Backend, i: Intent, field: string, v: Value): (j: Intent)
    requires ValidIdentifier(field)
    ensures Assigned(j) != []
  {
    Mean(bt, i, Set(field, v))
  }

  lemma {:induction false} NothingAssigned(bt: Backend, b: Buffers, i: Intent)
    requires Shaped(bt, b, i) && Assigned(i) == []
    ensures i.setRaw == [] && i.set_ == [] && b.setClause == "" && SetHoles(i) == []
  {}

  /** The first assignment. */
  lemma {:induction false} FirstSet(bt: Backend, i: Intent, field: string, v: Value, n: nat)
    requires ValidIdentifier(field) && i.setRaw == [] && i.set_ == []
    ensures var j := Mean(bt, i, Set(field, v));
            && j.setRaw == [] && j.raw == i.raw && j.late == i.late && Markless(j.set_) && Holes(j.set_) == [Some(v)]
            && Assigned(j) == j.set_ != []
            && Numbered(bt, j.set_, n) == (Quoted(bt, field) + " = ") + Placeholder(bt, n)
            && SetHoles(j) == [Some(v)]
  {
    hide Number, Numbered, Placeholder, Holes, Quoted;
    var ts: seq<Tok> := Text(Quoted(bt, field) + " = ") + [Hole(Some(v))];
    SetTokens(bt, field, v, n);
    NoHoles();
    assert [] + (Link(Assigned(i), ", ") + ts) == ts && [] + ts == ts;
    assert [] + [Some(v)] == [Some(v)];
  }

  /** The buffers after the late SET call keep the shape of the intended clauses. */
  lemma {:induction false} LateSetShaped(bt: Backend, b: Buffers, i: Intent, field: string, v: Value)
    requires Shaped(bt, b, i) && Assigned(i) == [] && ValidIdentifier(field) && !bt.Postgres?
    ensures Shaped(bt, Do(bt, b, Set(field, v)), Mean(bt, i, Set(field, v)))
    ensures HolesOf(Mean(bt, i, Set(field, v))) == [Some(v)] + HolesOf(i)
  {
    hide Number, Numbered, Placeholder, Holes, Quoted, Markless;
    var j := Mean(bt, i, Set(field, v));
    NothingAssigned(bt, b, i);
    FirstSet(bt, i, field, v, |b.params|);
    MarksIgnoreStart(bt, j.set_, |b.params|, 0);
    AloneText(bt, j.set_, 0);
    Unshifted(Holes(i.raw) + Holes(i.late));
  }

  lemma {:induction false} AloneText(bt: Backend, ts: seq<Tok>, n: nat)
    ensures ClauseText(bt, n, [], ts) == Numbered(bt, ts, n) && Numbered<Option<Value>>(Sqlite, [], 0) == ""
  {}

  lemma {:induction false} Unshifted(hs: seq<Option<Value>>)
    ensures [] + hs == hs
  {}

  /** What the database sees when the parameters are in another order than the holes. */
  lemma {:induction false} LateSetSays(bt: Backend, q: Clauses, b: Buffers, i: Intent)
    requires Shaped(bt, b, i) && CleanIntent(bt, i) && q.op.Update? && Assigned(i) != [] && !bt.Postgres?
    requires RawOnly(bt, q) && q.where == "" && q.setClause == ""
    ensures Executed(bt, Built(bt, View(q, b)), b.params) == Seen(bt, Intended(q, i))
            <==> Found(Range(0, |HolesOf(i)|), HolesOf(i), b.params)
  {
    var ts := Intended(q, i);
    IntendedBuilt(bt, q, b, i);
    WhereClean(bt, i);
    SetClean(bt, i);
    CleanAssembled(bt, q, Assigned(i), i.raw + i.late, []);
    IntendedHoles(q, i);
    ReadNumbered(bt, ts);
    EraseOfNumber(ts, 0);
    NumberHoles(ts, 0);
    SaysExactly(bt, Number(ts, 0), ts, b.params);
  }

  /** On Postgres the SET clause names the parameter that comes last, and the numbers of the conditions fit. */
  lemma {:induction false} LateSetHolding(b: Buffers, i: Intent, field: string, v: Value)
    requires Shaped(Postgres, b, i) && Assigned(i) == [] && ValidIdentifier(field)
    ensures var j := Mean(Postgres, i, Set(field, v));
            && Holding(Do(Postgres, b, Set(field, v)), j, |b.params|, 0) && Assigned(j) != []
            && HolesOf(j) == [Some(v)] + HolesOf(i)
            && NumbersOf(j, |b.params|, 0)
               == Range(|b.params|, 1) + (Range(0, |Holes(i.raw)|) + Range(|Holes(i.raw)|, |Holes(i.late)|))
  {
    hide Number, Numbered, Placeholder, Holes, Quoted, Markless;
    NothingAssigned(Postgres, b, i);
    NoHoles();
    FirstSet(Postgres, i, field, v, |b.params|);
    AloneText(Postgres, [], 0);
    Unshifted(Holes(i.raw) + Holes(i.late));
    assert Range(0, 0) + Range(|b.params|, 1) == Range(|b.params|, 1);
  }

  lemma {:induction false} FoundBehind(ps: seq<Value>, v: Value, r: nat, l: nat)
    requires |ps| == r + l
    ensures Found(Range(|ps|, 1) + (Range(0, r) + Range(r, l)), [Some(v)] + Somes(ps), ps + [v])
  {
    var ks := Range(|ps|, 1) + (Range(0, r) + Range(r, l));
    assert forall k :: 1 <= k < |ks| ==> ks[k] == k - 1;
  }

  lemma {:induction false} NothingBefore(i: Intent, params: seq<Value>)
    requires Aligned(HolesOf(i), params) && !Pending(HolesOf(i)) && Assigned(i) == []
    ensures |params| == |Holes(i.raw)| + |Holes(i.late)|
  {
    AllBound(i, params);
  }

  lemma {:induction false} LateSetOnPostgres(q: Clauses, b: Buffers, i: Intent, field: string, v: Value)
    requires Faithful(Postgres, b, i) && CleanIntent(Postgres, i) && Assigned(i) == [] && !Pending(HolesOf(i))
    requires q.op.Update? && RawOnly(Postgres, q) && q.where == "" && q.setClause == "" && ValidIdentifier(field)
    ensures var c := Do(Postgres, b, Set(field, v));
            Executed(Postgres, Built(Postgres, View(q, c)), c.params)
            == Seen(Postgres, Intended(q, LateSet(Postgres, i, field, v)))
  {
    hide Read, Built, Meaning, Found, CleanIntent, Intended;
    var c, j := Do(Postgres, b, Set(field, v)), Mean(Postgres, i, Set(field, v));
    LateSetHolding(b, i, field, v);
    CallClean(Postgres, i, Set(field, v));
    UpdateRead(q, c, j, |b.params|, 0);
    HolesAreParams(i, b.params);
    NothingBefore(i, b.params);
    SaysFound(q, j, |b.params|, 0, c.params);
    FoundBehind(b.params, v, |Holes(i.raw)|, |Holes(i.late)|);
  }

  lemma {:induction false} LateSetOnMarks(bt: Backend, q: Clauses, b: Buffers, i: Intent, field: string, v: Value)
    requires Faithful(bt, b, i) && CleanIntent(bt, i) && Assigned(i) == [] && !Pending(HolesOf(i)) && !bt.Postgres?
    requires q.op.Update? && RawOnly(bt, q) && q.where == "" && q.setClause == "" && ValidIdentifier(field)
    ensures var c := Do(bt, b, Set(field, v));
            Executed(bt, Built(bt, View(q, c)), c.params) == Seen(bt, Intended(q, LateSet(bt, i, field, v)))
            <==> forall k :: 0 <= k < |b.params| ==> b.params[k] == v
  {
    hide Number, Numbered, Holes, Markless, Clean, Aligned, Pending;
    CallClean(bt, i, Set(field, v));
    LateSetShaped(bt, b, i, field, v);
    HolesAreParams(i, b.params);
    LateSetSays(bt, q, Do(bt, b, Set(field, v)), Mean(bt, i, Set(field, v)));
    Rotated(b.params, v);
    RotationFound(b.params, v);
  }

  /** When values were bound for the WHERE clause before the SET value: on Postgres the UPDATE says what is
      meant. On the `?` dialects it does exactly if every one of those values equals the SET value, so in
      particular when none was bound; otherwise the column is set to the first WHERE value, and every WHERE
      hole gets the value meant for the next one. */
  lemma {:induction false} LateSetExactly(bt: Backend, calls: seq<Call>, q: Clauses, field: string, v: Value)
    requires Disciplined(bt, calls) && forall k :: 0 <= k < |calls| ==> RawCall(bt, calls[k])
    requires Assigned(MeanAll(bt, calls)) == [] && !Pending(HolesOf(MeanAll(bt, calls)))
    requires q.op.Update? && RawOnly(bt, q) && q.where == "" && q.setClause == "" && ValidIdentifier(field)
    ensures var b := Do(bt, DoAll(bt, calls), Set(field, v));
            var i := LateSet(bt, MeanAll(bt, calls), field, v);
            Executed(bt, Built(bt, View(q, b)), b.params) == Seen(bt, Intended(q, i))
            <==> bt.Postgres? || forall k :: 0 <= k < |DoAll(bt, calls).params| ==> DoAll(bt, calls).params[k] == v
  {
    RunFaithful(bt, calls);
    RunClean(bt, calls);
    if bt.Postgres? {
      LateSetOnPostgres(q, DoAll(bt, calls), MeanAll(bt, calls), field, v);
    } else {
      LateSetOnMarks(bt, q, DoAll(bt, calls), MeanAll(bt, calls), field, v);
    }
  }

  lemma {:induction false} RotationFound(ps: seq<Value>, v: Value)
    ensures Found(Range(0, |ps| + 1), [Some(v)] + Somes(ps), ps + [v]) <==> [v] + ps == ps + [v]
  {
    var a, b, ks, hs := [v] + ps, ps + [v], Range(0, |ps| + 1), [Some(v)] + Somes(ps);
    assert forall k :: 0 <= k < |ks| ==> ks[k] == k && hs[k] == Some(a[k]) && ValueAt(b, k) == Some(b[k]);
    if Found(ks, hs, b) {
      forall k | 0 <= k < |a| ensures a[k] == b[k] {
        assert ValueAt(b, ks[k]) == hs[k];
      }
    }
  }

  /** `corm_delete` where the id is 7, on SQLite: the column is set to 7, and the id compared with `deleted`. */
  lemma {:induction false} LateSetMisread()
    ensures var calls, q := [Where("id = ?"), Bind(Integer(7))], Blank(Op.Update, Example(true));
            var b := Do(Sqlite, DoAll(Sqlite, calls), Set("a", Str("deleted")));
            var i := LateSet(Sqlite, MeanAll(Sqlite, calls), "a", Str("deleted"));
            && Q.SoftColumn(q.model.fields) == Some("a") && Disciplined(Sqlite, calls)
            && Executed(Sqlite, Built(Sqlite, View(q, b)), b.params) != Seen(Sqlite, Intended(q, i))
  {
    var m, rec := Example(true), [Integer(7), Null];
    var calls, q := [Where("id = ?"), Bind(Integer(7))], Blank(Op.Update, m);
    assert "id" + " = ?" == "id = ?";
    assert [] + KeyCalls(m, rec) == calls;
    KeyMeans(Sqlite, m, rec, []);
    KeyRaw(Sqlite, m);
    BlankIsRaw(Sqlite, Op.Update, m);
    KeyBound(Sqlite, m, rec, []);
    LateSetExactly(Sqlite, calls, q, "a", Str("deleted"));
    RunFaithful(Sqlite, calls);
    HolesAreParams(MeanAll(Sqlite, calls), DoAll(Sqlite, calls).params);
    assert DoAll(Sqlite, calls).params[0] == Integer(7) by {
      assert HolesOf(MeanAll(Sqlite, calls))[0] == Some(Integer(7));
    }
  }
}
