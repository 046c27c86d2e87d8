/**
 UPDATE with a SET clause on Postgres. `Set` and the helpers write their numbers themselves, and the builder,
 which counts only `?`, numbers those of the raw WHERE conditions as if the values of `Set` were not there.
 What the database then reads, and when that is the statement meant.
*/
module PostgresUpdate {
  import opened Common
  import opened SqlText
  import opened Builder
  import opened Dialects
  import opened QueryCalls
  import opened Alignment
  import opened Execution

  /** A clause with the numbers in its text: the builder numbers the holes of its raw part from `start` on, the
      helpers have written `from` and so on. */
  function ClauseNumbered(raw: seq<Tok>, late: seq<Tok>, start: nat, from: nat): seq<Token<nat>> {
    Number(raw, start) + Number(late, from)
  }

  /** The UPDATE with the numbers in its text; those of `Set` begin with `from`, and those of the helpers in the
      WHERE clause with `base + r`, where `r` counts the holes of the raw conditions. */
  function UpdateNumbered(q: Clauses, i: Intent, from: nat, base: nat): seq<Token<nat>>
    requires q.op.Update? && Assigned(i) != []
  {
    Assemble(q, ClauseNumbered(i.setRaw, i.set_, 0, from),
             ClauseNumbered(i.raw, i.late, |Holes(i.setRaw)|, base + |Holes(i.raw)|), [])
  }

  /** The buffers hold the clauses with these numbers. */
  predicate Holding(b: Buffers, i: Intent, from: nat, base: nat) {
    && b.where == ClauseText(Postgres, base, i.raw, i.late)
    && b.setClause == Numbered(Sqlite, i.setRaw, 0) + Numbered(Postgres, i.set_, from)
    && Markless(i.setRaw) && Markless(i.set_) && Markless(i.raw) && Markless(i.late)
  }

  // ----- The text

  lemma {:induction false} RenderedText(bt: Backend, s: string, rest: seq<Token<nat>>)
    ensures Render(bt, Text<nat>(s) + rest) == s + Render(bt, rest)
  {
    RenderText(bt, s);
    RenderConcat(bt, Text<nat>(s), rest);
  }

  lemma {:induction false} RenderedIdent(bt: Backend, name: string, rest: seq<Token<nat>>)
    ensures Render(bt, [Ident(name)] + rest) == Quoted(bt, name) + Render(bt, rest)
  {
    var first: seq<Token<nat>> := [Ident(name)];
    assert Render(bt, first) == Quoted(bt, name) + Render(bt, []);
    RenderConcat(bt, first, rest);
  }

  lemma {:induction false} UpdateRendered(q: Clauses, s: seq<Token<nat>>, w: seq<Token<nat>>)
    requires q.op.Update? && s != []
    ensures Render(Postgres, Assemble(q, s, w, []))
            == "UPDATE "
               + (Quoted(Postgres, q.model.table) + (" SET " + (Render(Postgres, s) + Render(Postgres, WherePart(w)))))
  {
    RenderConcat(Postgres, s, WherePart(w));
    RenderedText(Postgres, " SET ", s + WherePart(w));
    RenderedIdent(Postgres, q.model.table, Text(" SET ") + (s + WherePart(w)));
    RenderedText(Postgres, "UPDATE ", [Ident(q.model.table)] + (Text(" SET ") + (s + WherePart(w))));
  }

  /** The builder numbers the holes of the raw part, and leaves the placeholders of the helpers alone. */
  lemma {:induction false} ClauseScanned(raw: seq<Tok>, late: seq<Tok>, start: nat, from: nat)
    requires Markless(raw) && Markless(late)
    ensures var s := Scan(Numbered(Sqlite, raw, 0) + Numbered(Postgres, late, from));
            && Numbered(Postgres, s, start) == Render(Postgres, ClauseNumbered(raw, late, start, from))
            && |Holes(s)| == |Holes(raw)|
  {
    var text := Numbered(Postgres, late, from);
    PlaceholdersMarkless(late, from);
    RenderConcat(Postgres, Number(raw, start), Number(late, from));
    ScanConcat(Numbered(Sqlite, raw, 0), text);
    ScanRaw(raw, 0);
    EraseNumber(raw, start);
    ScanMarkless(Postgres, text, start + |Holes(raw)|);
    NumberedConcat(Postgres, Erase(raw), Scan(text), start);
    ScannedHoles(text);
    HolesConcat(Erase(raw), Scan(text));
  }

  lemma {:induction false} ScannedHoles(text: string)
    requires forall k :: 0 <= k < |text| ==> text[k] != '?'
    ensures Holes(Scan(text)) == []
  {
    assert Scan(text) == Text<()>(text);
    TextHasNoHoles<()>(text);
  }

  lemma {:induction false} SetNotEmpty(b: Buffers, i: Intent, from: nat, base: nat)
    requires Holding(b, i, from, base) && Assigned(i) != []
    ensures b.setClause != ""
  {
    EmptyText(Sqlite, i.setRaw, 0);
    EmptyText(Postgres, i.set_, from);
  }

  lemma {:induction false} WherePartRendered(b: Buffers, i: Intent, from: nat, base: nat)
    requires Holding(b, i, from, base)
    ensures var m := |Holes(i.setRaw)|;
            Numbered(Postgres, WherePart(Scan(b.where)), m)
            == Render(Postgres, WherePart(ClauseNumbered(i.raw, i.late, m, base + |Holes(i.raw)|)))
  {
    hide Number, Render, Scan, Holes;
    var m := |Holes(i.setRaw)|;
    ClauseScanned(i.raw, i.late, m, base + |Holes(i.raw)|);
    ClauseEmpty(Postgres, base, i.raw, i.late);
    if b.where != "" {
      NumberedText(Postgres, " WHERE ", Scan(b.where), m);
      RenderedText(Postgres, " WHERE ", ClauseNumbered(i.raw, i.late, m, base + |Holes(i.raw)|));
    }
  }

  lemma {:induction false} UpdateBuilt(q: Clauses, b: Buffers, i: Intent, from: nat, base: nat)
    requires Holding(b, i, from, base) && q.op.Update? && Assigned(i) != []
    ensures Built(Postgres, View(q, b)) == Render(Postgres, UpdateNumbered(q, i, from, base))
  {
    hide Numbered, Render, Scan, Holes, Markless;
    var v, m := View(q, b), |Holes(i.setRaw)|;
    SetNotEmpty(b, i, from, base);
    ClauseScanned(i.setRaw, i.set_, 0, from);
    WherePartRendered(b, i, from, base);
    UpdateParts(Postgres, q.model.table, Scan(b.setClause), WherePart(Scan(b.where)));
    UpdateRendered(q, ClauseNumbered(i.setRaw, i.set_, 0, from),
                   ClauseNumbered(i.raw, i.late, m, base + |Holes(i.raw)|));
    assert Built(Postgres, v) == Numbered(Postgres, Skeleton(v), 0) + "";
  }

  lemma {:induction false} ClauseClean(raw: seq<Tok>, late: seq<Tok>, start: nat, from: nat)
    requires Clean(Postgres, raw) && Clean(Postgres, late) && (raw == [] || SafeStart(late))
    ensures Clean(Postgres, ClauseNumbered(raw, late, start, from))
  {
    NumberClean(Postgres, raw, start);
    NumberClean(Postgres, late, from);
    if raw == [] {
      assert ClauseNumbered(raw, late, start, from) == Number(late, from);
    } else {
      CleanConcat(Postgres, Number(raw, start), Number(late, from));
    }
  }

  /** The database reads the tokens with their numbers. */
  lemma {:induction false} UpdateRead(q: Clauses, b: Buffers, i: Intent, from: nat, base: nat)
    requires Holding(b, i, from, base) && CleanIntent(Postgres, i) && q.op.Update? && Assigned(i) != []
    requires RawOnly(Postgres, q) && q.where == "" && q.setClause == ""
    ensures Read(Postgres, Built(Postgres, View(q, b)), 0) == Meaning(Postgres, UpdateNumbered(q, i, from, base))
  {
    hide Read, Render, Built, Meaning, Clean, Number, Numbered, Holes;
    UpdateBuilt(q, b, i, from, base);
    var k := base + |Holes(i.raw)|;
    ClauseClean(i.setRaw, i.set_, 0, from);
    ClauseClean(i.raw, i.late, |Holes(i.setRaw)|, k);
    CleanAssembled(Postgres, q, ClauseNumbered(i.setRaw, i.set_, 0, from),
                   ClauseNumbered(i.raw, i.late, |Holes(i.setRaw)|, k), []);
    ReadRender(Postgres, UpdateNumbered(q, i, from, base), 0);
  }

  // ----- The holes

  /** The numbers in an UPDATE, with m holes in the raw SET clause, n of `Set`, r in raw conditions and l of
      helpers. */
  function Numbers(m: nat, n: nat, r: nat, l: nat, from: nat, base: nat): (ks: seq<nat>)
    ensures |ks| == m + n + r + l
  {
    (Range(0, m) + Range(from, n)) + (Range(m, r) + Range(base + r, l))
  }

  function NumbersOf(i: Intent, from: nat, base: nat): (ks: seq<nat>)
    ensures |ks| == |HolesOf(i)|
  {
    Numbers(|Holes(i.setRaw)|, |Holes(i.set_)|, |Holes(i.raw)|, |Holes(i.late)|, from, base)
  }

  lemma {:induction false} ClauseHoles(raw: seq<Tok>, late: seq<Tok>, start: nat, from: nat)
    ensures Holes(ClauseNumbered(raw, late, start, from)) == Range(start, |Holes(raw)|) + Range(from, |Holes(late)|)
  {
    HolesConcat(Number(raw, start), Number(late, from));
    NumberHoles(raw, start);
    NumberHoles(late, from);
  }

  lemma {:induction false} UpdateHoles(q: Clauses, i: Intent, from: nat, base: nat)
    requires q.op.Update? && Assigned(i) != []
    ensures Holes(UpdateNumbered(q, i, from, base)) == NumbersOf(i, from, base)
  {
    var m, k := |Holes(i.setRaw)|, base + |Holes(i.raw)|;
    AssembledHoles(q, ClauseNumbered(i.setRaw, i.set_, 0, from), ClauseNumbered(i.raw, i.late, m, k), []);
    ClauseHoles(i.setRaw, i.set_, 0, from);
    ClauseHoles(i.raw, i.late, m, k);
  }

  lemma {:induction false} EraseText<H>(s: string)
    ensures Erase<H>(Text(s)) == Text<()>(s)
  {}

  lemma {:induction false} EraseUpdate<H>(q: Clauses, s: seq<Token<H>>, w: seq<Token<H>>)
    requires q.op.Update? && s != []
    ensures Erase(Assemble(q, s, w, [])) == Assemble(q, Erase(s), Erase(w), [])
  {
    var rest := s + WherePart(w);
    EraseText<H>("UPDATE ");
    EraseText<H>(" SET ");
    EraseText<H>(" WHERE ");
    EraseConcat<H>(Text(" WHERE "), w);
    EraseConcat(s, WherePart(w));
    EraseConcat<H>(Text(" SET "), rest);
    EraseConcat<H>([Ident(q.model.table)], Text(" SET ") + rest);
    EraseConcat<H>(Text("UPDATE "), [Ident(q.model.table)] + (Text(" SET ") + rest));
    assert Erase<H>([Ident(q.model.table)]) == [Ident(q.model.table)];
  }

  lemma {:induction false} EraseSame<H, K>(q: Clauses, s: seq<Token<H>>, w: seq<Token<H>>, t: seq<Token<K>>,
                                           x: seq<Token<K>>)
    requires q.op.Update? && s != [] && t != [] && Erase(s) == Erase(t) && Erase(w) == Erase(x)
    ensures Erase(Assemble(q, s, w, [])) == Erase(Assemble(q, t, x, []))
  {
    EraseUpdate(q, s, w);
    EraseUpdate(q, t, x);
  }

  lemma {:induction false} EraseClause(raw: seq<Tok>, late: seq<Tok>, start: nat, from: nat)
    ensures Erase(ClauseNumbered(raw, late, start, from)) == Erase(raw + late)
  {
    EraseOfNumber(raw, start);
    EraseOfNumber(late, from);
    EraseConcat(Number(raw, start), Number(late, from));
    EraseConcat(raw, late);
  }

  lemma {:induction false} SameShape(q: Clauses, i: Intent, from: nat, base: nat)
    requires q.op.Update? && Assigned(i) != []
    ensures Erase(UpdateNumbered(q, i, from, base)) == Erase(Intended(q, i))
  {
    hide Erase, ClauseNumbered, Number, Holes, Text, Assemble;
    var m, k := |Holes(i.setRaw)|, base + |Holes(i.raw)|;
    EraseClause(i.setRaw, i.set_, 0, from);
    EraseClause(i.raw, i.late, m, k);
    EraseSame(q, ClauseNumbered(i.setRaw, i.set_, 0, from), ClauseNumbered(i.raw, i.late, m, k),
              Assigned(i), i.raw + i.late);
  }

  lemma {:induction false} NumberAt(m: nat, n: nat, r: nat, l: nat, k: nat)
    requires k < m + n + r + l
    ensures Numbers(m, n, r, l, m, m + n)[k] == if m + n <= k < m + n + r then k - n else k
  {}

  lemma {:induction false} FoundAt(ks: seq<nat>, hs: seq<Option<Value>>, params: seq<Value>, k: nat)
    requires k < |ks| == |hs| && Found(ks, hs, params)
    ensures ValueAt(params, ks[k]) == hs[k]
  {}

  lemma {:induction false} RawFound(params: seq<Value>, m: nat, n: nat, r: nat, l: nat, k: nat)
    requires |params| == m + n + r + l && k < r
    requires Found(Numbers(m, n, r, l, m, m + n), Somes(params), params)
    ensures params[m + k] == params[m + n + k]
  {
    hide Numbers, Found;
    FoundAt(Numbers(m, n, r, l, m, m + n), Somes(params), params, m + n + k);
    NumberAt(m, n, r, l, m + n + k);
  }

  lemma {:induction false} EachFound(params: seq<Value>, m: nat, n: nat, r: nat, l: nat, k: nat)
    requires |params| == m + n + r + l && k < |params| && params[m..m + r] == params[m + n..m + n + r]
    ensures ValueAt(params, Numbers(m, n, r, l, m, m + n)[k]) == Somes(params)[k]
  {
    hide Numbers;
    NumberAt(m, n, r, l, k);
    if m + n <= k < m + n + r {
      assert params[m..m + r][k - m - n] == params[m + n..m + n + r][k - m - n];
    }
  }

  /** The numbers are right except that those of the raw conditions are `n` too low. */
  lemma {:induction false} FoundShifted(params: seq<Value>, m: nat, n: nat, r: nat, l: nat)
    requires |params| == m + n + r + l
    ensures Found(Numbers(m, n, r, l, m, m + n), Somes(params), params)
            <==> params[m..m + r] == params[m + n..m + n + r]
  {
    var ks, a, b := Numbers(m, n, r, l, m, m + n), params[m..m + r], params[m + n..m + n + r];
    hide Numbers;
    if Found(ks, Somes(params), params) {
      forall k | 0 <= k < r ensures a[k] == b[k] {
        RawFound(params, m, n, r, l, k);
      }
    }
    if a == b {
      forall k | 0 <= k < |ks| ensures ValueAt(params, ks[k]) == Somes(params)[k] {
        EachFound(params, m, n, r, l, k);
      }
    }
  }

  lemma {:induction false} SaysFound(q: Clauses, i: Intent, from: nat, base: nat, params: seq<Value>)
    requires q.op.Update? && Assigned(i) != []
    ensures BindPieces(Meaning(Postgres, UpdateNumbered(q, i, from, base)), params) == Seen(Postgres, Intended(q, i))
            <==> Found(NumbersOf(i, from, base), HolesOf(i), params)
  {
    SameShape(q, i, from, base);
    UpdateHoles(q, i, from, base);
    IntendedHoles(q, i);
    SaysExactly(Postgres, UpdateNumbered(q, i, from, base), Intended(q, i), params);
  }

  // ----- The theorems

  /** Disciplined calls that leave a complete UPDATE. */
  predicate CompleteUpdate(calls: seq<Call>, q: Clauses) {
    && Disciplined(Postgres, calls) && (forall k :: 0 <= k < |calls| ==> RawCall(Postgres, calls[k]))
    && Assigned(MeanAll(Postgres, calls)) != [] && !Pending(HolesOf(MeanAll(Postgres, calls)))
    && q.op.Update? && RawOnly(Postgres, q) && q.where == "" && q.setClause == ""
  }

  /** A complete UPDATE and the buffers that hold it. */
  predicate Complete(q: Clauses, b: Buffers, i: Intent) {
    && Faithful(Postgres, b, i) && CleanIntent(Postgres, i) && Assigned(i) != [] && !Pending(HolesOf(i))
    && q.op.Update? && RawOnly(Postgres, q) && q.where == "" && q.setClause == ""
  }

  lemma {:induction false} CompleteReads(q: Clauses, b: Buffers, i: Intent)
    requires Complete(q, b, i)
    ensures var m, n := |Holes(i.setRaw)|, |Holes(i.set_)|;
            var seen := Read(Postgres, Built(Postgres, View(q, b)), 0);
            && HolesOf(i) == Somes(b.params)
            && seen == Meaning(Postgres, UpdateNumbered(q, i, m, m + n))
            && Slots(seen) == NumbersOf(i, m, m + n)
  {
    hide Read, Built, Meaning, UpdateNumbered, Numbers, Markless, CleanIntent, RawOnly;
    var m, n := |Holes(i.setRaw)|, |Holes(i.set_)|;
    assert Holding(b, i, m, m + n);
    UpdateRead(q, b, i, m, m + n);
    SlotsAreHoles(Postgres, UpdateNumbered(q, i, m, m + n));
    UpdateHoles(q, i, m, m + n);
    HolesAreParams(i, b.params);
  }

  lemma {:induction false} CompleteCounts(q: Clauses, b: Buffers, i: Intent)
    requires Complete(q, b, i)
    ensures q.op.Update? && Assigned(i) != []
    ensures |b.params| == |Holes(i.setRaw)| + |Holes(i.set_)| + |Holes(i.raw)| + |Holes(i.late)|
  {
    AllBound(i, b.params);
  }

  lemma {:induction false} CompleteSays(q: Clauses, b: Buffers, i: Intent)
    requires Complete(q, b, i)
    ensures |Holes(i.setRaw)| + |Holes(i.set_)| + |Holes(i.raw)| <= |b.params|
    ensures var m, n := |Holes(i.setRaw)|, |Holes(i.set_)|;
            Executed(Postgres, Built(Postgres, View(q, b)), b.params) == Seen(Postgres, Intended(q, i))
            <==> b.params[m..m + |Holes(i.raw)|] == b.params[m + n..m + n + |Holes(i.raw)|]
  {
    hide Complete, Read, Built, Meaning, Seen, Intended, Found, Holes, Numbers, UpdateNumbered;
    var m, n := |Holes(i.setRaw)|, |Holes(i.set_)|;
    CompleteCounts(q, b, i);
    CompleteReads(q, b, i);
    SaysFound(q, i, m, m + n, b.params);
    FoundShifted(b.params, m, n, |Holes(i.raw)|, |Holes(i.late)|);
  }

  lemma {:induction false} RunComplete(calls: seq<Call>, q: Clauses)
    requires CompleteUpdate(calls, q)
    ensures Complete(q, DoAll(Postgres, calls), MeanAll(Postgres, calls))
  {
    RunFaithful(Postgres, calls);
    RunClean(Postgres, calls);
  }

  /** With m holes in a raw SET clause, n of `Set` and r in raw conditions, which have the parameters m + n,
      m + n + 1, ..., the database reads parameters m, m + 1, ..., m + r - 1 in the raw conditions; all other
      holes are read right. */
  lemma {:induction false} PostgresUpdateReads(calls: seq<Call>, q: Clauses)
    requires CompleteUpdate(calls, q)
    ensures var i, b := MeanAll(Postgres, calls), DoAll(Postgres, calls);
            var m, n := |Holes(i.setRaw)|, |Holes(i.set_)|;
            && HolesOf(i) == Somes(b.params)
            && Slots(Read(Postgres, Built(Postgres, View(q, b)), 0)) == NumbersOf(i, m, m + n)
  {
    hide *;
    var i, b := MeanAll(Postgres, calls), DoAll(Postgres, calls);
    RunComplete(calls, q);
    CompleteReads(q, b, i);
  }

  /** So the UPDATE says what is meant exactly if every value of a raw condition equals the parameter whose
      number its hole bears; in particular when no raw condition has a `?`, or `Set` was not called. */
  lemma {:induction false} PostgresUpdateExactly(calls: seq<Call>, q: Clauses)
    requires CompleteUpdate(calls, q)
    ensures var i, b := MeanAll(Postgres, calls), DoAll(Postgres, calls);
            var m, n, r := |Holes(i.setRaw)|, |Holes(i.set_)|, |Holes(i.raw)|;
            && m + n + r <= |b.params|
            && (Executed(Postgres, Built(Postgres, View(q, b)), b.params) == Seen(Postgres, Intended(q, i))
                <==> b.params[m..m + r] == b.params[m + n..m + n + r])
  {
    hide *;
    RunComplete(calls, q);
    CompleteSays(q, DoAll(Postgres, calls), MeanAll(Postgres, calls));
  }
}
