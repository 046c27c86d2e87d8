/**
 Parameter alignment: under the discipline of module `QueryCalls` the buffers and parameters of a query stay
 faithful to what its calls mean, and the database finds every value in the hole it is meant for.
*/
module Alignment {
  import opened Common
  import opened SqlText
  import opened Builder
  import opened Dialects
  import opened QueryCalls

  // ----- Texts of tokens

  lemma {:induction false} WaitingText(bt: Backend, cond: string, start: nat)
    requires bt.Postgres? ==> Marks(cond) == 0
    ensures Numbered(bt, Waiting(cond), start) == cond
    ensures |Holes(Waiting(cond))| == Marks(cond)
    ensures forall k :: 0 <= k < |Holes(Waiting(cond))| ==> Holes(Waiting(cond))[k] == None
  {
    var ts := Waiting(cond);
    if cond != "" {
      assert cond == [cond[0]] + cond[1..];
      assert ts[1..] == Waiting(cond[1..]);
      WaitingText(bt, cond[1..], NextNumber(ts[0], start));
      assert Number(ts, start)[1..] == Number(ts[1..], NextNumber(ts[0], start));
      assert RenderToken(bt, Number(ts, start)[0]) == [cond[0]];
    }
  }

  /** In the `?` dialects the numbers do not show. */
  lemma {:induction false} MarksIgnoreStart<H>(bt: Backend, ts: seq<Token<H>>, a: nat, b: nat)
    requires !bt.Postgres?
    ensures Numbered(bt, ts, a) == Numbered(bt, ts, b)
  {
    if ts != [] {
      MarksIgnoreStart(bt, ts[1..], NextNumber(ts[0], a), NextNumber(ts[0], b));
      assert Number(ts, a)[1..] == Number(ts[1..], NextNumber(ts[0], a));
      assert Number(ts, b)[1..] == Number(ts[1..], NextNumber(ts[0], b));
    }
  }

  /** Sqlite and MySQL write holes alike. */
  lemma {:induction false} MarksAlike(bt: Backend, ts: seq<Tok>, a: nat, b: nat)
    requires !bt.Postgres? && Markless(ts)
    ensures Numbered(bt, ts, a) == Numbered(Sqlite, ts, b)
  {
    if ts != [] {
      MarksAlike(bt, ts[1..], NextNumber(ts[0], a), NextNumber(ts[0], b));
      assert Number(ts, a)[1..] == Number(ts[1..], NextNumber(ts[0], a));
      assert Number(ts, b)[1..] == Number(ts[1..], NextNumber(ts[0], b));
    }
  }

  lemma {:induction false} EmptyText(bt: Backend, ts: seq<Tok>, start: nat)
    requires Markless(ts)
    ensures Numbered(bt, ts, start) == "" <==> ts == []
  {
    if ts != [] {
      assert |RenderToken(bt, Number(ts, start)[0])| > 0;
    }
  }

  lemma {:induction false} ListShape<H, K>(a: seq<H>, b: seq<K>, start: nat)
    requires |a| == |b|
    ensures Number(HoleList(a), start) == Number(HoleList(b), start)
  {
    if a != [] {
      var last := |a| - 1;
      ListShape(a[..last], b[..last], start);
      HoleListHoles(a[..last]);
      HoleListHoles(b[..last]);
      NumberConcat<H>(HoleList(a[..last]), Text(Comma(last)) + [Hole(a[last])], start);
      NumberConcat<K>(HoleList(b[..last]), Text(Comma(last)) + [Hole(b[last])], start);
      NumberItem(Comma(last), a[last], start + last);
      NumberItem(Comma(last), b[last], start + last);
    }
  }

  lemma {:induction false} NumberItem<H>(s: string, h: H, start: nat)
    ensures Number(Text(s) + [Hole(h)], start) == Text<nat>(s) + [Hole(start)]
  {
    NumberConcat<H>(Text(s), [Hole(h)], start);
    NumberText<H>(s, start);
    TextHasNoHoles<H>(s);
    assert Number<H>([Hole(h)], start) == [Hole(start)];
  }

  lemma {:induction false} HoleListMarkless(hs: seq<Option<Value>>)
    ensures Markless(HoleList(hs))
  {
    if hs != [] {
      HoleListMarkless(hs[..|hs| - 1]);
    }
  }

  lemma {:induction false} IdentifierMarkless(field: string, suffix: string)
    requires ValidIdentifier(field) && HoleFree(suffix)
    ensures Markless(Text(field + suffix)) && HoleFree(field + suffix)
  {}

  // ----- Appending

  /** Appending to `raw`, in raw form. */
  lemma {:induction false} RawAppended(raw: seq<Tok>, connective: string, ts: seq<Tok>, text: string)
    requires Markless(raw) && Markless(ts) && HoleFree(connective) && Numbered(Sqlite, ts, 0) == text
    ensures Numbered(Sqlite, raw + (Link(raw, connective) + ts), 0)
            == Continued(Numbered(Sqlite, raw, 0), connective) + text
    ensures Holes(raw + (Link(raw, connective) + ts)) == Holes(raw) + Holes(ts)
    ensures Markless(raw + (Link(raw, connective) + ts))
  {
    EmptyText(Sqlite, raw, 0);
    LinkedText(Sqlite, raw, connective, ts, 0);
    MarksIgnoreStart(Sqlite, ts, |Holes(raw)|, 0);
  }

  /** Appending tokens with a connective when there is something before them. */
  lemma {:induction false} LinkedText(bt: Backend, before: seq<Tok>, connective: string, ts: seq<Tok>, start: nat)
    ensures Numbered(bt, before + (Link(before, connective) + ts), start)
            == Numbered(bt, before, start)
               + (if before == [] then Numbered(bt, ts, start)
                   else connective + Numbered(bt, ts, start + |Holes(before)|))
    ensures Holes(before + (Link(before, connective) + ts)) == Holes(before) + Holes(ts)
  {
    hide Numbered, Text, Holes;
    var k := start + |Holes(before)|;
    NumberedConcat(bt, before, Link(before, connective) + ts, start);
    HolesConcat(before, Link(before, connective) + ts);
    if before == [] {
      assert Link(before, connective) + ts == ts;
    } else {
      NumberedText(bt, connective, ts, k);
      TextHasNoHoles<Option<Value>>(connective);
      HolesConcat(Text(connective), ts);
    }
  }

  lemma {:induction false} ClauseEmpty(bt: Backend, base: nat, raw: seq<Tok>, late: seq<Tok>)
    requires Markless(raw) && Markless(late)
    ensures ClauseText(bt, base, raw, late) == "" <==> raw + late == []
  {
    EmptyText(Sqlite, raw, 0);
    EmptyText(bt, late, base + |Holes(raw)|);
  }

  /** Appending to `late`: what comes before is `raw + late`. */
  lemma {:induction false} LateAppended(bt: Backend, base: nat, raw: seq<Tok>, late: seq<Tok>, connective: string,
                                        ts: seq<Tok>, text: string)
    requires Markless(raw) && Markless(late) && Markless(ts) && HoleFree(connective)
    requires text == Numbered(bt, ts, base + |Holes(raw)| + |Holes(late)|)
    ensures var late' := late + (Link(raw + late, connective) + ts);
            && ClauseText(bt, base, raw, late') == Continued(ClauseText(bt, base, raw, late), connective) + text
            && Holes(late') == Holes(late) + Holes(ts) && Markless(late')
  {
    hide Render;
    ClauseEmpty(bt, base, raw, late);
    if raw + late == [] {
      assert raw == [] && late == [];
      assert late + (Link(raw + late, connective) + ts) == ts;
      assert ClauseText(bt, base, raw, ts) == text;
    } else {
      var from := base + |Holes(raw)|;
      LateLinked(bt, late, connective, ts, from);
      assert Numbered(bt, late + (Text(connective) + ts), from) == Numbered(bt, late, from) + (connective + text);
      AssociateLeft(Numbered(Sqlite, raw, 0), Numbered(bt, late, base + |Holes(raw)|), connective, text);
    }
  }

  lemma {:induction false} LateLinked(bt: Backend, late: seq<Tok>, connective: string, ts: seq<Tok>, start: nat)
    ensures Numbered(bt, late + (Text(connective) + ts), start)
            == Numbered(bt, late, start) + (connective + Numbered(bt, ts, start + |Holes(late)|))
    ensures Holes(late + (Text(connective) + ts)) == Holes(late) + Holes(ts)
  {
    hide Holes, Number, Numbered, Render, Text;
    NumberedText(bt, connective, ts, start + |Holes(late)|);
    NumberedThen(bt, late, Text(connective) + ts, start, connective + Numbered(bt, ts, start + |Holes(late)|));
    LinkHoles(late, connective, ts);
  }

  lemma {:induction false} LinkHoles(late: seq<Tok>, connective: string, ts: seq<Tok>)
    ensures Holes(late + (Text(connective) + ts)) == Holes(late) + Holes(ts)
  {
    TextHasNoHoles<Option<Value>>(connective);
    HolesConcat(Text(connective), ts);
    HolesConcat(late, Text(connective) + ts);
  }

  /** More holes that wait leave the bound ones where they are. */
  lemma {:induction false} AlignedWaiting(hs: seq<Option<Value>>, more: seq<Option<Value>>, params: seq<Value>)
    requires Aligned(hs, params) && forall k :: 0 <= k < |more| ==> more[k] == None
    ensures Aligned(hs + more, params)
  {}

  /** A condition without a value in its holes yet, appended by `Append`. */
  lemma {:induction false} ConditionKept(bt: Backend, b: Buffers, i: Intent, connective: string, ts: seq<Tok>,
                                         text: string)
    requires Faithful(bt, b, i) && Markless(ts) && HoleFree(connective) && connective != ""
    requires Numbered(Sqlite, ts, 0) == text
    requires forall k :: 0 <= k < |Holes(ts)| ==> Holes(ts)[k] == None
    requires bt.Postgres? && i.late != [] ==>
               Holes(ts) == [] && Numbered(bt, ts, Base(bt, i) + |Holes(i.raw)| + |Holes(i.late)|) == text
    ensures Faithful(bt, b.(where := Continued(b.where, connective) + text), Append(i, connective, ts))
  {
    AlignedWaiting(HolesOf(i), Holes(ts), b.params);
    if i.late == [] {
      RawConditionKept(bt, b, i, connective, ts, text);
    } else {
      LateConditionKept(bt, b, i, connective, ts, text);
    }
  }

  lemma {:induction false} RawConditionKept(bt: Backend, b: Buffers, i: Intent, connective: string, ts: seq<Tok>,
                                            text: string)
    requires Faithful(bt, b, i) && Markless(ts) && HoleFree(connective) && connective != ""
    requires Numbered(Sqlite, ts, 0) == text && Aligned(HolesOf(i) + Holes(ts), b.params) && i.late == []
    ensures Faithful(bt, b.(where := Continued(b.where, connective) + text), Append(i, connective, ts))
  {
    var raw := i.raw + (Link(i.raw, connective) + ts);
    RawAppended(i.raw, connective, ts, text);
    NothingLate(bt, Base(bt, i), i.raw);
    NothingLate(bt, Base(bt, i), raw);
    RawRegrouped(SetHoles(i), Holes(i.raw), Holes(ts));
    Replaced(bt, b, i, raw, [], Continued(b.where, connective) + text, b.params);
  }

  lemma {:induction false} NothingLate(bt: Backend, base: nat, raw: seq<Tok>)
    ensures ClauseText(bt, base, raw, []) == Numbered(Sqlite, raw, 0)
  {
    assert Numbered<Option<Value>>(bt, [], base + |Holes(raw)|) == "";
  }

  lemma {:induction false} RawRegrouped(s: seq<Option<Value>>, a: seq<Option<Value>>, more: seq<Option<Value>>)
    ensures (s + (a + [])) + more == s + ((a + more) + [])
  {}

  lemma {:induction false} HolesRegrouped(s: seq<Option<Value>>, a: seq<Option<Value>>, b: seq<Option<Value>>,
                                          more: seq<Option<Value>>)
    ensures (s + (a + b)) + more == s + (a + (b + more))
  {}

  /** The invariant for a new WHERE clause. */
  lemma {:induction false} Replaced(bt: Backend, b: Buffers, i: Intent, raw: seq<Tok>, late: seq<Tok>, where: string,
                                    params: seq<Value>)
    requires Shaped(bt, b, i) && Markless(raw) && Markless(late) && where == ClauseText(bt, Base(bt, i), raw, late)
    requires Aligned(SetHoles(i) + (Holes(raw) + Holes(late)), params)
    requires !Pending(Holes(i.set_)) && (bt.Postgres? ==> !Pending(Holes(late)))
    ensures Faithful(bt, b.(where := where, params := params), i.(raw := raw, late := late))
  {}

  lemma {:induction false} TextAt(bt: Backend, ts: seq<Tok>, start: nat, text: string)
    requires Markless(ts) && Numbered(Sqlite, ts, 0) == text
    requires bt.Postgres? ==> Numbered(bt, ts, start) == text
    ensures Numbered(bt, ts, start) == text
  {
    if !bt.Postgres? {
      MarksAlike(bt, ts, start, 0);
    }
  }

  lemma {:induction false} LateConditionKept(bt: Backend, b: Buffers, i: Intent, connective: string, ts: seq<Tok>,
                                             text: string)
    requires Faithful(bt, b, i) && Markless(ts) && HoleFree(connective) && connective != ""
    requires Numbered(Sqlite, ts, 0) == text && Aligned(HolesOf(i) + Holes(ts), b.params) && i.late != []
    requires bt.Postgres? ==>
               Holes(ts) == [] && Numbered(bt, ts, Base(bt, i) + |Holes(i.raw)| + |Holes(i.late)|) == text
    ensures Faithful(bt, b.(where := Continued(b.where, connective) + text), Append(i, connective, ts))
  {
    TextAt(bt, ts, Base(bt, i) + |Holes(i.raw)| + |Holes(i.late)|, text);
    LateAppended(bt, Base(bt, i), i.raw, i.late, connective, ts, text);
    var late := i.late + (Link(i.raw + i.late, connective) + ts);
    assert Append(i, connective, ts) == i.(late := late);
    LateReplaced(bt, b, i, late, Continued(b.where, connective) + text, b.params, Holes(ts));
  }

  lemma {:induction false} ShortIsPending(hs: seq<Option<Value>>, params: seq<Value>)
    requires Aligned(hs, params) && |params| < |hs|
    ensures Pending(hs)
  {
    assert hs[|params|] == None;
  }

  lemma {:induction false} AllBound(i: Intent, params: seq<Value>)
    requires Aligned(HolesOf(i), params) && !Pending(HolesOf(i))
    ensures |params| == |SetHoles(i)| + |Holes(i.raw)| + |Holes(i.late)|
  {
    if |params| < |HolesOf(i)| {
      ShortIsPending(HolesOf(i), params);
    }
  }

  /** A condition that brings its values along. */
  lemma {:induction false} HelperKept(bt: Backend, b: Buffers, i: Intent, ts: seq<Tok>, text: string, vals: seq<Value>)
    requires Faithful(bt, b, i) && !Pending(HolesOf(i)) && Markless(ts)
    requires Holes(ts) == Somes(vals)
    requires text == Numbered(bt, ts, |b.params|)
    ensures Faithful(bt, b.(where := Continued(b.where, " AND ") + text, params := b.params + vals), AppendLate(i, ts))
  {
    AllBound(i, b.params);
    var start := Base(bt, i) + |Holes(i.raw)| + |Holes(i.late)|;
    if !bt.Postgres? {
      MarksIgnoreStart(bt, ts, |b.params|, start);
    }
    LateAppended(bt, Base(bt, i), i.raw, i.late, " AND ", ts, text);
    AlignedMore(HolesOf(i), b.params, vals);
    var late := i.late + (Link(i.raw + i.late, " AND ") + ts);
    LateReplaced(bt, b, i, late, Continued(b.where, " AND ") + text, b.params + vals, Holes(ts));
  }

  /** The invariant for a WHERE clause that grew at its end. */
  lemma {:induction false} LateReplaced(bt: Backend, b: Buffers, i: Intent, late: seq<Tok>, where: string,
                                        params: seq<Value>, more: seq<Option<Value>>)
    requires Faithful(bt, b, i) && Markless(late) && where == ClauseText(bt, Base(bt, i), i.raw, late)
    requires Holes(late) == Holes(i.late) + more && Aligned(HolesOf(i) + more, params)
    requires bt.Postgres? ==> !Pending(more)
    ensures Faithful(bt, b.(where := where, params := params), i.(late := late))
  {
    HolesRegrouped(SetHoles(i), Holes(i.raw), Holes(i.late), more);
    if bt.Postgres? {
      NoneWaits(Holes(i.late), more);
    }
    Replaced(bt, b, i, i.raw, late, where, params);
  }

  lemma {:induction false} NoneWaits(a: seq<Option<Value>>, b: seq<Option<Value>>)
    requires !Pending(a) && !Pending(b)
    ensures !Pending(a + b)
  {}

  lemma {:induction false} AlignedMore(hs: seq<Option<Value>>, params: seq<Value>, vals: seq<Value>)
    requires Aligned(hs, params) && |params| == |hs|
    ensures Aligned(hs + Somes(vals), params + vals)
  {}

  // ----- One lemma for each call

  lemma {:induction false} WhereKept(bt: Backend, b: Buffers, i: Intent, connective: string, cond: string)
    requires Faithful(bt, b, i) && HoleFree(connective) && connective != ""
    requires bt.Postgres? ==> Marks(cond) == 0 || i.late == []
    ensures Faithful(bt, b.(where := Continued(b.where, connective) + cond), Append(i, connective, Waiting(cond)))
  {
    hide *;
    WaitingText(Sqlite, cond, 0);
    if bt.Postgres? && i.late != [] {
      WaitingText(bt, cond, Base(bt, i) + |Holes(i.raw)| + |Holes(i.late)|);
    }
    ConditionKept(bt, b, i, connective, Waiting(cond), cond);
  }

  lemma {:induction false} NullTestKept(bt: Backend, b: Buffers, i: Intent, test: string)
    requires Faithful(bt, b, i) && HoleFree(test)
    ensures Faithful(bt, b.(where := Continued(b.where, " AND ") + test), Append(i, " AND ", Text(test)))
  {
    hide Number, Numbered, Aligned, ClauseText;
    NumberedText<Option<Value>>(Sqlite, test, [], 0);
    NumberedText<Option<Value>>(bt, test, [], Base(bt, i) + |Holes(i.raw)| + |Holes(i.late)|);
    ConditionKept(bt, b, i, " AND ", Text(test), test);
  }

  lemma {:induction false} InTokens(bt: Backend, field: string, vals: seq<Value>, start: nat)
    requires ValidIdentifier(field)
    ensures var ts: seq<Tok> := Text(field + " IN (") + (HoleList(Somes(vals)) + Text(")"));
            && Numbered(bt, ts, start) == (field + " IN (") + (InList(bt, |vals|, start) + ")")
            && Holes(ts) == Somes(vals) && Markless(ts)
  {
    hide Number, Numbered, Holes, InList, HoleList;
    var list: seq<Tok> := HoleList(Somes(vals)) + Text(")");
    ListClosed(bt, vals, start);
    NumberedText<Option<Value>>(bt, field + " IN (", list, start);
    HolesConcat<Option<Value>>(Text(field + " IN ("), list);
    IdentifierMarkless(field, " IN (");
  }

  lemma {:induction false} ListClosed(bt: Backend, vals: seq<Value>, start: nat)
    ensures var list: seq<Tok> := HoleList(Somes(vals)) + Text(")");
            && Numbered(bt, list, start) == InList(bt, |vals|, start) + ")"
            && Holes(list) == Somes(vals) && Markless(list)
  {
    var list: seq<Tok> := HoleList(Somes(vals));
    HoleListHoles(Somes(vals));
    ListShape(Somes(vals), Units(|vals|), start);
    NumberedConcat<Option<Value>>(bt, list, Text(")"), start);
    HolesConcat<Option<Value>>(list, Text(")"));
    NumberedText<Option<Value>>(bt, ")", [], start + |vals|);
    HoleListMarkless(Somes(vals));
  }

  lemma {:induction false} BetweenTokens(bt: Backend, field: string, min: Value, max: Value, start: nat)
    requires ValidIdentifier(field)
    ensures var ts: seq<Tok> := Text(field + " BETWEEN ") + ([Hole(Some(min))] + (Text(" AND ") + [Hole(Some(max))]));
            && Numbered(bt, ts, start)
               == (field + " BETWEEN ") + (Placeholder(bt, start) + (" AND " + Placeholder(bt, start + 1)))
            && Holes(ts) == Somes([min, max]) && Markless(ts)
  {
    BoundsTokens(bt, min, max, start);
    hide Numbered, Placeholder, Holes;
    var bounds: seq<Tok> := [Hole(Some(min))] + (Text(" AND ") + [Hole(Some(max))]);
    NumberedText<Option<Value>>(bt, field + " BETWEEN ", bounds, start);
    HolesConcat<Option<Value>>(Text(field + " BETWEEN "), bounds);
    IdentifierMarkless(field, " BETWEEN ");
  }

  lemma {:induction false} BoundsTokens(bt: Backend, min: Value, max: Value, start: nat)
    ensures var bounds: seq<Tok> := [Hole(Some(min))] + (Text(" AND ") + [Hole(Some(max))]);
            && Numbered(bt, bounds, start) == Placeholder(bt, start) + (" AND " + Placeholder(bt, start + 1))
            && Holes(bounds) == Somes([min, max])
  {
    hide Numbered, Placeholder;
    var end: seq<Tok> := Text(" AND ") + [Hole(Some(max))];
    NumberedHole(bt, Some(max), start + 1);
    NumberedText<Option<Value>>(bt, " AND ", [Hole(Some(max))], start + 1);
    HolesConcat<Option<Value>>(Text(" AND "), [Hole(Some(max))]);
    NumberedHole(bt, Some(min), start);
    NumberedConcat<Option<Value>>(bt, [Hole(Some(min))], end, start);
    HolesConcat<Option<Value>>([Hole(Some(min))], end);
    assert Somes([min, max]) == [Some(min)] + [Some(max)];
  }

  lemma {:induction false} SetTokens(bt: Backend, field: string, v: Value, start: nat)
    requires ValidIdentifier(field)
    ensures var ts: seq<Tok> := Text(Quoted(bt, field) + " = ") + [Hole(Some(v))];
            && Numbered(bt, ts, start) == (Quoted(bt, field) + " = ") + Placeholder(bt, start)
            && Holes(ts) == [Some(v)] && Markless(ts)
  {
    NumberedHole(bt, Some(v), start);
    NumberedText<Option<Value>>(bt, Quoted(bt, field) + " = ", [Hole(Some(v))], start);
    HolesConcat<Option<Value>>(Text(Quoted(bt, field) + " = "), [Hole(Some(v))]);
  }

  lemma {:induction false} SetKept(bt: Backend, b: Buffers, i: Intent, field: string, v: Value)
    requires Faithful(bt, b, i) && ValidIdentifier(field) && Allowed(bt, i, Set(field, v))
    ensures Faithful(bt, Do(bt, b, Set(field, v)), Mean(bt, i, Set(field, v)))
  {
    hide Aligned, AnyGiven, Markless, Number, Render, ValidIdentifier, Quoted, Placeholder, Text, Decimal;
    var ts: seq<Tok> := Text(Quoted(bt, field) + " = ") + [Hole(Some(v))];
    NoneWaits(Holes(i.setRaw), Holes(i.set_));
    SetAligned(SetHoles(i), Holes(i.raw) + Holes(i.late), b.params, v);
    SetTokens(bt, field, v, |b.params|);
    LateAppended(bt, 0, i.setRaw, i.set_, ", ", ts, (Quoted(bt, field) + " = ") + Placeholder(bt, |b.params|));
    Associate(Holes(i.setRaw), Holes(i.set_), [Some(v)]);
    NoneWaits(Holes(i.set_), [Some(v)]);
    if bt.Postgres? {
      NothingGiven(i);
      NumberFree(bt, i.late, |SetHoles(i)| + |Holes(i.raw)|, |SetHoles(i)| + 1 + |Holes(i.raw)|);
    }
  }

  /** The helpers of the WHERE clause carry values, so there is none yet. */
  lemma {:induction false} NothingGiven(i: Intent)
    requires !AnyGiven(Holes(i.raw) + Holes(i.late)) && !Pending(Holes(i.late))
    ensures Holes(i.late) == []
  {
    if Holes(i.late) != [] {
      SomeGiven(Holes(i.raw), Holes(i.late));
    }
  }

  lemma {:induction false} SomeGiven(a: seq<Option<Value>>, b: seq<Option<Value>>)
    requires b != [] && !Pending(b)
    ensures AnyGiven(a + b)
  {
    assert (a + b)[|a|] == b[0];
  }

  /** Without holes there are no numbers. */
  lemma {:induction false} NumberFree<H>(bt: Backend, ts: seq<Token<H>>, a: nat, b: nat)
    requires Holes(ts) == []
    ensures Numbered(bt, ts, a) == Numbered(bt, ts, b)
  {
    if ts != [] {
      NumberFree(bt, ts[1..], a, b);
      assert Number(ts, a)[1..] == Number(ts[1..], a);
      assert Number(ts, b)[1..] == Number(ts[1..], b);
    }
  }

  /** The SET holes are bound and the WHERE holes all wait, so the next parameter belongs after the former. */
  lemma {:induction false} SetAligned(hs: seq<Option<Value>>, ws: seq<Option<Value>>, params: seq<Value>, v: Value)
    requires Aligned(hs + ws, params) && !Pending(hs) && !AnyGiven(ws)
    ensures |params| == |hs| && Aligned((hs + [Some(v)]) + ws, params + [v])
  {
    if |params| < |hs| {
      ShortPrefixIsPending(hs, ws, params);
    } else if |params| > |hs| {
      GivenBeyond(hs, ws, params);
    }
  }

  lemma {:induction false} ShortPrefixIsPending(hs: seq<Option<Value>>, ws: seq<Option<Value>>, params: seq<Value>)
    requires Aligned(hs + ws, params) && |params| < |hs|
    ensures Pending(hs)
  {
    assert (hs + ws)[|params|] == hs[|params|];
  }

  lemma {:induction false} GivenBeyond(hs: seq<Option<Value>>, ws: seq<Option<Value>>, params: seq<Value>)
    requires Aligned(hs + ws, params) && |params| > |hs|
    ensures AnyGiven(ws)
  {
    assert hs + ws == (hs + ws)[..|hs|] + ws;
    assert ws[0] == (hs + ws)[|hs|];
  }

  lemma {:induction false} SetRawKept(bt: Backend, b: Buffers, i: Intent, clause: string)
    requires Faithful(bt, b, i) && !AnyGiven(HolesOf(i))
    ensures Faithful(bt, Do(bt, b, SetRaw(clause)), Mean(bt, i, SetRaw(clause)))
  {
    hide Aligned, AnyGiven, Pending, Numbered, Holes, ClauseText;
    var ts := Waiting(clause);
    WaitingText(Sqlite, clause, 0);
    NothingLate(bt, 0, ts);
    NoHoles();
    assert Holes(ts) + [] == Holes(ts);
    if b.params != [] {
      FirstGiven(HolesOf(i), b.params);
    }
    StillWaiting(Holes(ts), SetHoles(i), Holes(i.raw) + Holes(i.late));
    if bt.Postgres? {
      GivenLater(SetHoles(i), Holes(i.raw) + Holes(i.late));
      NothingGiven(i);
      SameWithoutLate(bt, |SetHoles(i)|, |Holes(ts)|, i.raw, i.late);
    }
  }

  lemma {:induction false} NoHoles()
    ensures Holes<Option<Value>>([]) == [] && !Pending([])
  {}

  lemma {:induction false} GivenLater(a: seq<Option<Value>>, b: seq<Option<Value>>)
    requires !AnyGiven(a + b)
    ensures !AnyGiven(b)
  {
    assert forall k :: 0 <= k < |b| ==> (a + b)[|a| + k] == b[k];
  }

  lemma {:induction false} SameWithoutLate(bt: Backend, a: nat, b: nat, raw: seq<Tok>, late: seq<Tok>)
    requires Holes(late) == []
    ensures ClauseText(bt, a, raw, late) == ClauseText(bt, b, raw, late)
  {
    NumberFree(bt, late, a + |Holes(raw)|, b + |Holes(raw)|);
  }

  lemma {:induction false} FirstGiven(hs: seq<Option<Value>>, params: seq<Value>)
    requires Aligned(hs, params) && params != []
    ensures AnyGiven(hs)
  {
    assert hs[0].Some?;
  }

  lemma {:induction false} StillWaiting(new_: seq<Option<Value>>, a: seq<Option<Value>>, ws: seq<Option<Value>>)
    requires Aligned(a + ws, []) && forall k :: 0 <= k < |new_| ==> new_[k] == None
    ensures Aligned(new_ + ws, [])
  {
    assert forall k :: 0 <= k < |ws| ==> (a + ws)[|a| + k] == ws[k];
  }

  // ----- Binding

  lemma {:induction false} GivenNumber(ts: seq<Tok>, v: Value, start: nat)
    ensures Number(GiveFirst(ts, v), start) == Number(ts, start)
    ensures Markless(ts) ==> Markless(GiveFirst(ts, v))
  {
    if ts != [] && ts[0] != Hole(None) {
      GivenNumber(ts[1..], v, NextNumber(ts[0], start));
    }
  }

  lemma {:induction false} WaitsIfPending(ts: seq<Tok>)
    ensures Waits(ts) <==> Pending(Holes(ts))
  {
    if ts != [] {
      WaitsIfPending(ts[1..]);
      assert forall i :: 0 <= i < |ts[1..]| ==> ts[1..][i] == ts[i + 1];
      assert Waits(ts) <==> ts[0] == Hole(None) || Waits(ts[1..]) by {
        if Waits(ts) && ts[0] != Hole(None) {
          var k :| 0 <= k < |ts| && ts[k] == Hole(None);
          assert ts[1..][k - 1] == Hole(None);
        }
      }
      if ts[0].Hole? {
        PendingStep(ts[0].h, Holes(ts[1..]));
      }
    }
  }

  lemma {:induction false} PendingStep(h: Option<Value>, hs: seq<Option<Value>>)
    ensures Pending([h] + hs) <==> h == None || Pending(hs)
  {
    var all := [h] + hs;
    assert forall k :: 0 <= k < |hs| ==> all[k + 1] == hs[k];
    if Pending(all) && h != None {
      var k :| 0 <= k < |all| && all[k] == None;
      assert hs[k - 1] == None;
    }
    if h == None {
      assert all[0] == None;
    }
  }

  /** The value goes to the first hole that waits. */
  lemma {:induction false} GivenHoles(ts: seq<Tok>, v: Value, p: nat)
    requires p < |Holes(ts)| && Holes(ts)[p] == None
    requires forall q :: 0 <= q < p ==> Holes(ts)[q] != None
    ensures Holes(GiveFirst(ts, v)) == Holes(ts)[p := Some(v)]
  {
    if ts[0] == Hole(None) {
      assert Holes(ts)[0] == None;
    } else {
      var rest := Holes(ts[1..]);
      if ts[0].Hole? {
        assert Holes(ts) == [ts[0].h] + rest;
        assert forall q :: 0 <= q < |rest| ==> rest[q] == Holes(ts)[q + 1];
        GivenHoles(ts[1..], v, p - 1);
      } else {
        GivenHoles(ts[1..], v, p);
      }
    }
  }

  lemma {:induction false} BindKept(bt: Backend, b: Buffers, i: Intent, v: Value)
    requires Faithful(bt, b, i) && Pending(HolesOf(i))
    ensures Faithful(bt, Do(bt, b, Bind(v)), Mean(bt, i, Bind(v)))
  {
    var n := |b.params|;
    var k :| 0 <= k < |HolesOf(i)| && HolesOf(i)[k] == None;
    assert n < |HolesOf(i)|;
    if n < |SetHoles(i)| {
      BindSetKept(bt, b, i, v);
    } else if n < |SetHoles(i)| + |Holes(i.raw)| {
      BindRawKept(bt, b, i, v);
    } else {
      BindLateKept(bt, b, i, v);
    }
  }

  lemma {:induction false} BindSetKept(bt: Backend, b: Buffers, i: Intent, v: Value)
    requires Faithful(bt, b, i) && |b.params| < |SetHoles(i)|
    ensures Faithful(bt, Do(bt, b, Bind(v)), Mean(bt, i, Bind(v)))
  {
    hide Aligned, Numbered, Holes;
    var more := Holes(i.set_) + (Holes(i.raw) + Holes(i.late));
    Associate(Holes(i.setRaw), Holes(i.set_), Holes(i.raw) + Holes(i.late));
    if |b.params| >= |Holes(i.setRaw)| {
      // every hole of `Set` has its value
      MiddlePending(Holes(i.setRaw), Holes(i.set_), Holes(i.raw) + Holes(i.late), b.params);
    }
    FirstPart(Holes(i.setRaw), more, b.params, v);
    WaitsIfPending(i.setRaw);
    GivenHoles(i.setRaw, v, |b.params|);
    GivenNumber(i.setRaw, v, 0);
    SameWhere(bt, 0, i.setRaw, GiveFirst(i.setRaw, v), i.set_);
    Associate(Holes(i.setRaw)[|b.params| := Some(v)], Holes(i.set_), Holes(i.raw) + Holes(i.late));
  }

  lemma {:induction false} MiddlePending(a: seq<Option<Value>>, s: seq<Option<Value>>, ws: seq<Option<Value>>,
                                         params: seq<Value>)
    requires Aligned((a + s) + ws, params) && |a| <= |params| < |a| + |s|
    ensures Pending(s)
  {
    assert ((a + s) + ws)[|params|] == s[|params| - |a|];
  }

  /** The next value is the one the first part waits for. */
  lemma {:induction false} FirstPart(a: seq<Option<Value>>, c: seq<Option<Value>>, params: seq<Value>, v: Value)
    requires Aligned(a + c, params) && |params| < |a|
    ensures Pending(a)
    ensures var n := |params|;
            && a[n] == None && (forall q :: 0 <= q < n ==> a[q] != None)
            && Aligned(a[n := Some(v)] + c, params + [v])
  {
    var hs, n := a + c, |params|;
    assert forall q :: 0 <= q < |a| ==> a[q] == hs[q];
    assert a[n] == None;
    assert a[n := Some(v)] + c == hs[n := Some(v)];
  }

  /** The first part is all bound, so the next value is the one the second part waits for. */
  lemma {:induction false} SecondPart(a: seq<Option<Value>>, b: seq<Option<Value>>, c: seq<Option<Value>>,
                                      params: seq<Value>, v: Value)
    requires Aligned(a + (b + c), params) && |a| <= |params| < |a| + |b|
    ensures !Pending(a)
    ensures var n := |params| - |a|;
            && b[n] == None && (forall q :: 0 <= q < n ==> b[q] != None)
            && Aligned(a + (b[n := Some(v)] + c), params + [v])
  {
    var hs, n := a + (b + c), |params| - |a|;
    assert forall q :: 0 <= q < |a| ==> a[q] == hs[q];
    assert forall q :: 0 <= q < |b| ==> b[q] == hs[|a| + q];
    assert a + (b[n := Some(v)] + c) == hs[|params| := Some(v)];
  }

  lemma {:induction false} PartsPending(a: seq<Option<Value>>, b: seq<Option<Value>>)
    ensures Pending(a) ==> Pending(a + b)
  {
    assert forall k :: 0 <= k < |a| ==> (a + b)[k] == a[k];
  }

  lemma {:induction false} BindRawKept(bt: Backend, b: Buffers, i: Intent, v: Value)
    requires Faithful(bt, b, i)
    requires |SetHoles(i)| <= |b.params| < |SetHoles(i)| + |Holes(i.raw)|
    ensures Faithful(bt, Do(bt, b, Bind(v)), Mean(bt, i, Bind(v)))
  {
    hide Aligned, Number, Numbered, ClauseText, Holes, Markless;
    SecondPart(SetHoles(i), Holes(i.raw), Holes(i.late), b.params, v);
    PartsPending(Holes(i.setRaw), Holes(i.set_));
    WaitsIfPending(i.setRaw);
    WaitsIfPending(i.raw);
    GivenHoles(i.raw, v, |b.params| - |SetHoles(i)|);
    GivenNumber(i.raw, v, 0);
    SameWhere(bt, Base(bt, i), i.raw, GiveFirst(i.raw, v), i.late);
    Replaced(bt, b, i, GiveFirst(i.raw, v), i.late, b.where, b.params + [v]);
  }

  lemma {:induction false} SameWhere(bt: Backend, base: nat, a: seq<Tok>, b: seq<Tok>, late: seq<Tok>)
    requires Number(a, 0) == Number(b, 0) && |Holes(a)| == |Holes(b)|
    ensures ClauseText(bt, base, a, late) == ClauseText(bt, base, b, late)
  {}

  /** The first two parts are all bound, so the next value is the one the third part waits for. */
  lemma {:induction false} ThirdPart(a: seq<Option<Value>>, b: seq<Option<Value>>, c: seq<Option<Value>>,
                                     params: seq<Value>, v: Value)
    requires Aligned(a + (b + c), params) && |a| + |b| <= |params| < |a| + |b| + |c|
    ensures !Pending(a) && !Pending(b)
    ensures var n := |params| - |a| - |b|;
            && c[n] == None && (forall q :: 0 <= q < n ==> c[q] != None)
            && Aligned(a + (b + c[n := Some(v)]), params + [v])
  {
    var hs, n := a + (b + c), |params| - |a| - |b|;
    assert forall q :: 0 <= q < |a| ==> a[q] == hs[q];
    assert forall q :: 0 <= q < |b| ==> b[q] == hs[|a| + q];
    assert forall q :: 0 <= q < |c| ==> c[q] == hs[|a| + |b| + q];
    assert a + (b + c[n := Some(v)]) == hs[|params| := Some(v)];
  }

  lemma {:induction false} BindLateKept(bt: Backend, b: Buffers, i: Intent, v: Value)
    requires Faithful(bt, b, i)
    requires |SetHoles(i)| + |Holes(i.raw)| <= |b.params| < |HolesOf(i)|
    ensures Faithful(bt, Do(bt, b, Bind(v)), Mean(bt, i, Bind(v)))
  {
    var n := |b.params| - |SetHoles(i)| - |Holes(i.raw)|;
    ThirdPart(SetHoles(i), Holes(i.raw), Holes(i.late), b.params, v);
    PartsPending(Holes(i.setRaw), Holes(i.set_));
    WaitsIfPending(i.setRaw);
    WaitsIfPending(i.raw);
    GivenHoles(i.late, v, n);
    GivenNumber(i.late, v, Base(bt, i) + |Holes(i.raw)|);
    Replaced(bt, b, i, i.raw, GiveFirst(i.late, v), b.where, b.params + [v]);
  }

  // ----- Every run of calls

  lemma {:induction false} InKept(bt: Backend, b: Buffers, i: Intent, field: string, vals: seq<Value>)
    requires Faithful(bt, b, i) && ValidIdentifier(field) && vals != [] && !Pending(HolesOf(i))
    ensures Faithful(bt, Do(bt, b, WhereIn(field, vals)), Mean(bt, i, WhereIn(field, vals)))
  {
    hide Numbered, Holes, Markless;
    InTokens(bt, field, vals, |b.params|);
    HelperKept(bt, b, i, Text(field + " IN (") + (HoleList(Somes(vals)) + Text(")")),
               (field + " IN (") + (InList(bt, |vals|, |b.params|) + ")"), vals);
  }

  lemma {:induction false} BetweenKept(bt: Backend, b: Buffers, i: Intent, field: string, min: Value, max: Value)
    requires Faithful(bt, b, i) && ValidIdentifier(field) && !Pending(HolesOf(i))
    ensures Faithful(bt, Do(bt, b, WhereBetween(field, min, max)), Mean(bt, i, WhereBetween(field, min, max)))
  {
    hide AppendLate, Placeholder;
    BetweenTokens(bt, field, min, max, |b.params|);
    HelperKept(bt, b, i, Text(field + " BETWEEN ") + ([Hole(Some(min))] + (Text(" AND ") + [Hole(Some(max))])),
               (field + " BETWEEN ")
               + (Placeholder(bt, |b.params|) + (" AND " + Placeholder(bt, |b.params| + 1))), [min, max]);
  }

  lemma {:induction false} CallKept(bt: Backend, b: Buffers, i: Intent, call: Call)
    requires Faithful(bt, b, i) && Allowed(bt, i, call)
    ensures Faithful(bt, Do(bt, b, call), Mean(bt, i, call))
  {
    hide Faithful, Append, AppendLate, Continued;
    match call
    case Where(cond) => WhereKept(bt, b, i, " AND ", cond);
    case OrWhere(cond) => WhereKept(bt, b, i, " OR ", cond);
    case WhereNull(field) =>
      if ValidIdentifier(field) {
        IdentifierMarkless(field, " IS NULL");
        NullTestKept(bt, b, i, field + " IS NULL");
      }
    case WhereNotNull(field) =>
      if ValidIdentifier(field) {
        IdentifierMarkless(field, " IS NOT NULL");
        NullTestKept(bt, b, i, field + " IS NOT NULL");
      }
    case WhereIn(field, vals) =>
      if ValidIdentifier(field) && vals != [] {
        InKept(bt, b, i, field, vals);
      }
    case WhereBetween(field, min, max) =>
      if ValidIdentifier(field) {
        BetweenKept(bt, b, i, field, min, max);
      }
    case Bind(v) => BindKept(bt, b, i, v);
    case Set(field, v) => if ValidIdentifier(field) { SetKept(bt, b, i, field, v); }
    case SetRaw(clause) => SetRawKept(bt, b, i, clause);
  }

  lemma {:induction false} RunFaithful(bt: Backend, calls: seq<Call>)
    requires Disciplined(bt, calls)
    ensures Faithful(bt, DoAll(bt, calls), MeanAll(bt, calls))
  {
    if calls != [] {
      var front := calls[..|calls| - 1];
      RunFaithful(bt, front);
      CallKept(bt, DoAll(bt, front), MeanAll(bt, front), calls[|calls| - 1]);
    }
  }

  // ----- The statement

  /** A token with whatever its hole held forgotten. */
  function Forget<H>(t: Token<H>): Token<()> {
    match t
    case Chr(c) => Chr(c)
    case Ident(name) => Ident(name)
    case Hole(_) => Hole(())
  }

  function Erase<H>(ts: seq<Token<H>>): (us: seq<Token<()>>)
    ensures |us| == |ts| && forall i :: 0 <= i < |ts| ==> us[i] == Forget(ts[i])
  {
    seq(|ts|, i requires 0 <= i < |ts| => Forget(ts[i]))
  }

  lemma {:induction false} EraseNumber<H>(ts: seq<Token<H>>, start: nat)
    ensures Number(Erase(ts), start) == Number(ts, start) && |Holes(Erase(ts))| == |Holes(ts)|
  {
    if ts != [] {
      assert Erase(ts)[1..] == Erase(ts[1..]);
      EraseNumber(ts[1..], NextNumber(ts[0], start));
    }
  }

  /** Scanning a raw clause finds the intended holes. */
  lemma {:induction false} ScanRaw(ts: seq<Tok>, start: nat)
    requires Markless(ts)
    ensures Scan(Numbered(Sqlite, ts, start)) == Erase(ts)
  {
    if ts != [] {
      var next := NextNumber(ts[0], start);
      ScanRaw(ts[1..], next);
      assert Number(ts, start)[1..] == Number(ts[1..], next);
      var first := RenderToken(Sqlite, Number(ts, start)[0]);
      assert |first| == 1 && Numbered(Sqlite, ts, start) == first + Numbered(Sqlite, ts[1..], next);
      assert Erase(ts) == [Forget(ts[0])] + Erase(ts[1..]);
    }
  }

  lemma {:induction false} ScanConcat(a: string, b: string)
    ensures Scan(a + b) == Scan(a) + Scan(b)
  {}

  /** On Postgres the placeholders of helpers contain no question mark, so the builder leaves them alone. */
  lemma {:induction false} PlaceholdersMarkless(ts: seq<Tok>, start: nat)
    requires Markless(ts)
    ensures forall k :: 0 <= k < |Numbered(Postgres, ts, start)| ==> Numbered(Postgres, ts, start)[k] != '?'
  {
    if ts != [] {
      var next := NextNumber(ts[0], start);
      PlaceholdersMarkless(ts[1..], next);
      assert Number(ts, start)[1..] == Number(ts[1..], next);
      DecimalHoleFree(start + 1);
      var first := RenderToken(Postgres, Number(ts, start)[0]);
      assert forall k :: 0 <= k < |first| ==> first[k] != '?';
      assert Numbered(Postgres, ts, start) == first + Numbered(Postgres, ts[1..], next);
    }
  }

  lemma {:induction false} ScanMarkless(bt: Backend, text: string, start: nat)
    requires forall k :: 0 <= k < |text| ==> text[k] != '?'
    ensures Numbered(bt, Scan(text), start) == text
  {
    assert Scan(text) == Text<()>(text);
    NumberedText<()>(bt, text, [], start);
  }

  /** What the builder makes of the WHERE buffer: the intended clause with its holes numbered. */
  lemma {:induction false} WhereBuilt(bt: Backend, b: Buffers, i: Intent, start: nat)
    requires Shaped(bt, b, i) && (bt.Postgres? ==> start == |SetHoles(i)|)
    ensures Numbered(bt, Scan(b.where), start) == Numbered(bt, i.raw + i.late, start)
  {
    hide Number, Render, Scan, Erase, Holes, Markless;
    var k := Base(bt, i) + |Holes(i.raw)|;
    var raw, late := Numbered(Sqlite, i.raw, 0), Numbered(bt, i.late, k);
    ScanConcat(raw, late);
    ScanRaw(i.raw, 0);
    if bt.Postgres? {
      EraseNumber(i.raw, start);
      PlaceholdersMarkless(i.late, k);
      ScanMarkless(bt, late, k);
      NumberedConcat(bt, Scan(raw), Scan(late), start);
      NumberedConcat(bt, i.raw, i.late, start);
    } else {
      MarksAlike(bt, i.late, k, |Holes(i.raw)|);
      ScanRaw(i.late, |Holes(i.raw)|);
      assert Scan(b.where) == Erase(i.raw + i.late);
      EraseNumber(i.raw + i.late, start);
    }
  }

  /** The query object with its other clauses, seen by the builder. */
  function View(q: Clauses, b: Buffers): Clauses {
    q.(where := b.where, setClause := b.setClause)
  }

  /** The intended statement: its holes hold the values meant for them. */
  function Intended(q: Clauses, i: Intent): seq<Tok>
    requires q.op.Update? ==> Assigned(i) != []
  {
    Assemble(q, Assigned(i), i.raw + i.late, [])
  }

  /** The text of a statement depends on its clauses only through their texts. */
  lemma {:induction false} SameText<H, K>(bt: Backend, q: Clauses, s: seq<Token<H>>, w: seq<Token<H>>, r: seq<H>,
                       t: seq<Token<K>>, x: seq<Token<K>>, u: seq<K>)
    requires !q.op.Insert? && (q.op.Update? ==> s != [] && t != [])
    requires q.op.Update? ==> |Holes(s)| == |Holes(t)| && Numbered(bt, s, 0) == Numbered(bt, t, 0)
    requires var k := if q.op.Update? then |Holes(s)| else 0;
             Numbered(bt, WherePart(w), k) == Numbered(bt, WherePart(x), k)
    ensures Numbered(bt, Assemble(q, s, w, r), 0) == Numbered(bt, Assemble(q, t, x, u), 0)
  {
    match q.op
    case Select =>
      SelectParts(bt, SelectHead(q), q.model.table, Optional(" ", q.joins), WherePart(w), Tail(q));
      SelectParts(bt, SelectHead(q), q.model.table, Optional(" ", q.joins), WherePart(x), Tail(q));
    case Update =>
      UpdateParts(bt, q.model.table, s, WherePart(w));
      UpdateParts(bt, q.model.table, t, WherePart(x));
    case Delete =>
      NumberedIdent(bt, q.model.table, WherePart(w), 0);
      NumberedIdent(bt, q.model.table, WherePart(x), 0);
      NumberedText(bt, "DELETE FROM ", [Ident(q.model.table)] + WherePart(w), 0);
      NumberedText(bt, "DELETE FROM ", [Ident(q.model.table)] + WherePart(x), 0);
  }

  lemma {:induction false} WherePartText(bt: Backend, b: Buffers, i: Intent, start: nat)
    requires Shaped(bt, b, i) && (bt.Postgres? ==> start == |SetHoles(i)|)
    ensures Numbered(bt, WherePart(Scan(b.where)), start) == Numbered(bt, WherePart(i.raw + i.late), start)
  {
    WhereBuilt(bt, b, i, start);
    ClauseEmpty(bt, Base(bt, i), i.raw, i.late);
    NumberedText(bt, " WHERE ", Scan(b.where), start);
    NumberedText(bt, " WHERE ", i.raw + i.late, start);
  }

  /** Where the holes of helpers do not show as numbers, the SET buffer is a raw text. */
  lemma {:induction false} SetIsRaw(bt: Backend, b: Buffers, i: Intent)
    requires Shaped(bt, b, i) && (bt.Postgres? ==> Holes(i.set_) == [])
    ensures b.setClause == Numbered(Sqlite, Assigned(i), 0)
  {
    hide Number, Render, Holes, Markless;
    var n := |Holes(i.setRaw)|;
    if bt.Postgres? {
      HolelessAlike(bt, i.set_, n, n);
    } else {
      MarksAlike(bt, i.set_, n, n);
    }
    NumberedConcat(Sqlite, i.setRaw, i.set_, 0);
  }

  lemma {:induction false} HolelessAlike(bt: Backend, ts: seq<Tok>, a: nat, b: nat)
    requires Holes(ts) == [] && Markless(ts)
    ensures Numbered(bt, ts, a) == Numbered(Sqlite, ts, b)
  {
    if ts != [] {
      HolelessAlike(bt, ts[1..], a, b);
      assert Number(ts, a)[1..] == Number(ts[1..], a);
      assert Number(ts, b)[1..] == Number(ts[1..], b);
    }
  }

  lemma {:induction false} SetBuilt(bt: Backend, b: Buffers, i: Intent)
    requires Shaped(bt, b, i) && (bt.Postgres? ==> Holes(i.set_) == [])
    ensures var s := Scan(b.setClause);
            && (s == [] <==> Assigned(i) == []) && |Holes(s)| == |SetHoles(i)|
            && Numbered(bt, s, 0) == Numbered(bt, Assigned(i), 0)
  {
    SetIsRaw(bt, b, i);
    ScanRaw(Assigned(i), 0);
    EraseNumber(Assigned(i), 0);
    HolesConcat(i.setRaw, i.set_);
  }

  /** The builder writes the intended statement with its holes numbered. */
  lemma {:induction false} IntendedBuilt(bt: Backend, q: Clauses, b: Buffers, i: Intent)
    requires Shaped(bt, b, i) && !q.op.Insert? && (q.op.Update? ==> Assigned(i) != [])
    requires bt.Postgres? ==> if q.op.Update? then Holes(i.set_) == [] else SetHoles(i) == []
    ensures Built(bt, View(q, b)) == Numbered(bt, Intended(q, i), 0)
  {
    var v := View(q, b);
    if q.op.Update? {
      SetBuilt(bt, b, i);
    }
    HolesConcat(i.setRaw, i.set_);
    var k := if q.op.Update? then |SetHoles(i)| else 0;
    WherePartText(bt, b, i, k);
    SameText(bt, q, Scan(b.setClause), Scan(b.where), Units(RowLength(v)), Assigned(i), i.raw + i.late, []);
    AssembleView(q, b, Scan(b.setClause), Scan(b.where), Units(RowLength(v)));
    assert Built(bt, v) == Numbered(bt, Skeleton(v), 0) + "";
  }

  lemma {:induction false} AssembleView(q: Clauses, b: Buffers, s: seq<Token<()>>, w: seq<Token<()>>, r: seq<()>)
    requires q.op.Update? && s == [] ==> |r| == |UpdateColumns(q.model.fields)|
    ensures Assemble(View(q, b), s, w, r) == Assemble(q, s, w, r)
  {
    hide ColumnList, HoleList, Assignments, WherePart, Text;
  }

  // ----- Clean intents

  predicate CleanIntent(bt: Backend, i: Intent) {
    && Clean(bt, i.setRaw) && Clean(bt, i.set_) && (i.setRaw == [] || SafeStart(i.set_))
    && Clean(bt, i.raw) && Clean(bt, i.late) && (i.raw == [] || SafeStart(i.late))
  }

  predicate RawCall(bt: Backend, call: Call) {
    match call
    case Where(cond) => RawClause(bt, cond)
    case OrWhere(cond) => RawClause(bt, cond)
    case SetRaw(clause) => RawClause(bt, clause)
    case _ => true
  }

  lemma {:induction false} WaitingClean(bt: Backend, text: string)
    requires RawClause(bt, text)
    ensures Clean(bt, Waiting(text))
  {
    forall i | 0 <= i < |text| ensures CleanAt(bt, Waiting(text), i) {}
  }

  lemma {:induction false} LinkedClean(bt: Backend, before: seq<Tok>, connective: string, ts: seq<Tok>)
    requires Clean(bt, before) && Clean(bt, ts) && HoleFree(connective) && connective != "" && !IsDigit(connective[0])
    ensures Clean(bt, before + (Text(connective) + ts)) && SafeStart(Text(connective) + ts)
    ensures Clean(bt, before + (Link(before, connective) + ts))
  {
    CleanText<Option<Value>>(bt, connective);
    CleanConcat(bt, Text(connective), ts);
    CleanConcat(bt, before, Text(connective) + ts);
    if before == [] {
      assert before + (Link(before, connective) + ts) == ts;
    }
  }

  lemma {:induction false} AppendClean(bt: Backend, i: Intent, connective: string, ts: seq<Tok>)
    requires CleanIntent(bt, i) && Clean(bt, ts) && HoleFree(connective) && connective != "" && !IsDigit(connective[0])
    ensures CleanIntent(bt, Append(i, connective, ts))
  {
    LinkedClean(bt, if i.late == [] then i.raw else i.late, connective, ts);
  }

  lemma {:induction false} AppendLateClean(bt: Backend, i: Intent, ts: seq<Tok>)
    requires CleanIntent(bt, i) && Clean(bt, ts)
    ensures CleanIntent(bt, AppendLate(i, ts))
  {
    LinkedClean(bt, i.late, " AND ", ts);
    if i.raw + i.late == [] {
      assert i.raw == [] && i.late + (Link(i.raw + i.late, " AND ") + ts) == ts;
    }
  }

  lemma {:induction false} GivenClean(bt: Backend, ts: seq<Tok>, v: Value)
    requires Clean(bt, ts)
    ensures Clean(bt, GiveFirst(ts, v)) && (SafeStart(ts) ==> SafeStart(GiveFirst(ts, v)))
  {
    GivenShape(ts, v);
    forall i | 0 <= i < |ts| ensures CleanAt(bt, GiveFirst(ts, v), i) {
      assert CleanAt(bt, ts, i);
    }
  }

  lemma {:induction false} GivenShape(ts: seq<Tok>, v: Value)
    ensures forall i :: 0 <= i < |ts| ==> GiveFirst(ts, v)[i] == ts[i] || (ts[i].Hole? && GiveFirst(ts, v)[i].Hole?)
  {
    if ts != [] && ts[0] != Hole(None) {
      GivenShape(ts[1..], v);
    }
  }

  lemma {:induction false} HelperClean(bt: Backend, field: string, vals: seq<Value>, min: Value, max: Value)
    requires ValidIdentifier(field)
    ensures Clean<Option<Value>>(bt, Text(field + " IN (") + (HoleList(Somes(vals)) + Text(")")))
    ensures Clean<Option<Value>>(bt,
                                 Text(field + " BETWEEN ") + ([Hole(Some(min))] + (Text(" AND ") + [Hole(Some(max))])))
  {
    IdentifierMarkless(field, " IN (");
    IdentifierMarkless(field, " BETWEEN ");
    CleanHoles(bt, Somes(vals));
    CleanText<Option<Value>>(bt, ")");
    CleanConcat<Option<Value>>(bt, HoleList(Somes(vals)), Text(")"));
    CleanText<Option<Value>>(bt, field + " IN (");
    CleanConcat<Option<Value>>(bt, Text(field + " IN ("), HoleList(Somes(vals)) + Text(")"));
    CleanText<Option<Value>>(bt, " AND ");
    CleanConcat<Option<Value>>(bt, Text(" AND "), [Hole(Some(max))]);
    CleanConcat<Option<Value>>(bt, [Hole(Some(min))], Text(" AND ") + [Hole(Some(max))]);
    CleanText<Option<Value>>(bt, field + " BETWEEN ");
    CleanConcat<Option<Value>>(bt, Text(field + " BETWEEN "), [Hole(Some(min))] + (Text(" AND ") + [Hole(Some(max))]));
  }

  lemma {:induction false} AssignmentClean(bt: Backend, i: Intent, field: string, v: Value)
    requires CleanIntent(bt, i) && ValidIdentifier(field)
    ensures CleanIntent(bt, Mean(bt, i, Set(field, v)))
  {
    var ts: seq<Tok> := Text(Quoted(bt, field) + " = ") + [Hole(Some(v))];
    CleanText<Option<Value>>(bt, Quoted(bt, field) + " = ");
    CleanConcat<Option<Value>>(bt, Text(Quoted(bt, field) + " = "), [Hole(Some(v))]);
    LinkedClean(bt, i.set_, ", ", ts);
    if Assigned(i) == [] {
      assert i.setRaw == [] && i.set_ + (Link(Assigned(i), ", ") + ts) == ts;
    }
  }

  lemma {:induction false} CallClean(bt: Backend, i: Intent, call: Call)
    requires CleanIntent(bt, i) && RawCall(bt, call)
    ensures CleanIntent(bt, Mean(bt, i, call))
  {
    match call
    case Where(cond) => WaitingClean(bt, cond); AppendClean(bt, i, " AND ", Waiting(cond));
    case OrWhere(cond) => WaitingClean(bt, cond); AppendClean(bt, i, " OR ", Waiting(cond));
    case WhereNull(field) =>
      if ValidIdentifier(field) {
        IdentifierMarkless(field, " IS NULL");
        CleanText<Option<Value>>(bt, field + " IS NULL");
        AppendClean(bt, i, " AND ", Text(field + " IS NULL"));
      }
    case WhereNotNull(field) =>
      if ValidIdentifier(field) {
        IdentifierMarkless(field, " IS NOT NULL");
        CleanText<Option<Value>>(bt, field + " IS NOT NULL");
        AppendClean(bt, i, " AND ", Text(field + " IS NOT NULL"));
      }
    case WhereIn(field, vals) =>
      if ValidIdentifier(field) && vals != [] {
        HelperClean(bt, field, vals, Null, Null);
        AppendLateClean(bt, i, Text(field + " IN (") + (HoleList(Somes(vals)) + Text(")")));
      }
    case WhereBetween(field, min, max) =>
      if ValidIdentifier(field) {
        HelperClean(bt, field, [], min, max);
        AppendLateClean(bt, i, Text(field + " BETWEEN ") + ([Hole(Some(min))] + (Text(" AND ") + [Hole(Some(max))])));
      }
    case Bind(v) =>
      GivenClean(bt, i.setRaw, v);
      GivenClean(bt, i.raw, v);
      GivenClean(bt, i.late, v);
    case Set(field, v) => if ValidIdentifier(field) { AssignmentClean(bt, i, field, v); }
    case SetRaw(clause) => WaitingClean(bt, clause);
  }

  lemma {:induction false} RunClean(bt: Backend, calls: seq<Call>)
    requires forall k :: 0 <= k < |calls| ==> RawCall(bt, calls[k])
    ensures CleanIntent(bt, MeanAll(bt, calls))
  {
    if calls != [] {
      RunClean(bt, calls[..|calls| - 1]);
      CallClean(bt, MeanAll(bt, calls[..|calls| - 1]), calls[|calls| - 1]);
    }
  }

  // ----- The theorem

  /** A SELECT, an UPDATE with a SET clause, or a DELETE, and no value meant for a clause it does not have. */
  predicate Suits(bt: Backend, op: Op, i: Intent) {
    match op
    case Insert => false
    case Update => Assigned(i) != [] && (bt.Postgres? ==> Holes(i.set_) == [])
    case _ => SetHoles(i) == []
  }

  /** Parameter alignment: after any disciplined run of calls that leaves no hole waiting, the database reads
      the intended statement with its holes numbered 0, 1, ..., there are exactly as many parameters, and
      filling them in puts into every hole the value meant for it. */
  lemma {:induction false} ParametersAligned(bt: Backend, calls: seq<Call>, q: Clauses)
    requires Disciplined(bt, calls) && forall k :: 0 <= k < |calls| ==> RawCall(bt, calls[k])
    requires !Pending(HolesOf(MeanAll(bt, calls))) && Suits(bt, q.op, MeanAll(bt, calls))
    requires RawOnly(bt, q) && q.where == "" && q.setClause == ""
    ensures var i, b := MeanAll(bt, calls), DoAll(bt, calls);
            var seen := Read(bt, Built(bt, View(q, b)), 0);
            && seen == Meaning(bt, Number(Intended(q, i), 0))
            && Slots(seen) == Range(0, |b.params|)
            && Fill(Number(Intended(q, i), 0), b.params) == Intended(q, i)
            && Holes(Intended(q, i)) == Somes(b.params)
  {
    hide *;
    RunFaithful(bt, calls);
    RunClean(bt, calls);
    FaithfulAligned(bt, DoAll(bt, calls), MeanAll(bt, calls), q);
  }

  lemma {:induction false} FaithfulAligned(bt: Backend, b: Buffers, i: Intent, q: Clauses)
    requires Faithful(bt, b, i) && CleanIntent(bt, i) && !Pending(HolesOf(i)) && Suits(bt, q.op, i)
    requires RawOnly(bt, q) && q.where == "" && q.setClause == ""
    ensures var seen := Read(bt, Built(bt, View(q, b)), 0);
            && seen == Meaning(bt, Number(Intended(q, i), 0))
            && Slots(seen) == Range(0, |b.params|)
            && Fill(Number(Intended(q, i), 0), b.params) == Intended(q, i)
            && Holes(Intended(q, i)) == Somes(b.params)
  {
    hide Read, Built, Meaning, Number, Clean, RawOnly, Shaped;
    IntendedBuilt(bt, q, b, i);
    WhereClean(bt, i);
    SetClean(bt, i);
    CleanAssembled(bt, q, Assigned(i), i.raw + i.late, []);
    IntendedHoles(q, i);
    HolesAreParams(i, b.params);
    ReadNumbered(bt, Intended(q, i));
    FillNumber(Intended(q, i), 0, b.params);
  }

  lemma {:induction false} HolesAreParams(i: Intent, params: seq<Value>)
    requires Aligned(HolesOf(i), params) && !Pending(HolesOf(i))
    ensures HolesOf(i) == Somes(params)
  {
    AllBound(i, params);
  }

  lemma {:induction false} WhereClean(bt: Backend, i: Intent)
    requires CleanIntent(bt, i)
    ensures Clean(bt, i.raw + i.late)
  {
    if i.raw == [] {
      assert i.raw + i.late == i.late;
    } else {
      CleanConcat(bt, i.raw, i.late);
    }
  }

  lemma {:induction false} SetClean(bt: Backend, i: Intent)
    requires CleanIntent(bt, i)
    ensures Clean(bt, Assigned(i))
  {
    if i.setRaw == [] {
      assert Assigned(i) == i.set_;
    } else {
      CleanConcat(bt, i.setRaw, i.set_);
    }
  }

  lemma {:induction false} IntendedHoles(q: Clauses, i: Intent)
    requires !q.op.Insert? && (if q.op.Update? then Assigned(i) != [] else SetHoles(i) == [])
    ensures Holes(Intended(q, i)) == HolesOf(i)
  {
    AssembledHoles(q, Assigned(i), i.raw + i.late, []);
    HolesConcat(i.setRaw, i.set_);
    HolesConcat(i.raw, i.late);
  }

  lemma {:induction false} ReadNumbered(bt: Backend, ts: seq<Tok>)
    requires Clean(bt, ts)
    ensures Read(bt, Numbered(bt, ts, 0), 0) == Meaning(bt, Number(ts, 0))
    ensures Slots(Meaning(bt, Number(ts, 0))) == Range(0, |Holes(ts)|)
  {
    NumberClean(bt, ts, 0);
    NumberInOrder(ts, 0);
    ReadRender(bt, Number(ts, 0), 0);
    NumberedSlots(bt, ts, 0);
  }
}
