/**
 What the keyed statements of a batch say: every value in its column and the key in the WHERE clause, except
 that on Postgres the key's hole of an UPDATE names the first SET value.
*/
module KeyedMeaning {
  import opened Common
  import opened SqlText
  import opened Builder
  import opened Dialects
  import opened QueryCalls
  import opened Alignment
  import opened BatchInsert
  import opened Execution
  import opened KeyedBatch
  import opened PostgresUpdate
  import opened Identifiers
  import opened FindFilter
  import Q = Query

  // ----- The calls that set columns

  predicate AllSets(sets: seq<Call>) {
    forall k :: 0 <= k < |sets| ==> sets[k].Set? && ValidIdentifier(sets[k].field)
  }

  /** `"c1" = v1, "c2" = v2, ...` */
  function AssignTokens(bt: Backend, sets: seq<Call>): seq<Tok>
    requires AllSets(sets)
  {
    if sets == [] then []
    else
      var last := |sets| - 1;
      var before := AssignTokens(bt, sets[..last]);
      before + (Link(before, ", ") + (Text(Quoted(bt, sets[last].field) + " = ") + [Hole(Some(sets[last].v))]))
  }

  function KeyTokens(m: Model, rec: Record): seq<Tok>
    requires |rec| == |m.fields| && KeyIndex(m.fields) < |m.fields|
  {
    Text(m.fields[KeyIndex(m.fields)].name + " = ") + [Hole(Some(rec[KeyIndex(m.fields)]))]
  }

  /** The statement that the calls for a record mean. */
  function CalledTokens(bt: Backend, kind: Kind, m: Model, rec: Record): seq<Tok>
    requires ValidModel(m) && |rec| == |m.fields| && KeyIndex(m.fields) < |m.fields|
  {
    SetsAreSets(kind, m, rec);
    var where := Text(" WHERE ") + KeyTokens(m, rec);
    if OpFor(kind, m).Update? then
      Text("UPDATE ") + ([Ident(m.table)] + (Text(" SET ") + (AssignTokens(bt, SetPartCalls(kind, m, rec)) + where)))
    else
      Text("DELETE FROM ") + ([Ident(m.table)] + where)
  }

  lemma {:induction false} SetCallsAreSets(fs: seq<Field>, rec: Record)
    requires |rec| == |fs| && forall i :: 0 <= i < |fs| ==> ValidIdentifier(fs[i].name)
    ensures AllSets(SetCalls(fs, rec))
  {
    if fs != [] {
      SetCallsAreSets(fs[..|fs| - 1], rec[..|rec| - 1]);
    }
  }

  lemma {:induction false} SetsAreSets(kind: Kind, m: Model, rec: Record)
    requires ValidModel(m) && |rec| == |m.fields|
    ensures AllSets(SetPartCalls(kind, m, rec))
  {
    SetCallsAreSets(m.fields, rec);
  }

  lemma {:induction false} AssignHoles(bt: Backend, sets: seq<Call>)
    requires AllSets(sets)
    ensures |Holes(AssignTokens(bt, sets))| == |sets|
    ensures forall k :: 0 <= k < |sets| ==> Holes(AssignTokens(bt, sets))[k] == Some(sets[k].v)
  {
    if sets != [] {
      hide AssignTokens, Holes;
      AssignHoles(bt, sets[..|sets| - 1]);
      LastAssigned(bt, sets);
    }
  }

  lemma {:induction false} LastAssigned(bt: Backend, sets: seq<Call>)
    requires AllSets(sets) && sets != []
    ensures Holes(AssignTokens(bt, sets)) == Holes(AssignTokens(bt, sets[..|sets| - 1])) + [Some(sets[|sets| - 1].v)]
  {
    hide Numbered, Markless, Quoted, Text, Holes;
    var last := sets[|sets| - 1];
    SetTokens(bt, last.field, last.v, 0);
    LinkedText(bt, AssignTokens(bt, sets[..|sets| - 1]), ", ",
               Text(Quoted(bt, last.field) + " = ") + [Hole(Some(last.v))], 0);
  }

  /** Setting columns is disciplined, and means the list of assignments. */
  lemma {:induction false} SetsMean(bt: Backend, sets: seq<Call>)
    requires AllSets(sets)
    ensures MeanAll(bt, sets) == Intent([], AssignTokens(bt, sets), [], [])
    ensures Disciplined(bt, sets)
  {
    hide Text, Quoted, HoleList;
    if sets != [] {
      var front := sets[..|sets| - 1];
      SetsMean(bt, front);
      AssignHoles(bt, front);
      assert !Pending(Holes(AssignTokens(bt, front))) && Holes<Option<Value>>([]) + Holes<Option<Value>>([]) == [];
    }
  }

  lemma {:induction false} WaitingKey(name: string)
    requires ValidIdentifier(name)
    ensures Waiting(name + " = ?") == Text(name + " = ") + [Hole(None)]
  {}

  lemma {:induction false} GiveLast(s: string, v: Value)
    ensures GiveFirst(Text(s) + [Hole(None)], v) == Text(s) + [Hole(Some(v))]
  {
    var ts: seq<Tok> := Text(s) + [Hole(None)];
    if s != "" {
      GiveLast(s[1..], v);
      assert ts[1..] == Text(s[1..]) + [Hole(None)];
      assert Text<Option<Value>>(s) == [Chr(s[0])] + Text(s[1..]);
    }
  }

  lemma {:induction false} TextDoesNotWait(s: string)
    ensures Waits(Text(s) + [Hole(None)])
  {
    var ts: seq<Tok> := Text(s) + [Hole(None)];
    assert ts[|s|] == Hole(None);
  }

  /** The calls for one record mean the assignments and the key condition. */
  lemma {:induction false} KeyMeans(bt: Backend, m: Model, rec: Record, sets: seq<Call>)
    requires ValidModel(m) && |rec| == |m.fields| && KeyIndex(m.fields) < |m.fields|
    requires AllSets(sets)
    ensures var calls := sets + KeyCalls(m, rec);
            && MeanAll(bt, calls) == Intent([], AssignTokens(bt, sets), KeyTokens(m, rec), [])
            && Disciplined(bt, calls)
  {
    hide Number, Holes, Text, Marks;
    var k := KeyIndex(m.fields);
    var one := sets + [Where(KeyCondition(m))];
    var calls := one + [Bind(rec[k])];
    assert sets + KeyCalls(m, rec) == calls;
    assert one[..|sets|] == sets && calls[..|one|] == one;
    SetsMean(bt, sets);
    var i := Intent([], AssignTokens(bt, sets), [], []);
    KeyWaits(bt, m, i);
    assert MeanAll(bt, one) == Mean(bt, i, Where(KeyCondition(m)));
    KeyGiven(bt, m, rec, Mean(bt, i, Where(KeyCondition(m))), sets);
    KeyRaw(bt, m);
    assert Disciplined(bt, sets);
    assert Allowed(bt, i, Where(KeyCondition(m)));
    assert Disciplined(bt, one);
  }

  function RawKey(m: Model): seq<Tok>
    requires KeyIndex(m.fields) < |m.fields|
  {
    Text(m.fields[KeyIndex(m.fields)].name + " = ") + [Hole(None)]
  }

  lemma {:induction false} KeyWaits(bt: Backend, m: Model, i: Intent)
    requires ValidModel(m) && KeyIndex(m.fields) < |m.fields| && i.raw == [] && i.late == []
    ensures Mean(bt, i, Where(KeyCondition(m))) == Intent(i.setRaw, i.set_, RawKey(m), [])
  {
    WaitingKey(m.fields[KeyIndex(m.fields)].name);
    assert Link([], " AND ") + RawKey(m) == RawKey(m) && [] + RawKey(m) == RawKey(m);
  }

  lemma {:induction false} KeyGiven(bt: Backend, m: Model, rec: Record, i: Intent, sets: seq<Call>)
    requires |rec| == |m.fields| && KeyIndex(m.fields) < |m.fields| && AllSets(sets)
    requires i == Intent([], AssignTokens(bt, sets), RawKey(m), [])
    ensures Mean(bt, i, Bind(rec[KeyIndex(m.fields)])) == Intent([], i.set_, KeyTokens(m, rec), [])
    ensures Pending(HolesOf(i))
  {
    var s := m.fields[KeyIndex(m.fields)].name + " = ";
    AssignHoles(bt, sets);
    TextDoesNotWait(s);
    WaitsIfPending(i.raw);
    GiveLast(s, rec[KeyIndex(m.fields)]);
    var k :| 0 <= k < |Holes(i.raw)| && Holes(i.raw)[k] == None;
    assert HolesOf(i)[|SetHoles(i)| + k] == None;
  }

  lemma {:induction false} KeyRaw(bt: Backend, m: Model)
    requires ValidModel(m) && KeyIndex(m.fields) < |m.fields|
    ensures RawClause(bt, KeyCondition(m))
  {}

  // ----- What the database sees

  lemma {:induction false} BlankIsRaw(bt: Backend, op: Op, m: Model)
    requires ValidModel(m)
    ensures RawOnly(bt, Blank(op, m))
  {
    ValidNames(bt, m);
  }

  lemma {:induction false} KeyCallsRaw(bt: Backend, kind: Kind, m: Model, rec: Record)
    requires ValidModel(m) && |rec| == |m.fields| && KeyIndex(m.fields) < |m.fields|
    ensures forall k :: 0 <= k < |CallsFor(kind, m, rec)| ==> RawCall(bt, CallsFor(kind, m, rec)[k])
  {
    SetsAreSets(kind, m, rec);
    KeyRaw(bt, m);
  }

  /** The holes of what is meant: the SET values and then the key. */
  lemma {:induction false} KeyBound(bt: Backend, m: Model, rec: Record, sets: seq<Call>)
    requires |rec| == |m.fields| && KeyIndex(m.fields) < |m.fields| && AllSets(sets)
    ensures var i := Intent([], AssignTokens(bt, sets), KeyTokens(m, rec), []);
            && !Pending(HolesOf(i)) && SetHoles(i) == Holes(i.set_) && |Holes(i.set_)| == |sets|
            && (sets == [] ==> Holes(i.set_) == [])
            && Holes(i.raw) == [Some(rec[KeyIndex(m.fields)])] && Holes(i.late) == []
            && (sets != [] ==> Assigned(i) == i.set_ != [] && HolesOf(i)[0] == Some(sets[0].v))
  {
    var name := m.fields[KeyIndex(m.fields)].name;
    AssignHoles(bt, sets);
    TextHasNoHoles<Option<Value>>(name + " = ");
    HolesConcat<Option<Value>>(Text(name + " = "), [Hole(Some(rec[KeyIndex(m.fields)]))]);
  }

  predicate HasColumns(kind: Kind, m: Model, rec: Record)
    requires |rec| == |m.fields|
  {
    OpFor(kind, m).Update? ==> SetPartCalls(kind, m, rec) != []
  }

  /** On the `?` dialects, and in a DELETE, the keyed statement says what is meant: every column gets its value
      and the key condition its key. */
  lemma {:induction false} CallsMean(bt: Backend, kind: Kind, m: Model, rec: Record)
    requires ValidModel(m) && |rec| == |m.fields| && KeyIndex(m.fields) < |m.fields| && HasColumns(kind, m, rec)
    requires OpFor(kind, m).Update? ==> !bt.Postgres?
    ensures var params := DoAll(bt, CallsFor(kind, m, rec)).params;
            && Executed(bt, SqlFor(bt, kind, m, rec), params) == Seen(bt, CalledTokens(bt, kind, m, rec))
            && Slots(Read(bt, SqlFor(bt, kind, m, rec), 0)) == Range(0, |SetPartCalls(kind, m, rec)| + 1)
  {
    hide Read, Built, Meaning, Disciplined, RawOnly, Number, Markless, Text, AssignTokens;
    var calls, sets, op := CallsFor(kind, m, rec), SetPartCalls(kind, m, rec), OpFor(kind, m);
    SetsAreSets(kind, m, rec);
    var i := Intent([], AssignTokens(bt, sets), KeyTokens(m, rec), []);
    KeyMeans(bt, m, rec, sets);
    KeyCallsRaw(bt, kind, m, rec);
    BlankIsRaw(bt, op, m);
    KeyBound(bt, m, rec, sets);
    ParametersAligned(bt, calls, Blank(op, m));
    IntendedHoles(Blank(op, m), i);
    var params := DoAll(bt, calls).params;
    assert |params| == |Somes(params)| == |HolesOf(i)|;
    BindMeaning(bt, Number(Intended(Blank(op, m), i), 0), params);
    assert i.raw + i.late == i.raw;
  }

  /** On Postgres a keyed UPDATE has the key as its last parameter, but the key's hole names the first SET
      value; so it says what is meant exactly if the two are equal. */
  lemma {:induction false} CallsOnPostgresExactly(kind: Kind, m: Model, rec: Record)
    requires ValidModel(m) && |rec| == |m.fields| && KeyIndex(m.fields) < |m.fields| && HasColumns(kind, m, rec)
    requires OpFor(kind, m).Update?
    ensures var sets, params := SetPartCalls(kind, m, rec), DoAll(Postgres, CallsFor(kind, m, rec)).params;
            && Slots(Read(Postgres, SqlFor(Postgres, kind, m, rec), 0)) == Range(0, |sets|) + [0]
            && (Executed(Postgres, SqlFor(Postgres, kind, m, rec), params)
                == Seen(Postgres, CalledTokens(Postgres, kind, m, rec))
                <==> sets[0].Set? && sets[0].v == rec[KeyIndex(m.fields)])
  {
    hide *;
    var calls, sets, q := CallsFor(kind, m, rec), SetPartCalls(kind, m, rec), Blank(Op.Update, m);
    var i, b, key := MeanAll(Postgres, calls), DoAll(Postgres, calls), rec[KeyIndex(m.fields)];
    KeyedSql(kind, m, rec);
    KeyedComplete(kind, m, rec);
    KeyNumbers(i, sets, key);
    KeyedIntended(kind, m, rec);
    PostgresUpdateReads(calls, q);
    PostgresUpdateExactly(calls, q);
    FirstAndKey(i, b.params, sets, key);
    OneEach(i, b.params, sets, key);
  }

  /** The holes: one for each SET value, and the key. */
  predicate HoldsKeyed(i: Intent, sets: seq<Call>, key: Value) {
    && AllSets(sets) && sets != [] && |SetHoles(i)| == |sets|
    && Holes(i.setRaw) == [] && |Holes(i.set_)| == |sets| && Holes(i.raw) == [Some(key)] && Holes(i.late) == []
    && HolesOf(i)[0] == Some(sets[0].v)
  }

  lemma {:induction false} KeyedComplete(kind: Kind, m: Model, rec: Record)
    requires ValidModel(m) && |rec| == |m.fields| && KeyIndex(m.fields) < |m.fields| && HasColumns(kind, m, rec)
    requires OpFor(kind, m).Update?
    ensures CompleteUpdate(CallsFor(kind, m, rec), Blank(Op.Update, m))
    ensures HoldsKeyed(MeanAll(Postgres, CallsFor(kind, m, rec)), SetPartCalls(kind, m, rec), rec[KeyIndex(m.fields)])
  {
    hide Number, Numbered, Built, RawClause, DoAll, MeanAll, Disciplined, Pending;
    var sets := SetPartCalls(kind, m, rec);
    SetsAreSets(kind, m, rec);
    KeyMeans(Postgres, m, rec, sets);
    KeyCallsRaw(Postgres, kind, m, rec);
    BlankIsRaw(Postgres, Op.Update, m);
    KeyBound(Postgres, m, rec, sets);
  }

  lemma {:induction false} KeyedSql(kind: Kind, m: Model, rec: Record)
    requires |rec| == |m.fields| && KeyIndex(m.fields) < |m.fields| && OpFor(kind, m).Update?
    ensures SqlFor(Postgres, kind, m, rec)
            == Built(Postgres, View(Blank(Op.Update, m), DoAll(Postgres, CallsFor(kind, m, rec))))
  {
    hide Built, DoAll, CallsFor;
  }

  /** The statement meant for the record is the one that its calls mean. */
  lemma {:induction false} KeyedIntended(kind: Kind, m: Model, rec: Record)
    requires ValidModel(m) && |rec| == |m.fields| && KeyIndex(m.fields) < |m.fields| && OpFor(kind, m).Update?
    requires Assigned(MeanAll(Postgres, CallsFor(kind, m, rec))) != []
    ensures CalledTokens(Postgres, kind, m, rec)
            == Intended(Blank(Op.Update, m), MeanAll(Postgres, CallsFor(kind, m, rec)))
  {
    hide Number, MeanAll, Disciplined, Text;
    var sets := SetPartCalls(kind, m, rec);
    SetsAreSets(kind, m, rec);
    KeyMeans(Postgres, m, rec, sets);
    var i := Intent([], AssignTokens(Postgres, sets), KeyTokens(m, rec), []);
    assert i.raw + i.late == i.raw && Assigned(i) == i.set_;
  }

  lemma {:induction false} KeyNumbers(i: Intent, sets: seq<Call>, key: Value)
    requires HoldsKeyed(i, sets, key)
    ensures |Holes(i.setRaw)| == 0 && |Holes(i.set_)| == |sets| && |Holes(i.raw)| == 1 && Assigned(i) != []
    ensures NumbersOf(i, 0, |sets|) == Range(0, |sets|) + [0]
  {}

  lemma {:induction false} OneEach(i: Intent, params: seq<Value>, sets: seq<Call>, key: Value)
    requires HoldsKeyed(i, sets, key) && |sets| < |params| && params[0] == sets[0].v && params[|sets|] == key
    ensures sets != [] && sets[0].Set? && (params[0..1] == params[|sets|..|sets| + 1] <==> sets[0].v == key)
  {
    assert params[0..1] == [params[0]] && params[|sets|..|sets| + 1] == [params[|sets|]];
  }

  lemma {:induction false} FirstAndKey(i: Intent, params: seq<Value>, sets: seq<Call>, key: Value)
    requires HoldsKeyed(i, sets, key) && HolesOf(i) == Somes(params)
    ensures |sets| < |params| && params[0] == sets[0].v && params[|sets|] == key
  {
    assert HolesOf(i)[|sets|] == Some(key);
  }

  // ----- The statement meant for a record

  /** `"c1" = v1, "c2" = v2, ...` for the fields at `js`. */
  function FieldTokens(bt: Backend, fs: seq<Field>, rec: Record, js: seq<nat>): seq<Tok>
    requires |rec| == |fs| && forall p :: 0 <= p < |js| ==> js[p] < |fs|
  {
    if js == [] then []
    else
      var last := |js| - 1;
      var before := FieldTokens(bt, fs, rec, js[..last]);
      before + (Link(before, ", ") + (Text(Quoted(bt, fs[js[last]].name) + " = ") + [Hole(Some(rec[js[last]]))]))
  }

  /** What is assigned: in an update every field that is no key, its value; in a soft delete `deleted` to the
      first field flagged for it. */
  function MeantAssignments(bt: Backend, kind: Kind, m: Model, rec: Record): seq<Tok>
    requires |rec| == |m.fields| && IsUpdate(kind, m)
  {
    match kind
    case Updating => FieldsBelow(m.fields); FieldTokens(bt, m.fields, rec, NonKeys(m.fields))
    case Deleting => Text(Quoted(bt, m.fields[Q.SoftIndex(m.fields)].name) + " = ") + [Hole(Some(Str("deleted")))]
  }

  /** A delete on a model with a soft-delete field is an update. */
  predicate IsUpdate(kind: Kind, m: Model) {
    kind.Updating? || !NoSoft(m.fields)
  }

  /** The statement meant for a record, from the model and the record alone. */
  function KeyedTokens(bt: Backend, kind: Kind, m: Model, rec: Record): seq<Tok>
    requires |rec| == |m.fields| && KeyIndex(m.fields) < |m.fields|
  {
    var where := Text(" WHERE ") + KeyTokens(m, rec);
    if IsUpdate(kind, m) then
      Text("UPDATE ") + ([Ident(m.table)] + (Text(" SET ") + (MeantAssignments(bt, kind, m, rec) + where)))
    else
      Text("DELETE FROM ") + ([Ident(m.table)] + where)
  }

  /** How many values are assigned, and the first of them. */
  function AssignedCount(kind: Kind, m: Model): nat {
    match kind
    case Updating => |NonKeys(m.fields)|
    case Deleting => if NoSoft(m.fields) then 0 else 1
  }

  function FirstAssigned(kind: Kind, m: Model, rec: Record): Value
    requires |rec| == |m.fields| && AssignedCount(kind, m) > 0
  {
    match kind
    case Updating => FieldsBelow(m.fields); rec[NonKeys(m.fields)[0]]
    case Deleting => Str("deleted")
  }

  lemma {:induction false} FieldsBelow(fs: seq<Field>)
    ensures forall p :: 0 <= p < |NonKeys(fs)| ==> NonKeys(fs)[p] < |fs|
  {
    assert forall p :: 0 <= p < |NonKeys(fs)| ==> NonKeys(fs)[p] in NonKeys(fs);
  }

  /** The calls of an update are one for each field that is no key, in order. */
  lemma {:induction false} SetCallsAre(fs: seq<Field>, rec: Record)
    requires |rec| == |fs|
    ensures var js := NonKeys(fs);
            && |SetCalls(fs, rec)| == |js|
            && forall p :: 0 <= p < |js| ==>
                 js[p] < |fs| && SetCalls(fs, rec)[p] == Call.Set(fs[js[p]].name, rec[js[p]])
  {
    FieldsBelow(fs);
    if fs != [] {
      SetCallsAre(fs[..|fs| - 1], rec[..|rec| - 1]);
    }
  }

  lemma {:induction false} FieldsAssigned(bt: Backend, fs: seq<Field>, rec: Record, js: seq<nat>, sets: seq<Call>)
    requires |rec| == |fs| && |sets| == |js| && AllSets(sets)
    requires forall p :: 0 <= p < |js| ==> js[p] < |fs| && sets[p] == Call.Set(fs[js[p]].name, rec[js[p]])
    ensures AssignTokens(bt, sets) == FieldTokens(bt, fs, rec, js)
  {
    if js != [] {
      FieldsAssigned(bt, fs, rec, js[..|js| - 1], sets[..|sets| - 1]);
    }
  }

  lemma {:induction false} SoftIs(m: Model)
    ensures Soft(m) <==> !NoSoft(m.fields)
  {}

  /** What the calls assign is what is meant. */
  lemma {:induction false} AssignsMeant(bt: Backend, kind: Kind, m: Model, rec: Record)
    requires ValidModel(m) && |rec| == |m.fields|
    ensures var sets := SetPartCalls(kind, m, rec);
            && AllSets(sets) && |sets| == AssignedCount(kind, m) && (OpFor(kind, m).Update? <==> IsUpdate(kind, m))
            && (IsUpdate(kind, m) ==> AssignTokens(bt, sets) == MeantAssignments(bt, kind, m, rec))
            && (sets != [] ==> sets[0].v == FirstAssigned(kind, m, rec))
  {
    hide ValidIdentifier, Text, NonKeys, SetCalls, Quoted;
    SetsAreSets(kind, m, rec);
    SoftIs(m);
    FieldsBelow(m.fields);
    if kind.Updating? {
      SetCallsAre(m.fields, rec);
      FieldsAssigned(bt, m.fields, rec, NonKeys(m.fields), SetPartCalls(kind, m, rec));
    } else if Soft(m) {
      OneAssigned(bt, m.fields[Q.SoftIndex(m.fields)].name, Str("deleted"));
    }
  }

  lemma {:induction false} OneAssigned(bt: Backend, field: string, v: Value)
    requires ValidIdentifier(field)
    ensures AssignTokens(bt, [Call.Set(field, v)]) == Text(Quoted(bt, field) + " = ") + [Hole(Some(v))]
  {
    var sets, ts := [Call.Set(field, v)], Text(Quoted(bt, field) + " = ") + [Hole(Some(v))];
    assert sets[..0] == [];
    assert [] + (Link([], ", ") + ts) == ts;
  }

  lemma {:induction false} CalledIsMeant(bt: Backend, kind: Kind, m: Model, rec: Record)
    requires ValidModel(m) && |rec| == |m.fields| && KeyIndex(m.fields) < |m.fields|
    ensures CalledTokens(bt, kind, m, rec) == KeyedTokens(bt, kind, m, rec)
  {
    hide AssignTokens, MeantAssignments, KeyTokens, SetPartCalls, OpFor, IsUpdate, Text;
    AssignsMeant(bt, kind, m, rec);
  }

  /** On the `?` dialects, and in a DELETE, the keyed statement says what is meant: an update assigns every field
      that is no key its value, once and in order, a soft delete only `deleted`, and the key condition has the
      key. Only an update with no field to assign is left out. */
  lemma {:induction false} KeyedStatementMeans(bt: Backend, kind: Kind, m: Model, rec: Record)
    requires ValidModel(m) && |rec| == |m.fields| && KeyIndex(m.fields) < |m.fields|
    requires IsUpdate(kind, m) ==> !bt.Postgres? && AssignedCount(kind, m) > 0
    ensures var params := DoAll(bt, CallsFor(kind, m, rec)).params;
            && Executed(bt, SqlFor(bt, kind, m, rec), params) == Seen(bt, KeyedTokens(bt, kind, m, rec))
            && Slots(Read(bt, SqlFor(bt, kind, m, rec), 0)) == Range(0, AssignedCount(kind, m) + 1)
  {
    hide AssignTokens, MeantAssignments, KeyTokens, SetPartCalls, OpFor, IsUpdate, Text, Executed, Seen, Read, Slots;
    AssignsMeant(bt, kind, m, rec);
    CalledIsMeant(bt, kind, m, rec);
    CallsMean(bt, kind, m, rec);
  }

  /** On Postgres a keyed UPDATE has the key as its last parameter, but the key's hole names the first value
      assigned; so it says what is meant exactly if the two are equal. */
  lemma {:induction false} KeyedOnPostgresExactly(kind: Kind, m: Model, rec: Record)
    requires ValidModel(m) && |rec| == |m.fields| && KeyIndex(m.fields) < |m.fields|
    requires IsUpdate(kind, m) && AssignedCount(kind, m) > 0
    ensures var params := DoAll(Postgres, CallsFor(kind, m, rec)).params;
            && Slots(Read(Postgres, SqlFor(Postgres, kind, m, rec), 0)) == Range(0, AssignedCount(kind, m)) + [0]
            && (Executed(Postgres, SqlFor(Postgres, kind, m, rec), params)
                == Seen(Postgres, KeyedTokens(Postgres, kind, m, rec))
                <==> FirstAssigned(kind, m, rec) == rec[KeyIndex(m.fields)])
  {
    hide AssignTokens, MeantAssignments, KeyTokens, SetPartCalls, OpFor, IsUpdate, Text, Executed, Seen, Read, Slots;
    AssignsMeant(Postgres, kind, m, rec);
    CalledIsMeant(Postgres, kind, m, rec);
    CallsOnPostgresExactly(kind, m, rec);
  }

  /** So there a keyed operation of a batch does to the table what the statement meant does. */
  lemma {:induction false} KeyedActs<T>(run: Action<T>, bt: Backend, kind: Kind, m: Model, hook: Record -> bool,
                                        rec: Record, table: T)
    requires ValidModel(m) && |rec| == |m.fields| && KeyIndex(m.fields) < |m.fields|
    requires IsUpdate(kind, m) ==> !bt.Postgres? && AssignedCount(kind, m) > 0
    ensures Keyed(run, bt, kind, m, hook, rec, table)
            == if Passes(hook, rec) then Act(run, Seen(bt, KeyedTokens(bt, kind, m, rec)), table) else Failed
  {
    hide Executed, Seen, KeyedTokens, SqlFor, CallsFor, DoAll, Act, Passes;
    KeyedStatementMeans(bt, kind, m, rec);
  }

  // ----- Statements that do not say what is meant

  /** The model of the examples: a key `id` and one column `a`, which may be the soft-delete column. */
  function Example(soft: bool): (m: Model)
    ensures ValidModel(m) && |m.fields| == 2 && KeyIndex(m.fields) == 0 && m.fields[0].name == "id"
    ensures Q.SoftColumn(m.fields) == if soft then Some("a") else None
  {
    var fs := [Field("id", true, false, false), Field("a", false, false, soft)];
    assert KeyIndex(fs) == 0 && fs[1..] == [fs[1]] && fs[1..][1..] == [];
    Model("t", fs, None)
  }

  lemma {:induction false} ExampleSets(key: Value, v: Value)
    ensures SetPartCalls(Updating, Example(false), [key, v]) == [Call.Set("a", v)]
    ensures CallsFor(Updating, Example(false), [key, v]) == [Call.Set("a", v), Where("id = ?"), Bind(key)]
  {
    var fs, rec := Example(false).fields, [key, v];
    assert fs[..1][..0] == [] && fs[..1] == [fs[0]] && rec[..1] == [key] && rec[..1][..0] == [];
    assert SetCalls(fs[..1], rec[..1]) == [];
    assert "id" + " = ?" == "id = ?";
  }

  /** `UPDATE t SET a = v WHERE id = key` on Postgres, with two different values. */
  lemma {:induction false} KeyMisread(key: Value, v: Value)
    requires key != v
    ensures Executed(Postgres, SqlFor(Postgres, Updating, Example(false), [key, v]),
                     DoAll(Postgres, CallsFor(Updating, Example(false), [key, v])).params)
            != Seen(Postgres, KeyedTokens(Postgres, Updating, Example(false), [key, v]))
  {
    ExampleSets(key, v);
    KeyedOnPostgresExactly(Updating, Example(false), [key, v]);
  }

  /** The same with the calls of the query object. */
  lemma {:induction false} SetMisread(v: Value, w: Value)
    requires v != w
    ensures var calls, q := [Call.Set("a", v), Where("id = ?"), Bind(w)], Blank(Op.Update, Example(false));
            var i, b := MeanAll(Postgres, calls), DoAll(Postgres, calls);
            && CompleteUpdate(calls, q)
            && Executed(Postgres, Built(Postgres, View(q, b)), b.params) != Seen(Postgres, Intended(q, i))
  {
    hide Executed, Built, Seen, Intended, RawOnly, Disciplined;
    var m, rec, sets := Example(false), [w, v], [Call.Set("a", v)];
    var calls, q := [Call.Set("a", v), Where("id = ?"), Bind(w)], Blank(Op.Update, m);
    ExampleSets(w, v);
    SetsAreSets(Updating, m, rec);
    KeyMeans(Postgres, m, rec, sets);
    KeyCallsRaw(Postgres, Updating, m, rec);
    BlankIsRaw(Postgres, Op.Update, m);
    KeyBound(Postgres, m, rec, sets);
    PostgresUpdateReads(calls, q);
    PostgresUpdateExactly(calls, q);
    var i, params := MeanAll(Postgres, calls), DoAll(Postgres, calls).params;
    FirstAndKey(i, params, sets, w);
  }
}
