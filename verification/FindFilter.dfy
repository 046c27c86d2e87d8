/**
 The soft-delete filter of `corm_find`, judged by what the WHERE chain means.
*/
module FindFilter {
  import opened SqlText
  import opened Builder
  import opened QueryCalls
  import opened Conditions

  /** The filter that `corm_find` adds. */
  function Filter(field: string): Condition {
    [Word(Fold(field), 0), Word("IS", 0), Word("NULL", 0)]
  }

  /** `corm_find` called `times` times on one query object. */
  function AfterFinds(calls: seq<Call>, field: string, times: nat): seq<Call> {
    if times == 0 then calls else AfterFinds(calls, field, times - 1) + [WhereNull(field)]
  }

  predicate FilterField(field: string) {
    ValidIdentifier(field) && Readable(WhereNull(field))
  }

  lemma {:induction false} FindsReadable(calls: seq<Call>, field: string, times: nat)
    requires AllReadable(calls) && FilterField(field)
    ensures AllReadable(AfterFinds(calls, field, times))
  {
    hide Readable;
    if times > 0 {
      FindsReadable(calls, field, times - 1);
    }
  }

  /** The filter joins the last run. */
  lemma {:induction false} FilterJoins(bt: Backend, calls: seq<Call>, field: string)
    requires FilterField(field)
    ensures Runs(bt, calls + [WhereNull(field)]) == Grown(Runs(bt, calls), false, Filter(field))
  {
    hide ConditionOf, Filter, QuestionsOf, DoAll;
    var all := calls + [WhereNull(field)];
    assert all[..|calls|] == calls && all[|calls|] == WhereNull(field);
    FilterWords(field, QuestionsOf(bt, calls));
  }

  lemma {:induction false} FilterJoinsLast(bt: Backend, calls: seq<Call>, field: string)
    requires FilterField(field)
    ensures Runs(bt, AfterFinds(calls, field, 1)) == Grown(Runs(bt, calls), false, Filter(field))
  {
    assert AfterFinds(calls, field, 0) == calls;
    FilterJoins(bt, calls, field);
  }

  ghost predicate OnlyUndeleted(bt: Backend, calls: seq<Call>, field: string) {
    AllNull(DoAll(bt, calls).where, field)
  }

  /** A statement with this WHERE text selects only rows of which `field IS NULL` is true. */
  ghost predicate AllNull(where: string, field: string) {
    forall row: Condition -> Truth :: Selects(where, row) ==> Holds(row, Filter(field))
  }

  ghost predicate SameRows(where: string, other: string) {
    forall row: Condition -> Truth :: Selects(where, row) <==> Selects(other, row)
  }

  /** Every AND-run before the last tests the field itself. */
  predicate Guarded(bt: Backend, calls: seq<Call>, field: string) {
    forall i :: 0 <= i < |Runs(bt, calls)| - 1 ==> Filter(field) in Runs(bt, calls)[i]
  }

  /** A find returns only undeleted rows, whatever the other conditions say of a row, exactly when every AND-run
      before the last one tests the soft-delete column itself; the filter guards only the last. Conditions of
      different texts count as independent of each other. */
  lemma {:induction false} FindHidesDeletedExactly(bt: Backend, calls: seq<Call>, field: string)
    requires AllReadable(calls) && FilterField(field)
    ensures OnlyUndeleted(bt, AfterFinds(calls, field, 1), field) <==> Guarded(bt, calls, field)
  {
    hide Runs, AllReadable, OnlyUndeleted, FilterField, Filter;
    var all := AfterFinds(calls, field, 1);
    var rs, us := Runs(bt, calls), Runs(bt, all);
    FindsReadable(calls, field, 1);
    FilterJoinsLast(bt, calls, field);
    assert forall i :: 0 <= i < |rs| - 1 ==> us[i] == rs[i];
    if forall i :: 0 <= i < |rs| - 1 ==> Filter(field) in rs[i] {
      assert forall i :: 0 <= i < |us| ==> Filter(field) in us[i];
      EveryRunTests(bt, calls, field);
    } else {
      var i :| 0 <= i < |rs| - 1 && Filter(field) !in rs[i];
      SomeRunDoesNotTest(bt, all, field, i);
    }
  }

  lemma {:induction false} SomeRunDoesNotTest(bt: Backend, all: seq<Call>, field: string, i: nat)
    requires AllReadable(all) && i < |Runs(bt, all)| && Filter(field) !in Runs(bt, all)[i]
    ensures !OnlyUndeleted(bt, all, field)
  {
    hide Runs, AllReadable, Filter, Reading, DoAll;
    var run := Runs(bt, all)[i];
    var row := (ws: Condition) => if ws in run then True else False;
    assert AllTrue(Runs(bt, all)[i], row);
    SelectsByRuns(bt, all, row);
    assert Selects(DoAll(bt, all).where, row) && !Holds(row, Filter(field));
  }

  lemma {:induction false} EveryRunTests(bt: Backend, calls: seq<Call>, field: string)
    requires AllReadable(AfterFinds(calls, field, 1)) && Runs(bt, AfterFinds(calls, field, 1)) != []
    requires var rs := Runs(bt, AfterFinds(calls, field, 1)); forall i :: 0 <= i < |rs| ==> Filter(field) in rs[i]
    ensures OnlyUndeleted(bt, AfterFinds(calls, field, 1), field)
  {
    var all := AfterFinds(calls, field, 1);
    forall row: Condition -> Truth | Selects(DoAll(bt, all).where, row) ensures Holds(row, Filter(field)) {
      SelectsByRuns(bt, all, row);
      var i :| 0 <= i < |Runs(bt, all)| && AllTrue(Runs(bt, all)[i], row);
      var j :| 0 <= j < |Runs(bt, all)[i]| && Runs(bt, all)[i][j] == Filter(field);
    }
  }

  /** Without `or_where` a find returns only undeleted rows. */
  lemma {:induction false} FindHidesDeleted(bt: Backend, calls: seq<Call>, field: string)
    requires AllReadable(calls) && FilterField(field)
    requires forall i :: 0 <= i < |calls| ==> !calls[i].OrWhere?
    ensures OnlyUndeleted(bt, AfterFinds(calls, field, 1), field)
  {
    OneRun(bt, calls);
    FindHidesDeletedExactly(bt, calls, field);
  }

  lemma {:induction false} OneRun(bt: Backend, calls: seq<Call>)
    requires forall i :: 0 <= i < |calls| ==> !calls[i].OrWhere?
    ensures |Runs(bt, calls)| <= 1
  {
    if calls != [] {
      OneRun(bt, calls[..|calls| - 1]);
    }
  }

  /** With `or_where` a deleted row comes back: `p OR q AND deleted IS NULL`. */
  lemma {:induction false} OrWhereShowsDeleted(bt: Backend)
    ensures var calls := [Where("p"), OrWhere("q")];
            && AllReadable(calls) && FilterField("deleted")
            && !OnlyUndeleted(bt, AfterFinds(calls, "deleted", 1), "deleted")
  {
    hide *;
    ShownReadable();
    ShownRuns(bt);
    FindHidesDeletedExactly(bt, [Where("p"), OrWhere("q")], "deleted");
  }

  lemma {:induction false} ShownReadable()
    ensures AllReadable([Where("p"), OrWhere("q")]) && FilterField("deleted")
  {
    hide StandsAlone, Single, Readable, FilterField, ValidIdentifier;
    ReadableWord("p");
    ReadableWord("q");
    ReadableWord("deleted");
  }

  lemma {:induction false} ReadableWord(w: string)
    requires w != "" && (forall i :: 0 <= i < |w| ==> Letter(w[i])) && Upper(w[0]) !in FIRSTS
    ensures Readable(Where(w)) && Readable(OrWhere(w)) && FilterField(w)
  {
    hide StandsAlone, Single, ValidIdentifier, FIRSTS, Letter;
    NoKeywordWord(w);
  }

  lemma {:induction false} ShownRuns(bt: Backend)
    ensures !Guarded(bt, [Where("p"), OrWhere("q")], "deleted")
  {
    var p, calls := [Where("p")], [Where("p"), OrWhere("q")];
    WholeWord("p");
    hide Words, DoAll, QuestionsOf;
    assert calls[..1] == p && p[..0] == [] && calls[1] == OrWhere("q") && p[0] == Where("p");
    assert Runs(bt, p) == Grown([], false, ConditionOf("p", QuestionsOf(bt, [])));
    assert |ConditionOf("p", QuestionsOf(bt, []))| == |["p"]|;
    var rs := Runs(bt, calls);
    assert |rs| == 2 && |rs[0]| == 1 && |rs[0][0]| != |Filter("deleted")|;
    assert Filter("deleted") !in rs[0];
  }

  /** A word of letters that begins no keyword. */
  lemma {:induction false} NoKeywordWord(w: string)
    requires w != "" && (forall i :: 0 <= i < |w| ==> Letter(w[i])) && Upper(w[0]) !in FIRSTS
    ensures StandsAlone(w) && Single(w) && ValidIdentifier(w)
  {
    WholeWord(w);
    SimplePlain(w);
    FirstChar(w);
    hide StandsAlone, Words, Ordinary, Single, AllOrdinary, Closed;
    OrdinaryNone();
    OrdinaryMore(w, []);
    OrdinarySingle(w, [w]);
  }

  lemma {:induction false} SimplePlain(s: string)
    requires forall i :: 0 <= i < |s| ==> Letter(s[i])
    requires s != "" && Upper(s[0]) !in FIRSTS
    ensures StandsAlone(s)
  {
    NoneOpens(s);
    forall i | 0 <= i < |s| ensures !Foreign(s, i) && !Keyword(s, i) && s[i] != ')' {
      if i + 2 <= |s| {
        assert s[i..i + 2][0] == s[i];
      }
      NoKeyword(s, i);
    }
  }

  /** The letters that keywords begin with. */
  const FIRSTS := "ABCEFGHILORUWX"

  lemma {:induction false} NoKeyword(s: string, i: nat)
    requires i < |s| && (forall k :: 0 <= k < |s| ==> Letter(s[k])) && Upper(s[0]) !in FIRSTS
    ensures !Keyword(s, i)
  {
    hide KeywordAt;
    forall k | 0 <= k < |KEYWORDS| ensures !KeywordAt(s, i, KEYWORDS[k]) {
      KeywordStarts(KEYWORDS[k]);
      NotKeyword(s, i, KEYWORDS[k]);
    }
  }

  lemma {:induction false} NotKeyword(s: string, i: nat, keyword: string)
    requires i < |s| && (forall k :: 0 <= k < |s| ==> Letter(s[k])) && Upper(s[0]) !in FIRSTS
    requires keyword != "" && keyword[0] in FIRSTS
    ensures !KeywordAt(s, i, keyword)
  {
    if i == 0 && |keyword| <= |s| {
      assert Raised(s[..|keyword|])[0] == Upper(s[0]);
    }
  }

  lemma {:induction false} KeywordStarts(keyword: string)
    requires keyword in KEYWORDS
    ensures keyword != "" && keyword[0] in FIRSTS
  {}

  lemma {:induction false} FilterWords(field: string, k: nat)
    requires FilterField(field)
    ensures ConditionOf(field + " IS NULL", k) == Filter(field)
  {
    FieldOrdinary(field);
    FilterHoled(field, k);
    FirstChar("IS");
    FirstChar("NULL");
    hide Words, Fold, Holed, Ordinary;
    OrdinaryWords([field] + (["IS"] + ["NULL"]), k, 0);
  }

  lemma {:induction false} FilterHoled(field: string, k: nat)
    requires ValidIdentifier(field)
    ensures Words(field + " IS NULL") == [field] + (["IS"] + ["NULL"])
    ensures Holed([field] + (["IS"] + ["NULL"]), k) == Filter(field)
  {
    NoQuestions(field);
    PlainWord("IS");
    PlainWord("NULL");
    hide Words, Fold, Questions, Holed, Closed;
    NullWords();
    FieldThen(field, "IS NULL");
    NullText(field);
    ThreeHoled(field, "IS", "NULL", k);
  }

  lemma {:induction false} ThreeHoled(a: string, b: string, c: string, k: nat)
    requires Questions(a) == Questions(b) == Questions(c) == 0
    ensures Holed([a] + ([b] + [c]), k) == [Word(Fold(a), 0), Word(Fold(b), 0), Word(Fold(c), 0)]
  {
    hide Fold, Questions, Holed;
    HoledTexts([a] + ([b] + [c]), k);
  }

  /** Repeating `corm_find`, or `corm_query_count`, on one query object selects the same rows each time. */
  lemma {:induction false} RepeatedFindSelectsAlike(bt: Backend, calls: seq<Call>, field: string, times: nat,
                                                    row: Condition -> Truth)
    requires AllReadable(calls) && FilterField(field) && times > 0
    ensures Selects(DoAll(bt, AfterFinds(calls, field, times)).where, row)
            <==> Selects(DoAll(bt, AfterFinds(calls, field, 1)).where, row)
  {
    if times > 1 {
      RepeatedFindSelectsAlike(bt, calls, field, times - 1, row);
      FindAgain(bt, AfterFinds(calls, field, times - 2), calls, field, times, row);
    }
  }

  lemma {:induction false} FindAgain(bt: Backend, before: seq<Call>, calls: seq<Call>, field: string, times: nat,
                                      row: Condition -> Truth)
    requires AllReadable(calls) && FilterField(field) && times > 1 && before == AfterFinds(calls, field, times - 2)
    ensures Selects(DoAll(bt, AfterFinds(calls, field, times)).where, row)
            <==> Selects(DoAll(bt, AfterFinds(calls, field, times - 1)).where, row)
  {
    hide Runs, Selects, DoAll, AllReadable, FilterField, Filter;
    var once, twice := AfterFinds(calls, field, times - 1), AfterFinds(calls, field, times);
    FindsReadable(calls, field, times - 1);
    FindsReadable(calls, field, times);
    FilterJoins(bt, before, field);
    FilterJoins(bt, once, field);
    SelectsByRuns(bt, once, row);
    SelectsByRuns(bt, twice, row);
    FilterTwice(Runs(bt, once), Filter(field), row);
  }

  /** Testing the last condition of the last run once more changes nothing. */
  lemma {:induction false} FilterTwice(rs: seq<AndRun>, ws: Condition, row: Condition -> Truth)
    requires rs != [] && rs[|rs| - 1] != [] && rs[|rs| - 1][|rs[|rs| - 1]| - 1] == ws
    requires forall i :: 0 <= i < |rs| ==> rs[i] != []
    ensures var us := Grown(rs, false, ws);
            (exists i :: 0 <= i < |us| && AllTrue(us[i], row)) <==> (exists i :: 0 <= i < |rs| && AllTrue(rs[i], row))
  {
    var last := |rs| - 1;
    var us := rs[..last] + [rs[last] + [ws]];
    assert us == Grown(rs, false, ws);
    hide Grown;
    assert forall i :: 0 <= i < last ==> us[i] == rs[i];
    assert AllTrue(us[last], row) <==> AllTrue(rs[last], row) by {
      assert forall i :: 0 <= i < |rs[last]| ==> us[last][i] == rs[last][i];
    }
    if exists i :: 0 <= i < |us| && AllTrue(us[i], row) {
      var i :| 0 <= i < |us| && AllTrue(us[i], row);
      assert AllTrue(rs[i], row);
    }
    if exists i :: 0 <= i < |rs| && AllTrue(rs[i], row) {
      var i :| 0 <= i < |rs| && AllTrue(rs[i], row);
      assert AllTrue(us[i], row);
    }
  }

  // ----- The filter of a query object

  /** The first field flagged for soft deletion. */
  predicate FirstSoft(fs: seq<Field>, i: nat) {
    i < |fs| && fs[i].softDelete && forall j :: 0 <= j < i ==> !fs[j].softDelete
  }

  predicate NoSoft(fs: seq<Field>) {
    forall j :: 0 <= j < |fs| ==> !fs[j].softDelete
  }

  /** What a scoped find leaves as WHERE text after `calls`: it selects undeleted rows only exactly if the runs
      are guarded, and a find right after another one, or after the same test, selects the same rows again. */
  ghost predicate Filtered(bt: Backend, calls: seq<Call>, field: string, where: string) {
    && where == DoAll(bt, calls + [WhereNull(field)]).where
    && (AllNull(where, field) <==> Guarded(bt, calls, field))
    && (calls != [] && calls[|calls| - 1] == WhereNull(field) ==> SameRows(where, DoAll(bt, calls).where))
  }

  lemma {:induction false} NullTestFilters(bt: Backend, calls: seq<Call>, field: string)
    requires AllReadable(calls) && FilterField(field)
    ensures Filtered(bt, calls, field, Do(bt, DoAll(bt, calls), WhereNull(field)).where)
  {
    hide AllNull, Guarded, SameRows, AllReadable, FilterField, Do;
    var all := calls + [WhereNull(field)];
    assert all[..|calls|] == calls && all[|calls|] == WhereNull(field);
    assert DoAll(bt, all) == Do(bt, DoAll(bt, calls), WhereNull(field));
    GuardedExactly(bt, calls, field);
    if calls != [] && calls[|calls| - 1] == WhereNull(field) {
      SameAgain(bt, calls, field);
    }
  }

  lemma {:induction false} GuardedExactly(bt: Backend, calls: seq<Call>, field: string)
    requires AllReadable(calls) && FilterField(field)
    ensures AllNull(DoAll(bt, calls + [WhereNull(field)]).where, field) <==> Guarded(bt, calls, field)
  {
    hide AllNull, AllReadable, FilterField;
    assert AfterFinds(calls, field, 0) == calls;
    assert AfterFinds(calls, field, 1) == calls + [WhereNull(field)];
    FindHidesDeletedExactly(bt, calls, field);
  }

  lemma {:induction false} SameAgain(bt: Backend, calls: seq<Call>, field: string)
    requires AllReadable(calls) && FilterField(field) && calls != [] && calls[|calls| - 1] == WhereNull(field)
    ensures SameRows(DoAll(bt, calls + [WhereNull(field)]).where, DoAll(bt, calls).where)
  {
    hide Readable, FilterField, Selects, DoAll;
    var front := calls[..|calls| - 1];
    assert AfterFinds(front, field, 0) == front && AfterFinds(front, field, 1) == calls;
    assert AfterFinds(front, field, 2) == calls + [WhereNull(field)];
    forall row: Condition -> Truth
      ensures Selects(DoAll(bt, calls + [WhereNull(field)]).where, row) <==> Selects(DoAll(bt, calls).where, row)
    {
      RepeatedFindSelectsAlike(bt, front, field, 2, row);
    }
  }

  /** What `corm_find` and `corm_query_count` do to the buffers of a query on a model with these fields: nothing
      when the query is unscoped or no field is flagged, and otherwise they add the test of the first flagged
      field, which filters. */
  ghost predicate FindScopes(bt: Backend, fs: seq<Field>, unscoped: bool, before: Buffers, after: Buffers) {
    && (unscoped || NoSoft(fs) ==> after == before)
    && forall i: nat :: !unscoped && FirstSoft(fs, i) ==>
         && after == Do(bt, before, WhereNull(fs[i].name))
         && forall calls: seq<Call> ::
              before == DoAll(bt, calls) && AllReadable(calls) && FilterField(fs[i].name) ==>
                Filtered(bt, calls, fs[i].name, after.where)
  }

  lemma {:induction false} NothingScoped(bt: Backend, fs: seq<Field>, unscoped: bool, b: Buffers)
    requires unscoped || NoSoft(fs)
    ensures FindScopes(bt, fs, unscoped, b, b)
  {}

  lemma {:induction false} FirstScoped(bt: Backend, fs: seq<Field>, b: Buffers, i: nat)
    requires FirstSoft(fs, i)
    ensures FindScopes(bt, fs, false, b, Do(bt, b, WhereNull(fs[i].name)))
  {
    hide Filtered, AllReadable, FilterField, Do, DoAll;
    forall calls: seq<Call> | b == DoAll(bt, calls) && AllReadable(calls) && FilterField(fs[i].name)
      ensures Filtered(bt, calls, fs[i].name, Do(bt, b, WhereNull(fs[i].name)).where)
    {
      NullTestFilters(bt, calls, fs[i].name);
    }
  }
}
