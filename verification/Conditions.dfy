/**
 What the WHERE chain of a query means. The WHERE text is read as SQL reads it, with AND binding tighter than OR
 (section 8.12 of SQL-92); the soft-delete filter of `corm_find` is judged by that reading.
*/
module Conditions {
  import opened Common
  import opened SqlText
  import opened Builder
  import opened QueryCalls

  // ----- Words outside parentheses and quotes

  /** Where a scan of the text stands: how many parentheses are open, and inside which quotes it is. */
  datatype Lex = Lex(depth: nat, quote: Option<char>)

  const OUTSIDE := Lex(0, None)

  predicate IsQuote(c: char) {
    c == '\'' || c == '"' || c == '`'
  }

  function Advance(st: Lex, c: char): Lex {
    if st.quote.Some? then (if c == st.quote.value then st.(quote := None) else st)
    else if IsQuote(c) then st.(quote := Some(c))
    else if c == '(' then st.(depth := st.depth + 1)
    else if c == ')' && st.depth > 0 then st.(depth := st.depth - 1)
    else st
  }

  function Scanned(st: Lex, s: string): Lex
    decreases s
  {
    if s == "" then st else Scanned(Advance(st, s[0]), s[1..])
  }

  /** Parentheses and quotes are closed at the end. */
  predicate Closed(s: string) {
    Scanned(OUTSIDE, s) == OUTSIDE
  }

  function WordEnd(s: string, st: Lex): (n: nat)
    ensures n <= |s| && (s != "" && (st != OUTSIDE || s[0] != ' ') ==> n > 0)
  {
    if s == "" || (st == OUTSIDE && s[0] == ' ') then 0 else 1 + WordEnd(s[1..], Advance(st, s[0]))
  }

  /** The words of a text, separated by spaces outside parentheses and quotes. */
  function Words(s: string): seq<string> {
    if s == "" then []
    else if s[0] == ' ' then Words(s[1..])
    else [s[..WordEnd(s, OUTSIDE)]] + Words(s[WordEnd(s, OUTSIDE)..])
  }

  function Upper(c: char): char {
    if 'a' <= c <= 'z' then 'A' + (c - 'a') else c
  }

  function Raised(w: string): (u: string)
    ensures |u| == |w| && forall i :: 0 <= i < |w| ==> u[i] == Upper(w[i])
  {
    seq(|w|, i requires 0 <= i < |w| => Upper(w[i]))
  }

  /** Names and keywords are not case-sensitive; what is quoted is. */
  function Fold(w: string): string {
    if exists i :: 0 <= i < |w| && IsQuote(w[i]) then w else Raised(w)
  }

  /** A word, and for one with a `?` how many came before it in the text: equal words with different
      parameters are different. */
  datatype Word = Word(text: string, hole: nat)

  function Questions(w: string): nat {
    if w == "" then 0 else (if w[0] == '?' then 1 else 0) + Questions(w[1..])
  }

  function QuestionsIn(ws: seq<string>): nat {
    if ws == [] then 0 else Questions(ws[0]) + QuestionsIn(ws[1..])
  }

  function Holed(ws: seq<string>, k: nat): (us: seq<Word>)
    ensures |us| == |ws|
  {
    if ws == [] then []
    else [Word(Fold(ws[0]), if Questions(ws[0]) > 0 then k else 0)] + Holed(ws[1..], k + Questions(ws[0]))
  }

  // ----- Reading a search condition

  predicate IsOr(w: Word) { w.text == "OR" }

  predicate IsAnd(w: Word) { w.text == "AND" }

  const AND := Word("AND", 0)
  const OR := Word("OR", 0)

  type Condition = seq<Word>

  predicate IsBetween(w: Word) { w.text == "BETWEEN" }

  /** The words with every AND that belongs to a BETWEEN in lower case, which no word of a text is in; `open`
      BETWEENs before them still lack theirs. */
  function Paired(ws: seq<Word>, open: nat): (us: seq<Word>)
    ensures |us| == |ws|
  {
    if ws == [] then []
    else
      [if IsAnd(ws[0]) && open > 0 then ws[0].(text := "and") else ws[0]] + Paired(ws[1..], Opened(ws[0], open))
  }

  function Opened(w: Word, open: nat): nat {
    if IsBetween(w) then open + 1 else if IsAnd(w) && open > 0 then open - 1 else open
  }

  function OpenAfter(ws: seq<Word>, open: nat): nat {
    if ws == [] then open else OpenAfter(ws[1..], Opened(ws[0], open))
  }

  datatype Formula = Atom(words: Condition) | Conj(l: Formula, r: Formula) | Disj(l: Formula, r: Formula)

  /** One past the last OR, or 0. */
  function AfterOr(ws: seq<Word>): (k: nat)
    ensures k <= |ws| && (k > 0 ==> IsOr(ws[k - 1]))
  {
    if ws == [] then 0 else if IsOr(ws[|ws| - 1]) then |ws| else AfterOr(ws[..|ws| - 1])
  }

  function AfterAnd(ws: seq<Word>): (k: nat)
    ensures k <= |ws| && (k > 0 ==> IsAnd(ws[k - 1]))
  {
    if ws == [] then 0 else if IsAnd(ws[|ws| - 1]) then |ws| else AfterAnd(ws[..|ws| - 1])
  }

  /** A boolean term: factors joined by AND. */
  function ParseTerm(ws: seq<Word>): Formula
    decreases |ws|
  {
    var k := AfterAnd(ws);
    if k == 0 then Atom(ws) else Conj(ParseTerm(ws[..k - 1]), Atom(ws[k..]))
  }

  /** A search condition: boolean terms joined by OR. */
  function Parse(ws: seq<Word>): Formula
    decreases |ws|
  {
    var k := AfterOr(ws);
    if k == 0 then ParseTerm(ws) else Disj(Parse(ws[..k - 1]), ParseTerm(ws[k..]))
  }

  function Reading(where: string): Formula {
    Parse(Paired(Holed(Words(where), 0), 0))
  }

  datatype Truth = True | False | Unknown

  /** The three-valued logic of SQL; `row` gives the truth of each atomic condition for a row, whatever is in
      its parentheses. */
  function Eval(f: Formula, row: Condition -> Truth): Truth {
    match f
    case Atom(ws) => row(ws)
    case Conj(l, r) =>
      var a, b := Eval(l, row), Eval(r, row);
      if a.False? || b.False? then False else if a.True? && b.True? then True else Unknown
    case Disj(l, r) =>
      var a, b := Eval(l, row), Eval(r, row);
      if a.True? || b.True? then True else if a.False? && b.False? then False else Unknown
  }

  /** Whether a statement with this WHERE text selects the row. */
  predicate Selects(where: string, row: Condition -> Truth) {
    where == "" || Eval(Reading(where), row).True?
  }

  // ----- What the calls mean

  predicate Letter(c: char) {
    'a' <= c <= 'z' || 'A' <= c <= 'Z' || c == '_'
  }

  /** The keyword stands at position `i`, spaces around it or not. */
  predicate KeywordAt(s: string, i: nat, keyword: string) {
    && i + |keyword| <= |s| && Raised(s[i..i + |keyword|]) == keyword
    && (i == 0 || !Letter(s[i - 1]))
    && (i + |keyword| == |s| || !(Letter(s[i + |keyword|]) || '0' <= s[i + |keyword|] <= '9'))
  }

  /** The connectives, what takes an AND for its own, and what ends a search condition. */
  const KEYWORDS := [
    "AND", "OR", "XOR", "BETWEEN", "CASE", "UNION", "EXCEPT", "INTERSECT", "GROUP", "HAVING", "WINDOW", "ORDER",
    "LIMIT", "OFFSET", "FETCH", "FOR", "INTO", "RETURNING"
  ]

  /** A BETWEEN, or an AND, that is a word by itself. */
  predicate OfBetween(s: string, i: nat, keyword: string) {
    && (keyword == "BETWEEN" || keyword == "AND") && i + |keyword| <= |s|
    && (i == 0 || s[i - 1] == ' ') && (i + |keyword| == |s| || s[i + |keyword|] == ' ')
  }

  predicate Keyword(s: string, i: nat) {
    exists k :: 0 <= k < |KEYWORDS| && KeywordAt(s, i, KEYWORDS[k]) && !OfBetween(s, i, KEYWORDS[k])
  }

  /** A character, or two, that the reading above does not know: other white space, escapes, comments, other
      quotes, the end of a statement, an assignment, and the connectives `&&` and `||`. */
  predicate Foreign(s: string, i: nat)
    requires i < |s|
  {
    || s[i] < ' ' || s[i] in "\\;#$[]"
    || (i + 1 < |s| && s[i..i + 2] in ["--", "/*", "&&", "||", ":="])
  }

  /** A text that stands by itself: closed, no keyword outside its parentheses and quotes except those of
      BETWEEN, and nothing foreign. Inside its parentheses there may be anything. */
  predicate StandsAlone(s: string) {
    && Closed(s)
    && forall i :: 0 <= i < |s| ==>
         && !Foreign(s, i)
         && (Scanned(OUTSIDE, s[..i]) == OUTSIDE ==> s[i] != ')' && !Keyword(s, i))
  }

  predicate Atomic(ws: Condition) {
    ws != [] && forall i :: 0 <= i < |ws| ==> !IsOr(ws[i]) && !IsAnd(ws[i])
  }

  /** The words of one condition with `k` question marks before it. */
  function ConditionOf(text: string, k: nat): Condition {
    Paired(Holed(Words(text), k), 0)
  }

  /** One condition: every BETWEEN has its AND, and there is no other AND or OR. */
  predicate Single(text: string) {
    OpenAfter(Holed(Words(text), 0), 0) == 0 && Atomic(ConditionOf(text, 0))
  }

  /** Whether a call adds a condition. */
  predicate Adds(call: Call) {
    match call
    case Where(_) => true
    case OrWhere(_) => true
    case WhereNull(field) => ValidIdentifier(field)
    case WhereNotNull(field) => ValidIdentifier(field)
    case WhereIn(field, vals) => ValidIdentifier(field) && vals != []
    case WhereBetween(field, _, _) => ValidIdentifier(field)
    case _ => false
  }

  /** The condition it adds when `n` parameters are bound. */
  function Added(bt: Backend, n: nat, call: Call): string {
    match call
    case Where(cond) => cond
    case OrWhere(cond) => cond
    case WhereNull(field) => field + " IS NULL"
    case WhereNotNull(field) => field + " IS NOT NULL"
    case WhereIn(field, vals) => (field + " IN (") + (InList(bt, |vals|, n) + ")")
    case WhereBetween(field, _, _) =>
      (field + " BETWEEN ") + (Placeholder(bt, n) + (" AND " + Placeholder(bt, n + 1)))
    case _ => ""
  }

  /** Raw conditions stand by themselves and are single ones, and fields are no keywords. */
  predicate Readable(call: Call) {
    match call
    case Where(cond) => StandsAlone(cond) && Single(cond)
    case OrWhere(cond) => StandsAlone(cond) && Single(cond)
    case WhereNull(field) => ValidIdentifier(field) ==> StandsAlone(field) && Single(field)
    case WhereNotNull(field) => ValidIdentifier(field) ==> StandsAlone(field) && Single(field)
    case WhereIn(field, _) => ValidIdentifier(field) ==> StandsAlone(field) && Single(field)
    case WhereBetween(field, _, _) => ValidIdentifier(field) ==> StandsAlone(field) && Single(field)
    case _ => true
  }

  predicate AllReadable(calls: seq<Call>) {
    forall i :: 0 <= i < |calls| ==> Readable(calls[i])
  }

  /** What the last call adds, if anything. */
  function LastAdded(bt: Backend, calls: seq<Call>): string
    requires calls != []
  {
    var last := |calls| - 1;
    if Adds(calls[last]) then Added(bt, |DoAll(bt, calls[..last]).params|, calls[last]) else ""
  }

  /** How many `?` the chain has. */
  function QuestionsOf(bt: Backend, calls: seq<Call>): nat {
    if calls == [] then 0
    else QuestionsOf(bt, calls[..|calls| - 1]) + QuestionsIn(Words(LastAdded(bt, calls)))
  }

  /** Atomic conditions that must all hold. */
  type AndRun = seq<Condition>

  /** The maximal AND-runs of a chain of calls: an `OrWhere` begins a new one. */
  function Runs(bt: Backend, calls: seq<Call>): (rs: seq<AndRun>)
    ensures forall i :: 0 <= i < |rs| ==> rs[i] != []
  {
    if calls == [] then []
    else
      var front, call := calls[..|calls| - 1], calls[|calls| - 1];
      if !Adds(call) then Runs(bt, front)
      else Grown(Runs(bt, front), call.OrWhere?, ConditionOf(LastAdded(bt, calls), QuestionsOf(bt, front)))
  }

  function Grown(rs: seq<AndRun>, or: bool, ws: Condition): (us: seq<AndRun>)
    requires forall i :: 0 <= i < |rs| ==> rs[i] != []
    ensures us != [] && forall i :: 0 <= i < |us| ==> us[i] != []
  {
    if rs == [] || or then rs + [[ws]] else rs[..|rs| - 1] + [rs[|rs| - 1] + [ws]]
  }

  // ----- The text read back

  lemma {:induction false} ScannedConcat(st: Lex, a: string, b: string)
    ensures Scanned(st, a + b) == Scanned(Scanned(st, a), b)
    decreases a
  {
    if a == "" {
      assert a + b == b;
    } else {
      assert (a + b)[1..] == a[1..] + b;
      ScannedConcat(Advance(st, a[0]), a[1..], b);
    }
  }

  lemma {:induction false} ClosedConcat(a: string, b: string)
    requires Closed(a) && Closed(b)
    ensures Closed(a + b)
  {
    ScannedConcat(OUTSIDE, a, b);
  }

  lemma {:induction false} WordEndJoin(a: string, st: Lex, b: string)
    requires b == "" || b[0] == ' '
    requires Scanned(st, a) == OUTSIDE
    ensures WordEnd(a + b, st) == WordEnd(a, st)
  {
    if a == "" {
      assert a + b == b;
    } else if st != OUTSIDE || a[0] != ' ' {
      assert (a + b)[1..] == a[1..] + b;
      WordEndJoin(a[1..], Advance(st, a[0]), b);
    }
  }

  /** What follows a word is scanned from outside. */
  lemma {:induction false} AfterWord(a: string, st: Lex)
    requires Scanned(st, a) == OUTSIDE
    ensures Closed(a[WordEnd(a, st)..])
  {
    if a == "" {
      assert a[0..] == "";
    } else if st != OUTSIDE || a[0] != ' ' {
      AfterWord(a[1..], Advance(st, a[0]));
      assert a[WordEnd(a, st)..] == a[1..][WordEnd(a[1..], Advance(st, a[0]))..];
    } else {
      assert a[0..] == a;
    }
  }

  lemma {:induction false} ClosedTail(a: string)
    requires a != "" && a[0] == ' ' && Closed(a)
    ensures Closed(a[1..])
  {}

  lemma {:induction false} WholeText(a: string)
    requires Closed(a)
    ensures Scanned(OUTSIDE, a) == OUTSIDE
  {}

  lemma {:induction false} WordsJoin(a: string, b: string)
    requires Closed(a)
    ensures Words(a + (" " + b)) == Words(a) + Words(b)
    decreases |a|
  {
    hide Closed, Scanned, Advance, WordEnd;
    var rest := " " + b;
    if a == "" {
      assert a + rest == rest && rest[1..] == b;
    } else if a[0] == ' ' {
      ClosedTail(a);
      assert (a + rest)[1..] == a[1..] + rest;
      WordsJoin(a[1..], b);
    } else {
      var n := WordEnd(a, OUTSIDE);
      WholeText(a);
      WordEndJoin(a, OUTSIDE, rest);
      AfterWord(a, OUTSIDE);
      assert (a + rest)[..n] == a[..n] && (a + rest)[n..] == a[n..] + rest;
      WordsJoin(a[n..], b);
    }
  }

  lemma {:induction false} NoneOpens(s: string)
    requires forall i :: 0 <= i < |s| ==> !IsQuote(s[i]) && s[i] != '(' && s[i] != ')'
    ensures Closed(s)
  {
    if s != "" {
      NoneOpens(s[1..]);
    }
  }

  lemma {:induction false} NoQuestions(w: string)
    requires forall i :: 0 <= i < |w| ==> w[i] != '?'
    ensures Questions(w) == 0
  {
    if w != "" {
      NoQuestions(w[1..]);
    }
  }

  lemma {:induction false} WholeWord(w: string)
    requires w != "" && forall i :: 0 <= i < |w| ==> w[i] != ' ' && !IsQuote(w[i]) && w[i] != '(' && w[i] != ')'
    ensures Words(w) == [w] && Closed(w)
  {
    WordEndWhole(w);
    NoneOpens(w);
    assert w[..|w|] == w && w[|w|..] == "";
  }

  lemma {:induction false} WordEndWhole(w: string)
    requires forall i :: 0 <= i < |w| ==> w[i] != ' ' && !IsQuote(w[i]) && w[i] != '(' && w[i] != ')'
    ensures WordEnd(w, OUTSIDE) == |w|
  {
    if w != "" {
      WordEndWhole(w[1..]);
    }
  }

  lemma {:induction false} Linked(text: string, link: string, connective: string, cond: string)
    requires Closed(text) && (connective == "AND" || connective == "OR")
    requires link == " " + connective + " "
    ensures Words(text + link + cond) == Words(text) + ([connective] + Words(cond))
    ensures Closed(cond) ==> Closed(text + link + cond)
  {
    SpacedOut(text, link, connective, cond);
    WholeWord(connective);
    WordsJoin(text, connective + (" " + cond));
    WordsJoin(connective, cond);
    if Closed(cond) {
      assert Scanned(OUTSIDE, " ") == OUTSIDE;
      ClosedConcat(" ", cond);
      ClosedConcat(connective, " " + cond);
      ClosedConcat(" ", connective + (" " + cond));
      ClosedConcat(text, " " + (connective + (" " + cond)));
    }
  }

  lemma {:induction false} SpacedOut(text: string, link: string, connective: string, cond: string)
    requires link == " " + connective + " "
    ensures text + link + cond == text + (" " + (connective + (" " + cond)))
  {}

  lemma {:induction false} HoledConcat(a: seq<string>, b: seq<string>, k: nat)
    ensures Holed(a + b, k) == Holed(a, k) + Holed(b, k + QuestionsIn(a))
    ensures QuestionsIn(a + b) == QuestionsIn(a) + QuestionsIn(b)
  {
    hide Questions, Fold;
    if a == [] {
      assert a + b == b;
    } else {
      var first := [Word(Fold(a[0]), if Questions(a[0]) > 0 then k else 0)];
      var rest := Holed(a[1..], k + Questions(a[0]));
      assert Holed(a, k) == first + rest;
      assert (a + b)[0] == a[0] && (a + b)[1..] == a[1..] + b;
      assert Holed(a + b, k) == first + Holed(a[1..] + b, k + Questions(a[0]));
      HoledConcat(a[1..], b, k + Questions(a[0]));
      hide Holed, Questions, Fold;
      Associate(first, rest, Holed(b, k + Questions(a[0]) + QuestionsIn(a[1..])));
    }
  }

  lemma {:induction false} HoledLink(a: seq<string>, connective: string, b: seq<string>)
    requires connective == "AND" || connective == "OR"
    ensures Holed(a + ([connective] + b), 0)
            == Holed(a, 0) + ([Word(connective, 0)] + Holed(b, QuestionsIn(a)))
    ensures QuestionsIn(a + ([connective] + b)) == QuestionsIn(a) + QuestionsIn(b)
  {
    PlainWord(connective);
    HoledConcat([connective], b, QuestionsIn(a));
    HoledConcat(a, [connective] + b, 0);
  }

  /** A keyword in upper case, with no number. */
  lemma {:induction false} PlainWord(w: string)
    requires w in ["AND", "OR", "IS", "NULL", "BETWEEN"]
    ensures Fold(w) == w && Questions(w) == 0 && QuestionsIn([w]) == 0
    ensures forall k: nat :: Holed([w], k) == [Word(w, 0)]
  {
    assert Raised(w) == w;
    NoQuestions(w);
    assert QuestionsIn([]) == 0;
    forall k: nat ensures Holed([w], k) == [Word(w, 0)] {
      assert Holed([], k) == [];
    }
  }

  // ----- Pairing

  lemma {:induction false} PairedConcat(a: seq<Word>, b: seq<Word>, open: nat)
    ensures Paired(a + b, open) == Paired(a, open) + Paired(b, OpenAfter(a, open))
    ensures OpenAfter(a + b, open) == OpenAfter(b, OpenAfter(a, open))
  {
    hide Opened;
    if a == [] {
      assert a + b == b;
    } else {
      assert (a + b)[1..] == a[1..] + b;
      PairedConcat(a[1..], b, Opened(a[0], open));
    }
  }

  /** The same words with other numbers. */
  predicate Alike(a: seq<Word>, b: seq<Word>) {
    |a| == |b| && forall i :: 0 <= i < |a| ==> a[i].text == b[i].text
  }

  lemma {:induction false} HoledAlike(ws: seq<string>, j: nat, k: nat)
    ensures Alike(Holed(ws, j), Holed(ws, k))
  {
    if ws != [] {
      HoledAlike(ws[1..], j + Questions(ws[0]), k + Questions(ws[0]));
    }
  }

  lemma {:induction false} PairedAlike(a: seq<Word>, b: seq<Word>, open: nat)
    requires Alike(a, b)
    ensures Alike(Paired(a, open), Paired(b, open)) && OpenAfter(a, open) == OpenAfter(b, open)
  {
    if a != [] {
      PairedAlike(a[1..], b[1..], Opened(a[0], open));
    }
  }

  /** Numbers do not make connectives. */
  lemma {:induction false} SingleAnywhere(text: string, k: nat)
    requires Single(text)
    ensures OpenAfter(Holed(Words(text), k), 0) == 0 && Atomic(ConditionOf(text, k))
  {
    HoledAlike(Words(text), 0, k);
    PairedAlike(Holed(Words(text), 0), Holed(Words(text), k), 0);
    hide Holed, Words, Paired;
    var us, vs := ConditionOf(text, 0), ConditionOf(text, k);
    forall i | 0 <= i < |vs| ensures !IsOr(vs[i]) && !IsAnd(vs[i]) {
      assert us[i].text == vs[i].text;
    }
  }

  // ----- The conditions of the helpers

  /** No connective and no BETWEEN. */
  predicate Ordinary(w: string) {
    Fold(w) != "AND" && Fold(w) != "OR" && Fold(w) != "BETWEEN"
  }

  lemma {:induction false} FirstChar(w: string)
    requires w != "" && Upper(w[0]) !in "ABO"
    ensures Ordinary(w)
  {
    assert Fold(w)[0] == Upper(w[0]) || Fold(w)[0] == w[0];
  }

  predicate AllOrdinary(ws: seq<string>) {
    forall i :: 0 <= i < |ws| ==> Ordinary(ws[i])
  }

  lemma {:induction false} OrdinaryMore(w: string, ws: seq<string>)
    requires Ordinary(w) && AllOrdinary(ws)
    ensures AllOrdinary([w] + ws) && AllOrdinary([w])
  {
    hide Ordinary;
  }

  lemma {:induction false} OrdinaryWords(ws: seq<string>, k: nat, open: nat)
    requires AllOrdinary(ws)
    ensures var us := Holed(ws, k);
            && Paired(us, open) == us && OpenAfter(us, open) == open
            && forall i :: 0 <= i < |us| ==> !IsOr(us[i]) && !IsAnd(us[i])
  {
    hide Fold, Questions;
    if ws != [] {
      OrdinaryWords(ws[1..], k + Questions(ws[0]), open);
    }
  }

  lemma {:induction false} OneWord(w: Word)
    ensures Paired([w], 0) == [w] && OpenAfter([w], 0) == Opened(w, 0)
  {
    assert [w][1..] == [];
  }

  lemma {:induction false} FieldOrdinary(field: string)
    requires ValidIdentifier(field) && Single(field)
    ensures Ordinary(field)
  {
    WholeWord(field);
    hide Words, Fold;
    var ws := Holed([field], 0);
    assert ws == [ws[0]] && ws[0].text == Fold(field);
    OneWord(ws[0]);
    assert ConditionOf(field, 0) == ws;
  }

  /** Words of which none is special make one condition. */
  lemma {:induction false} OrdinarySingle(text: string, ws: seq<string>)
    requires Words(text) == ws && ws != [] && AllOrdinary(ws)
    ensures Single(text)
  {
    OrdinaryWords(ws, 0, 0);
  }

  lemma {:induction false} NullSingle(field: string)
    requires ValidIdentifier(field) && Ordinary(field)
    ensures Single(field + " IS NULL") && Closed(field + " IS NULL")
    ensures Single(field + " IS NOT NULL") && Closed(field + " IS NOT NULL")
  {
    FirstChar("IS");
    FirstChar("NOT");
    FirstChar("NULL");
    hide Words, Closed, Ordinary, Single, AllOrdinary;
    NullWords();
    FieldThen(field, "IS NULL");
    FieldThen(field, "IS NOT NULL");
    OrdinaryNone();
    OrdinaryMore("NULL", []);
    OrdinaryMore("IS", ["NULL"]);
    OrdinaryMore("NOT", ["NULL"]);
    OrdinaryMore("IS", ["NOT"] + ["NULL"]);
    OrdinaryMore(field, ["IS"] + ["NULL"]);
    OrdinaryMore(field, ["IS"] + (["NOT"] + ["NULL"]));
    NullText(field);
    OrdinarySingle(field + " IS NULL", [field] + (["IS"] + ["NULL"]));
    OrdinarySingle(field + " IS NOT NULL", [field] + (["IS"] + (["NOT"] + ["NULL"])));
  }

  lemma {:induction false} OrdinaryNone()
    ensures AllOrdinary([])
  {}

  lemma {:induction false} NullText(field: string)
    ensures field + " IS NULL" == field + (" " + "IS NULL")
    ensures field + " IS NOT NULL" == field + (" " + "IS NOT NULL")
  {}

  lemma {:induction false} NullWords()
    ensures Words("IS NULL") == ["IS"] + ["NULL"] && Closed("IS NULL")
    ensures Words("IS NOT NULL") == ["IS"] + (["NOT"] + ["NULL"]) && Closed("IS NOT NULL")
  {
    hide Words, Closed;
    WholeWord("IS");
    WholeWord("NOT");
    WholeWord("NULL");
    hide Words, Closed;
    assert "NOT NULL" == "NOT" + (" " + "NULL") && "IS NULL" == "IS" + (" " + "NULL");
    assert "IS NOT NULL" == "IS" + (" " + "NOT NULL");
    WordThen("NOT", "NULL");
    WordThen("IS", "NULL");
    WordThen("IS", "NOT NULL");
  }

  /** A word, a space and a closed text. */
  lemma {:induction false} WordThen(w: string, rest: string)
    requires Words(w) == [w] && Closed(w) && Closed(rest)
    ensures Words(w + (" " + rest)) == [w] + Words(rest) && Closed(w + (" " + rest))
  {
    WordsJoin(w, rest);
    assert Scanned(OUTSIDE, " ") == OUTSIDE;
    hide Words;
    ClosedConcat(" ", rest);
    ClosedConcat(w, " " + rest);
  }

  lemma {:induction false} FieldThen(field: string, rest: string)
    requires ValidIdentifier(field) && Closed(rest)
    ensures Words(field + (" " + rest)) == [field] + Words(rest) && Closed(field + (" " + rest))
  {
    WholeWord(field);
    WordThen(field, rest);
  }

  predicate Inert(s: string) {
    forall i :: 0 <= i < |s| ==> !IsQuote(s[i]) && s[i] != '(' && s[i] != ')'
  }

  /** What is in parentheses is one word. */
  lemma {:induction false} Inside(s: string)
    requires Inert(s)
    ensures WordEnd(s + ")", Lex(1, None)) == |s| + 1 && Scanned(Lex(1, None), s + ")") == OUTSIDE
  {
    if s != "" {
      assert (s + ")")[1..] == s[1..] + ")";
      Inside(s[1..]);
    } else {
      assert (s + ")")[1..] == "";
    }
  }

  lemma {:induction false} Parenthesised(s: string)
    requires Inert(s)
    ensures var w := "(" + (s + ")"); Words(w) == [w] && Closed(w)
  {
    var w := "(" + (s + ")");
    Inside(s);
    assert w[1..] == s + ")";
    assert w[..|w|] == w && w[|w|..] == "";
  }

  lemma {:induction false} PlaceholderInert(bt: Backend, i: nat)
    ensures var p := Placeholder(bt, i); Inert(p) && Words(p) == [p] && Closed(p) && Ordinary(p)
  {
    var p := Placeholder(bt, i);
    assert p[0] == '?' || p[0] == '$';
    WholeWord(p);
    FirstChar(p);
  }

  lemma {:induction false} ListInert(bt: Backend, n: nat, start: nat)
    ensures Inert(InList(bt, n, start))
  {
    if n == 0 {
      NothingListed(bt, start);
    } else {
      var m := n - 1;
      hide Numbered, Placeholder, Inert;
      ListInert(bt, m, start);
      UnitsStep(m);
      HoleStep(bt, Units(m), (), start);
      PlaceholderInert(bt, start + m);
      CommaInert(m);
      InertConcat(Comma(m), Placeholder(bt, start + m));
      InertConcat(InList(bt, m, start), Comma(m) + Placeholder(bt, start + m));
    }
  }

  lemma {:induction false} NothingListed(bt: Backend, start: nat)
    ensures InList(bt, 0, start) == ""
  {}

  lemma {:induction false} UnitsStep(m: nat)
    ensures Units(m + 1) == Units(m) + [()]
  {}

  lemma {:induction false} InertConcat(a: string, b: string)
    requires Inert(a) && Inert(b)
    ensures Inert(a + b)
  {}

  lemma {:induction false} CommaInert(k: nat)
    ensures Inert(Comma(k))
  {}

  lemma {:induction false} InSingle(field: string, list: string)
    requires ValidIdentifier(field) && Ordinary(field) && Inert(list)
    ensures var text := (field + " IN (") + (list + ")"); Single(text) && Closed(text)
  {
    var w := "(" + (list + ")");
    Parenthesised(list);
    WholeWord("IN");
    FirstChar("IN");
    FirstChar(w);
    hide Words, Closed, Ordinary, Single, AllOrdinary;
    OrdinaryNone();
    OrdinaryMore(w, []);
    OrdinaryMore("IN", [w]);
    OrdinaryMore(field, ["IN"] + [w]);
    WordThen("IN", w);
    FieldThen(field, "IN" + (" " + w));
    InText(field, list);
    OrdinarySingle(field + (" " + ("IN" + (" " + w))), [field] + (["IN"] + [w]));
  }

  lemma {:induction false} InText(field: string, list: string)
    ensures (field + " IN (") + (list + ")") == field + (" " + ("IN" + (" " + ("(" + (list + ")")))))
  {}

  lemma {:induction false} BetweenSingle(field: string, a: string, b: string)
    requires ValidIdentifier(field) && Ordinary(field)
    requires Words(a) == [a] && Closed(a) && Ordinary(a) && Words(b) == [b] && Closed(b) && Ordinary(b)
    ensures var text := (field + " BETWEEN ") + (a + (" AND " + b)); Single(text) && Closed(text)
  {
    hide Words, Closed, Ordinary, Single, Scanned;
    WholeWord("BETWEEN");
    WholeWord("AND");
    WordThen("AND", b);
    WordThen(a, "AND" + (" " + b));
    WordThen("BETWEEN", a + (" " + ("AND" + (" " + b))));
    FieldThen(field, "BETWEEN" + (" " + (a + (" " + ("AND" + (" " + b))))));
    BetweenText(field, a, b);
    BetweenPaired(field, a, b);
  }

  lemma {:induction false} BetweenText(field: string, a: string, b: string)
    ensures (field + " BETWEEN ") + (a + (" AND " + b))
            == field + (" " + ("BETWEEN" + (" " + (a + (" " + ("AND" + (" " + b)))))))
  {}

  /** The AND of a BETWEEN is none of the chain. */
  lemma {:induction false} BetweenPaired(field: string, a: string, b: string)
    requires Ordinary(field) && Ordinary(a) && Ordinary(b)
    requires var text := field + (" " + ("BETWEEN" + (" " + (a + (" " + ("AND" + (" " + b)))))));
             Words(text) == [field] + (["BETWEEN"] + ([a] + (["AND"] + [b])))
    ensures Single(field + (" " + ("BETWEEN" + (" " + (a + (" " + ("AND" + (" " + b))))))))
  {
    hide Words, Fold, Questions, Holed, Paired, OpenAfter;
    var ws := [field] + (["BETWEEN"] + ([a] + (["AND"] + [b])));
    HoledBetween(field, a, b);
    var us := Holed(ws, 0);
    PairedBetween(us);
  }

  lemma {:induction false} HoledBetween(field: string, a: string, b: string)
    ensures var us := Holed([field] + (["BETWEEN"] + ([a] + (["AND"] + [b]))), 0);
            && |us| == 5 && us[0].text == Fold(field) && us[1].text == "BETWEEN" && us[2].text == Fold(a)
            && us[3].text == "AND" && us[4].text == Fold(b)
  {
    PlainWord("BETWEEN");
    PlainWord("AND");
    hide Fold, Holed;
    HoledTexts([field] + (["BETWEEN"] + ([a] + (["AND"] + [b]))), 0);
  }

  lemma {:induction false} HoledTexts(ws: seq<string>, k: nat)
    ensures |Holed(ws, k)| == |ws|
    ensures forall i :: 0 <= i < |ws| ==> Holed(ws, k)[i].text == Fold(ws[i])
    ensures forall i :: 0 <= i < |ws| && Questions(ws[i]) == 0 ==> Holed(ws, k)[i] == Word(Fold(ws[i]), 0)
  {
    hide Fold, Questions;
    if ws != [] {
      HoledTexts(ws[1..], k + Questions(ws[0]));
    }
  }

  lemma {:induction false} PairedBetween(us: seq<Word>)
    requires |us| == 5 && IsBetween(us[1]) && IsAnd(us[3])
    requires forall i :: 0 <= i < 5 && i != 3 ==> !IsAnd(us[i]) && !IsOr(us[i])
    requires forall i :: 0 <= i < 5 && i != 1 ==> !IsBetween(us[i])
    ensures OpenAfter(us, 0) == 0 && Atomic(Paired(us, 0))
  {
    var v, w, x, y := us[1..], us[2..], us[3..], us[4..];
    assert v[1..] == w && w[1..] == x && x[1..] == y && y[1..] == [];
    PairedStep(us, 0);
    PairedStep(v, 0);
    PairedStep(w, 1);
    PairedStep(x, 1);
    PairedStep(y, 0);
  }

  lemma {:induction false} PairedStep(us: seq<Word>, open: nat)
    requires us != []
    ensures Paired(us, open)[0] == if IsAnd(us[0]) && open > 0 then us[0].(text := "and") else us[0]
    ensures Paired(us, open)[1..] == Paired(us[1..], Opened(us[0], open))
    ensures OpenAfter(us, open) == OpenAfter(us[1..], Opened(us[0], open))
  {}

  /** Every call that adds a condition adds a single one. */
  lemma {:induction false} AddedSingle(bt: Backend, n: nat, call: Call)
    requires Readable(call) && Adds(call)
    ensures Single(Added(bt, n, call)) && Closed(Added(bt, n, call))
  {
    hide Words, Scanned, Paired, Holed, InList, Placeholder, Foreign, Keyword, Ordinary, Single;
    match call
    case Where(_) =>
    case OrWhere(_) =>
    case WhereNull(field) => FieldOrdinary(field); NullSingle(field);
    case WhereNotNull(field) => FieldOrdinary(field); NullSingle(field);
    case WhereIn(field, vals) =>
      FieldOrdinary(field);
      ListInert(bt, |vals|, n);
      InSingle(field, InList(bt, |vals|, n));
    case WhereBetween(field, _, _) =>
      FieldOrdinary(field);
      PlaceholderInert(bt, n);
      PlaceholderInert(bt, n + 1);
      BetweenSingle(field, Placeholder(bt, n), Placeholder(bt, n + 1));
  }

  // ----- Parsing what was joined

  lemma {:induction false} AfterConnective(ws: seq<Word>, connective: Word, cs: Condition)
    requires connective == AND || connective == OR
    requires forall i :: 0 <= i < |cs| ==> !IsOr(cs[i]) && !IsAnd(cs[i])
    ensures var all := ws + ([connective] + cs);
            if connective == AND then AfterAnd(all) == |ws| + 1 && AfterOr(all) == AfterOr(ws)
            else AfterOr(all) == |ws| + 1
    decreases |cs|
  {
    var all := ws + ([connective] + cs);
    if cs != [] {
      var front := cs[..|cs| - 1];
      AfterConnective(ws, connective, front);
      assert all[..|all| - 1] == ws + ([connective] + front);
      assert all[|all| - 1] == cs[|cs| - 1];
    } else {
      assert all[..|ws|] == ws && all[|ws|] == connective;
      ConnectiveWords();
    }
  }

  lemma {:induction false} ConnectiveWords()
    ensures IsAnd(AND) && !IsOr(AND) && IsOr(OR)
  {}

  lemma {:induction false} AtomicHasNone(cs: Condition)
    requires forall i :: 0 <= i < |cs| ==> !IsOr(cs[i]) && !IsAnd(cs[i])
    ensures AfterAnd(cs) == 0 && AfterOr(cs) == 0
  {
    if cs != [] {
      AtomicHasNone(cs[..|cs| - 1]);
    }
  }

  /** Adds a factor to the last boolean term. */
  function AddFactor(f: Formula, a: Formula): Formula {
    if f.Disj? then Disj(f.l, Conj(f.r, a)) else Conj(f, a)
  }

  lemma {:induction false} ParseAnd(ws: Condition, cs: Condition)
    requires Atomic(cs)
    ensures Parse(ws + ([AND] + cs)) == AddFactor(Parse(ws), Atom(cs))
  {
    var all := ws + ([AND] + cs);
    var k := AfterOr(ws);
    AfterConnective(ws, AND, cs);
    if k == 0 {
      TermAnd(ws, cs);
      assert !Parse(ws).Disj?;
    } else {
      assert all[..k - 1] == ws[..k - 1] && all[k..] == ws[k..] + ([AND] + cs);
      TermAnd(ws[k..], cs);
    }
  }

  lemma {:induction false} TermAnd(ws: Condition, cs: Condition)
    requires Atomic(cs)
    ensures ParseTerm(ws + ([AND] + cs)) == Conj(ParseTerm(ws), Atom(cs))
  {
    var all := ws + ([AND] + cs);
    AfterConnective(ws, AND, cs);
    assert all[..|ws|] == ws && all[|ws| + 1..] == cs;
  }

  lemma {:induction false} ParseOr(ws: Condition, cs: Condition)
    requires Atomic(cs)
    ensures Parse(ws + ([OR] + cs)) == Disj(Parse(ws), Atom(cs))
  {
    var all := ws + ([OR] + cs);
    AfterConnective(ws, OR, cs);
    AtomicHasNone(cs);
    assert all[..|ws|] == ws && all[|ws| + 1..] == cs;
  }

  /** The disjunction of the conjunctions of the runs. */
  function Conjunction(run: AndRun): Formula
    requires run != []
  {
    if |run| == 1 then Atom(run[0]) else Conj(Conjunction(run[..|run| - 1]), Atom(run[|run| - 1]))
  }

  function Disjunction(rs: seq<AndRun>): Formula
    requires rs != [] && forall i :: 0 <= i < |rs| ==> rs[i] != []
  {
    if |rs| == 1 then Conjunction(rs[0]) else Disj(Disjunction(rs[..|rs| - 1]), Conjunction(rs[|rs| - 1]))
  }

  lemma {:induction false} DisjunctionGrows(rs: seq<AndRun>, ws: Condition)
    requires rs != [] && forall i :: 0 <= i < |rs| ==> rs[i] != []
    ensures Disjunction(rs[..|rs| - 1] + [rs[|rs| - 1] + [ws]]) == AddFactor(Disjunction(rs), Atom(ws))
    ensures Disjunction(rs + [[ws]]) == Disj(Disjunction(rs), Atom(ws))
  {
    var last := rs[|rs| - 1];
    var run := last + [ws];
    assert run[..|run| - 1] == last;
    var us := rs[..|rs| - 1] + [run];
    assert us[..|us| - 1] == rs[..|rs| - 1] && us[|us| - 1] == run;
    assert (rs + [[ws]])[..|rs|] == rs;
    assert !Conjunction(last).Disj?;
  }

  /** The text reads as the disjunction of the runs. */
  predicate ReadsAs(where: string, rs: seq<AndRun>, questions: nat)
    requires forall i :: 0 <= i < |rs| ==> rs[i] != []
  {
    && (where == "" <==> rs == []) && (where != "" ==> Reading(where) == Disjunction(rs))
    && Closed(where) && QuestionsIn(Words(where)) == questions && OpenAfter(Holed(Words(where), 0), 0) == 0
  }

  /** The text that a chain of calls builds reads as the disjunction of its maximal AND-runs. */
  lemma {:induction false} ChainReads(bt: Backend, calls: seq<Call>)
    requires AllReadable(calls)
    ensures ReadsAs(DoAll(bt, calls).where, Runs(bt, calls), QuestionsOf(bt, calls))
  {
    hide ReadsAs, Readable, Words, QuestionsIn, ConditionOf, Do, Added, Adds, Single, Grown, Closed, Holed;
    if calls == [] {
      NothingReads();
    } else {
      var front, call := calls[..|calls| - 1], calls[|calls| - 1];
      ChainReads(bt, front);
      assert Readable(call);
      CallWhere(bt, DoAll(bt, front), call);
      if Adds(call) {
        AddedSingle(bt, |DoAll(bt, front).params|, call);
        LinkReads(DoAll(bt, front).where, LastAdded(bt, calls), Runs(bt, front), QuestionsOf(bt, front), call.OrWhere?);
      } else {
        NoWords();
      }
    }
  }

  lemma {:induction false} NothingReads()
    ensures ReadsAs("", [], 0)
  {}

  lemma {:induction false} NoWords()
    ensures QuestionsIn(Words("")) == 0
  {}

  /** What a call does to the WHERE text. */
  lemma {:induction false} CallWhere(bt: Backend, b: Buffers, call: Call)
    ensures Do(bt, b, call).where
            == if !Adds(call) then b.where
               else Continued(b.where, if call.OrWhere? then " OR " else " AND ") + Added(bt, |b.params|, call)
  {
    hide InList, Placeholder, Quoted;
  }

  lemma {:induction false} SingleNotEmpty(cond: string)
    requires Single(cond)
    ensures cond != ""
  {}

  lemma {:induction false} OneCondition(ws: Condition)
    ensures Disjunction([[ws]]) == Atom(ws)
  {}

  lemma {:induction false} LinkReads(text: string, cond: string, rs: seq<AndRun>, questions: nat, or: bool)
    requires (forall i :: 0 <= i < |rs| ==> rs[i] != []) && ReadsAs(text, rs, questions)
    requires Single(cond) && Closed(cond)
    ensures ReadsAs(Continued(text, if or then " OR " else " AND ") + cond, Grown(rs, or, ConditionOf(cond, questions)),
                    questions + QuestionsIn(Words(cond)))
  {
    hide ReadsAs, Single, Closed, ConditionOf, Holed, Words, QuestionsIn;
    SingleNotEmpty(cond);
    SingleAnywhere(cond, questions);
    if text == "" {
      NothingRead(rs, questions);
      FirstReads(cond);
    } else {
      MoreReads(text, cond, rs, questions, if or then "OR" else "AND");
      LinkText(if or then "OR" else "AND");
    }
  }

  lemma {:induction false} LinkText(connective: string)
    ensures " " + connective + " " == if connective == "OR" then " OR "
                                      else if connective == "AND" then " AND "
                                      else " " + connective + " "
  {}

  lemma {:induction false} NothingRead(rs: seq<AndRun>, questions: nat)
    requires (forall i :: 0 <= i < |rs| ==> rs[i] != []) && ReadsAs("", rs, questions)
    ensures rs == [] && questions == 0
  {}

  lemma {:induction false} FirstReads(cond: string)
    requires Single(cond) && Closed(cond) && cond != ""
    ensures ReadsAs("" + cond, Grown([], false, ConditionOf(cond, 0)), QuestionsIn(Words(cond)))
    ensures ReadsAs("" + cond, Grown([], true, ConditionOf(cond, 0)), QuestionsIn(Words(cond)))
  {
    hide Words, Holed, Paired, OpenAfter, Closed, QuestionsIn, Disjunction;
    assert "" + cond == cond;
    AtomicReads(ConditionOf(cond, 0));
    OneCondition(ConditionOf(cond, 0));
    assert [] + [[ConditionOf(cond, 0)]] == [[ConditionOf(cond, 0)]];
  }

  lemma {:induction false} MoreReads(text: string, cond: string, rs: seq<AndRun>, questions: nat, connective: string)
    requires (connective == "AND" || connective == "OR") && text != "" && cond != ""
    requires (forall i :: 0 <= i < |rs| ==> rs[i] != []) && ReadsAs(text, rs, questions)
    requires OpenAfter(Holed(Words(cond), questions), 0) == 0 && Atomic(ConditionOf(cond, questions)) && Closed(cond)
    ensures ReadsAs(text + (" " + connective + " ") + cond,
                    Grown(rs, connective == "OR", ConditionOf(cond, questions)),
                    questions + QuestionsIn(Words(cond)))
  {
    hide Words, Holed, Paired, OpenAfter, Closed, QuestionsIn, Parse, Disjunction;
    var ws := ConditionOf(cond, questions);
    var all := text + (" " + connective + " ") + cond;
    Linked(text, " " + connective + " ", connective, cond);
    HoledLink(Words(text), connective, Words(cond));
    PairedLink(Holed(Words(text), 0), connective, Holed(Words(cond), questions));
    DisjunctionGrows(rs, ws);
    if connective == "OR" {
      ParseOr(ConditionOf(text, 0), ws);
    } else {
      ParseAnd(ConditionOf(text, 0), ws);
    }
  }

  lemma {:induction false} PairedLink(a: seq<Word>, connective: string, b: seq<Word>)
    requires (connective == "AND" || connective == "OR") && OpenAfter(a, 0) == 0
    ensures var all := a + ([Word(connective, 0)] + b);
            && Paired(all, 0) == Paired(a, 0) + ([Word(connective, 0)] + Paired(b, 0))
            && OpenAfter(all, 0) == OpenAfter(b, 0)
  {
    PairedConcat([Word(connective, 0)], b, 0);
    PairedConcat(a, [Word(connective, 0)] + b, 0);
    assert Paired([Word(connective, 0)], 0) == [Word(connective, 0)];
  }

  lemma {:induction false} AtomicReads(ws: Condition)
    requires Atomic(ws)
    ensures Parse(ws) == Atom(ws)
  {
    AtomicHasNone(ws);
  }

  // ----- Which rows are selected

  predicate AllTrue(run: AndRun, row: Condition -> Truth) {
    forall i :: 0 <= i < |run| ==> Holds(row, run[i])
  }

  predicate Holds(row: Condition -> Truth, ws: Condition) {
    row(ws).True?
  }

  lemma {:induction false} EvalConjunction(run: AndRun, row: Condition -> Truth)
    requires run != []
    ensures Eval(Conjunction(run), row).True? <==> AllTrue(run, row)
  {
    if |run| > 1 {
      var front := run[..|run| - 1];
      EvalConjunction(front, row);
      assert AllTrue(run, row) <==> AllTrue(front, row) && Holds(row, run[|run| - 1]) by {
        assert forall i :: 0 <= i < |front| ==> front[i] == run[i];
      }
    }
  }

  lemma {:induction false} EvalDisjunction(rs: seq<AndRun>, row: Condition -> Truth)
    requires rs != [] && forall i :: 0 <= i < |rs| ==> rs[i] != []
    ensures Eval(Disjunction(rs), row).True? <==> exists i :: 0 <= i < |rs| && AllTrue(rs[i], row)
  {
    var last := |rs| - 1;
    EvalConjunction(rs[last], row);
    if |rs| > 1 {
      var front := rs[..last];
      EvalDisjunction(front, row);
      assert forall i :: 0 <= i < last ==> front[i] == rs[i];
    }
  }

  /** A row is selected when all conditions of some AND-run hold for it, or when there is no condition. */
  lemma {:induction false} SelectsByRuns(bt: Backend, calls: seq<Call>, row: Condition -> Truth)
    requires AllReadable(calls)
    ensures Selects(DoAll(bt, calls).where, row)
            <==> Runs(bt, calls) == [] || exists i :: 0 <= i < |Runs(bt, calls)| && AllTrue(Runs(bt, calls)[i], row)
  {
    ChainReads(bt, calls);
    if Runs(bt, calls) != [] {
      EvalDisjunction(Runs(bt, calls), row);
    }
  }
}
