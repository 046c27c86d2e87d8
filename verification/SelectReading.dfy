/**
 A SELECT read back: its words outside parentheses and quotes, cut at the keywords that begin a clause. Which
 clauses the database finds, and which page of the rows.
*/
module SelectReading {
  import opened Common
  import opened SqlText
  import opened Builder
  import opened Dialects
  import opened Identifiers
  import opened Conditions

  // ----- Clauses

  /** The keywords that begin a clause of a SELECT. */
  const CLAUSES := ["FROM", "WHERE", "GROUP", "HAVING", "ORDER", "LIMIT", "OFFSET"]

  predicate BeginsClause(w: string) {
    Fold(w) in CLAUSES
  }

  /** The words up to the next clause. */
  function UpToClause(ws: seq<string>): seq<string> {
    if ws == [] || BeginsClause(ws[0]) then [] else [ws[0]] + UpToClause(ws[1..])
  }

  /** The words of the clause that begins with the keyword, if there is one. */
  function Section(ws: seq<string>, keyword: string): Option<seq<string>> {
    if ws == [] then None
    else if Fold(ws[0]) == keyword then Some(UpToClause(ws[1..]))
    else Section(ws[1..], keyword)
  }

  /** A text that stays within its clause. */
  predicate WithinClause(s: string) {
    Closed(s) && forall i :: 0 <= i < |Words(s)| ==> !BeginsClause(Words(s)[i])
  }

  // ----- Words

  /** The texts with a space before each. */
  function Spaced(ts: seq<string>): string {
    if ts == [] then "" else " " + ts[0] + Spaced(ts[1..])
  }

  function AllWords(ts: seq<string>): seq<string> {
    if ts == [] then [] else Words(ts[0]) + AllWords(ts[1..])
  }

  predicate AllClosed(ts: seq<string>) {
    forall i :: 0 <= i < |ts| ==> Closed(ts[i])
  }

  lemma {:induction false} SpacedConcat(a: seq<string>, b: seq<string>)
    ensures Spaced(a + b) == Spaced(a) + Spaced(b)
  {
    if a == [] {
      assert a + b == b;
    } else {
      assert (a + b)[1..] == a[1..] + b;
      SpacedConcat(a[1..], b);
      Associate(" " + a[0], Spaced(a[1..]), Spaced(b));
    }
  }

  lemma {:induction false} AllWordsConcat(a: seq<string>, b: seq<string>)
    ensures AllWords(a + b) == AllWords(a) + AllWords(b)
  {
    hide Words;
    if a == [] {
      assert a + b == b;
    } else {
      assert (a + b)[1..] == a[1..] + b;
      AllWordsConcat(a[1..], b);
      Associate(Words(a[0]), AllWords(a[1..]), AllWords(b));
    }
  }

  lemma {:induction false} WordsOfSpaced(first: string, ts: seq<string>)
    requires Closed(first) && AllClosed(ts)
    ensures Words(first + Spaced(ts)) == Words(first) + AllWords(ts)
    decreases |ts|
  {
    hide Words, Closed;
    if ts == [] {
      assert first + "" == first && Words(first) + [] == Words(first);
    } else {
      assert Closed(ts[0]);
      WordsOfSpaced(ts[0], ts[1..]);
      assert first + Spaced(ts) == first + (" " + (ts[0] + Spaced(ts[1..])));
      WordsJoin(first, ts[0] + Spaced(ts[1..]));
    }
  }

  // ----- Clauses of a statement

  datatype Clause = Clause(keyword: string, words: seq<string>)

  predicate Orderly(c: Clause) {
    && Fold(c.keyword) == c.keyword && BeginsClause(c.keyword)
    && forall i :: 0 <= i < |c.words| ==> !BeginsClause(c.words[i])
  }

  predicate AllOrderly(cs: seq<Clause>) {
    forall i :: 0 <= i < |cs| ==> Orderly(cs[i])
  }

  function Flat(cs: seq<Clause>): seq<string> {
    if cs == [] then [] else ([cs[0].keyword] + cs[0].words) + Flat(cs[1..])
  }

  /** The words of the clause with the keyword. */
  function Present(cs: seq<Clause>, keyword: string): Option<seq<string>> {
    if cs == [] then None
    else if cs[0].keyword == keyword then Some(cs[0].words)
    else Present(cs[1..], keyword)
  }

  lemma {:induction false} UpToEnds(ws: seq<string>, rest: seq<string>)
    requires (forall i :: 0 <= i < |ws| ==> !BeginsClause(ws[i])) && (rest != [] ==> BeginsClause(rest[0]))
    ensures UpToClause(ws + rest) == ws
  {
    hide BeginsClause;
    if ws == [] {
      assert ws + rest == rest;
    } else {
      UpToEnds(ws[1..], rest);
      assert (ws + rest)[1..] == ws[1..] + rest;
    }
  }

  lemma {:induction false} SectionSkips(ws: seq<string>, rest: seq<string>, keyword: string)
    requires (forall i :: 0 <= i < |ws| ==> !BeginsClause(ws[i])) && BeginsClause(keyword) && Fold(keyword) == keyword
    ensures Section(ws + rest, keyword) == Section(rest, keyword)
  {
    hide BeginsClause, Fold;
    if ws == [] {
      assert ws + rest == rest;
    } else {
      SectionSkips(ws[1..], rest, keyword);
      assert (ws + rest)[1..] == ws[1..] + rest;
      OtherWord(ws[0], keyword);
    }
  }

  lemma {:induction false} OtherWord(w: string, keyword: string)
    requires !BeginsClause(w) && BeginsClause(keyword) && Fold(keyword) == keyword
    ensures Fold(w) != keyword
  {}

  lemma {:induction false} FlatBegins(cs: seq<Clause>)
    requires AllOrderly(cs)
    ensures Flat(cs) != [] ==> BeginsClause(Flat(cs)[0])
  {
    hide BeginsClause, Fold;
  }

  /** The section is the words of the clause. */
  lemma {:induction false} SectionOf(cs: seq<Clause>, keyword: string)
    requires AllOrderly(cs) && BeginsClause(keyword) && Fold(keyword) == keyword
    ensures Section(Flat(cs), keyword) == Present(cs, keyword)
  {
    hide BeginsClause, Fold;
    if cs != [] {
      var c, rest := cs[0], Flat(cs[1..]);
      SectionOf(cs[1..], keyword);
      FlatBegins(cs[1..]);
      Associate([c.keyword], c.words, rest);
      assert Flat(cs) == [c.keyword] + (c.words + rest) && Flat(cs)[1..] == c.words + rest;
      if c.keyword == keyword {
        UpToEnds(c.words, rest);
      } else {
        SectionSkips(c.words, rest, keyword);
      }
    }
  }

  lemma {:induction false} FlatConcat(a: seq<Clause>, b: seq<Clause>)
    ensures Flat(a + b) == Flat(a) + Flat(b)
  {
    if a == [] {
      assert a + b == b;
    } else {
      assert (a + b)[1..] == a[1..] + b;
      FlatConcat(a[1..], b);
    }
  }

  lemma {:induction false} PresentConcat(a: seq<Clause>, b: seq<Clause>, keyword: string)
    ensures Present(a + b, keyword) == if Present(a, keyword).Some? then Present(a, keyword) else Present(b, keyword)
  {
    if a == [] {
      assert a + b == b;
    } else {
      assert (a + b)[1..] == a[1..] + b;
      PresentConcat(a[1..], b, keyword);
    }
  }

  // ----- The text of a SELECT

  /** The WHERE text as it is written in the dialect. */
  function WhereOf(bt: Backend, q: Clauses): string {
    Numbered(bt, Scan(q.where), 0)
  }

  function Columns(q: Clauses): string {
    if q.selectCols == "" then "*" else q.selectCols
  }

  function HeadTexts(q: Clauses): seq<string> {
    (if q.distinct then ["DISTINCT"] else []) + [Columns(q)]
  }

  /** A clause of its keywords and a text. */
  function ClauseTexts(keywords: seq<string>, clause: string): seq<string> {
    if clause == "" then [] else keywords + [clause]
  }

  function LimitTexts(q: Clauses): seq<string> {
    if q.limit > 0 || q.offset > 0 then ["LIMIT", FormatInt(q.limit)] else []
  }

  function OffsetTexts(q: Clauses): seq<string> {
    if q.offset > 0 then ["OFFSET", FormatInt(q.offset)] else []
  }

  function TailTexts(q: Clauses): seq<string> {
    ClauseTexts(["GROUP", "BY"], q.group)
    + (ClauseTexts(["HAVING"], q.having)
       + (ClauseTexts(["ORDER", "BY"], q.order) + (LimitTexts(q) + OffsetTexts(q))))
  }

  function SelectTexts(bt: Backend, q: Clauses): seq<string> {
    HeadTexts(q)
    + (["FROM", Quoted(bt, q.model.table)]
       + (ClauseTexts([], q.joins) + (ClauseTexts(["WHERE"], WhereOf(bt, q)) + TailTexts(q))))
  }

  lemma {:induction false} SpacedOne(a: string)
    ensures Spaced([a]) == " " + a
  {
    assert " " + a + "" == " " + a;
  }

  lemma {:induction false} SpacedTwo(a: string, b: string)
    ensures Spaced([a, b]) == " " + a + (" " + b)
  {
    SpacedOne(b);
    assert [a, b][1..] == [b];
  }

  lemma {:induction false} SpacedThree(a: string, b: string, c: string)
    ensures Spaced([a, b, c]) == " " + a + (" " + b + (" " + c))
  {
    SpacedTwo(b, c);
    assert [a, b, c][1..] == [b, c];
  }

  lemma {:induction false} GroupText(clause: string)
    ensures Optional(" GROUP BY ", clause) == Spaced(ClauseTexts(["GROUP", "BY"], clause))
    ensures Optional(" ORDER BY ", clause) == Spaced(ClauseTexts(["ORDER", "BY"], clause))
  {
    SpacedThree("GROUP", "BY", clause);
    SpacedThree("ORDER", "BY", clause);
    assert ["GROUP", "BY"] + [clause] == ["GROUP", "BY", clause]
           && ["ORDER", "BY"] + [clause] == ["ORDER", "BY", clause];
  }

  lemma {:induction false} KeywordText(keyword: string, prefix: string, clause: string)
    requires prefix == " " + keyword + " "
    ensures Optional(prefix, clause) == Spaced(ClauseTexts([keyword], clause))
  {
    SpacedTwo(keyword, clause);
    assert [keyword] + [clause] == [keyword, clause];
    assert prefix + clause == " " + keyword + (" " + clause);
  }

  lemma {:induction false} HavingText(clause: string)
    ensures Optional(" HAVING ", clause) == Spaced(ClauseTexts(["HAVING"], clause))
  {
    hide Spaced, Optional, ClauseTexts;
    assert " " + "HAVING" + " " == " HAVING ";
    KeywordText("HAVING", " HAVING ", clause);
  }

  lemma {:induction false} WhereText(clause: string)
    ensures Optional(" WHERE ", clause) == Spaced(ClauseTexts(["WHERE"], clause))
  {
    hide Spaced, Optional, ClauseTexts;
    assert " " + "WHERE" + " " == " WHERE ";
    KeywordText("WHERE", " WHERE ", clause);
  }

  lemma {:induction false} BareText(clause: string)
    ensures Optional(" ", clause) == Spaced(ClauseTexts([], clause))
  {
    SpacedOne(clause);
    assert [] + [clause] == [clause];
  }

  lemma {:induction false} LimitsText(q: Clauses)
    ensures Limits(q) == Spaced(LimitTexts(q) + OffsetTexts(q))
  {
    var l, o := FormatInt(q.limit), FormatInt(q.offset);
    SpacedTwo("LIMIT", l);
    SpacedTwo("OFFSET", o);
    SpacedConcat(LimitTexts(q), OffsetTexts(q));
    hide FormatInt;
    assert " LIMIT " + l == " " + "LIMIT" + (" " + l) && " OFFSET " + o == " " + "OFFSET" + (" " + o);
  }

  lemma {:induction false} TailText(q: Clauses)
    ensures Tail(q) == Spaced(TailTexts(q))
  {
    hide Spaced, Optional, ClauseTexts, LimitTexts, OffsetTexts, Limits;
    GroupText(q.group);
    GroupText(q.order);
    HavingText(q.having);
    LimitsText(q);
    FourSpaced(ClauseTexts(["GROUP", "BY"], q.group), ClauseTexts(["HAVING"], q.having),
               ClauseTexts(["ORDER", "BY"], q.order), LimitTexts(q) + OffsetTexts(q));
  }

  lemma {:induction false} FourSpaced(a: seq<string>, b: seq<string>, c: seq<string>, d: seq<string>)
    ensures Spaced(a + (b + (c + d))) == Spaced(a) + Spaced(b) + Spaced(c) + Spaced(d)
  {
    hide Spaced;
    SpacedConcat(c, d);
    SpacedConcat(b, c + d);
    SpacedConcat(a, b + (c + d));
  }

  lemma {:induction false} WrittenWhere(bt: Backend, q: Clauses)
    ensures WhereOf(bt, q) == "" <==> q.where == ""
    ensures Numbered(bt, WherePart(Scan(q.where)), 0) == Optional(" WHERE ", WhereOf(bt, q))
  {
    if q.where != "" {
      assert Scan(q.where) != [];
      assert |RenderToken(bt, Number(Scan(q.where), 0)[0])| > 0;
      NumberedText(bt, " WHERE ", Scan(q.where), 0);
    }
  }

  lemma {:induction false} HeadText(bt: Backend, q: Clauses)
    ensures SelectHead(q) + Quoted(bt, q.model.table)
            == "SELECT" + (Spaced(HeadTexts(q)) + Spaced(["FROM", Quoted(bt, q.model.table)]))
  {
    var table, cols := Quoted(bt, q.model.table), Columns(q);
    SpacedTwo("FROM", table);
    SpacedOne(cols);
    SpacedTwo("DISTINCT", cols);
    hide Quoted, Spaced;
    assert ["DISTINCT"] + [cols] == ["DISTINCT", cols] && [] + [cols] == [cols];
    assert "SELECT" + " " == "SELECT " && " " + "FROM" + " " == " FROM " && "DISTINCT" + " " == "DISTINCT ";
    SpacesMoved("SELECT", "DISTINCT", " ", cols, "FROM", table);
  }

  lemma {:induction false} SpacesMoved(s: string, d: string, sp: string, cols: string, f: string, table: string)
    ensures (s + sp) + (d + sp) + cols + (sp + f + sp) + table
            == s + ((sp + d + (sp + cols)) + (sp + f + (sp + table)))
    ensures (s + sp) + "" + cols + (sp + f + sp) + table == s + ((sp + cols) + (sp + f + (sp + table)))
  {}

  /** The text is the texts with spaces between them. */
  lemma {:induction false} SelectText(bt: Backend, q: Clauses)
    requires q.op.Select?
    ensures Built(bt, q) == "SELECT" + Spaced(SelectTexts(bt, q))
  {
    SelectParts(bt, SelectHead(q), q.model.table, Optional(" ", q.joins), WherePart(Scan(q.where)), Tail(q));
    assert Built(bt, q) == Numbered(bt, Skeleton(q), 0) + "";
    HeadText(bt, q);
    BareText(q.joins);
    WrittenWhere(bt, q);
    WhereText(WhereOf(bt, q));
    TailText(q);
    hide Spaced, HeadTexts, TailTexts, ClauseTexts, Quoted, SelectHead, Tail, Optional, Numbered, WhereOf;
    var from := ["FROM", Quoted(bt, q.model.table)];
    var joins, where := ClauseTexts([], q.joins), ClauseTexts(["WHERE"], WhereOf(bt, q));
    SpacedConcat(where, TailTexts(q));
    SpacedConcat(joins, where + TailTexts(q));
    SpacedConcat(from, joins + (where + TailTexts(q)));
    SpacedConcat(HeadTexts(q), from + (joins + (where + TailTexts(q))));
    TextLine(SelectHead(q), Quoted(bt, q.model.table), "SELECT", Spaced(HeadTexts(q)), Spaced(from),
             Spaced(joins) + (Spaced(where) + Spaced(TailTexts(q))));
  }

  lemma {:induction false} TextLine(head: string, table: string, select_: string, cols: string, from: string,
                                    rest: string)
    requires head + table == select_ + (cols + from)
    ensures head + (table + rest) == select_ + (cols + (from + rest))
  {
    assert head + (table + rest) == (head + table) + rest;
    assert select_ + (cols + (from + rest)) == (select_ + (cols + from)) + rest;
  }

  // ----- Its words

  function OptionalClause(keyword: string, more: seq<string>, text: string): seq<Clause> {
    if text == "" then [] else [Clause(keyword, more + Words(text))]
  }

  function LimitClause(q: Clauses): seq<Clause> {
    if q.limit > 0 || q.offset > 0 then [Clause("LIMIT", [FormatInt(q.limit)])] else []
  }

  function OffsetClause(q: Clauses): seq<Clause> {
    if q.offset > 0 then [Clause("OFFSET", [FormatInt(q.offset)])] else []
  }

  function TailClauses(q: Clauses): seq<Clause> {
    OptionalClause("GROUP", ["BY"], q.group)
    + (OptionalClause("HAVING", [], q.having)
       + (OptionalClause("ORDER", ["BY"], q.order) + (LimitClause(q) + OffsetClause(q))))
  }

  function ClausesOf(bt: Backend, q: Clauses): seq<Clause> {
    [Clause("FROM", [Quoted(bt, q.model.table)] + Words(q.joins))]
    + (OptionalClause("WHERE", [], WhereOf(bt, q)) + TailClauses(q))
  }

  lemma {:induction false} PlainKeyword(w: string)
    requires w in ["SELECT", "DISTINCT", "FROM", "WHERE", "GROUP", "BY", "HAVING", "ORDER", "LIMIT", "OFFSET"]
    ensures Words(w) == [w] && Closed(w) && Fold(w) == w
  {
    assert forall i :: 0 <= i < |w| ==> 'A' <= w[i] <= 'Z';
    assert Raised(w) == w;
    WholeWord(w);
  }

  /** A number is one word. */
  lemma {:induction false} NumberWord(n: int)
    ensures var w := FormatInt(n); Words(w) == [w] && Closed(w) && !BeginsClause(w)
  {
    var w := FormatInt(n);
    DecimalHoleFree(if n < 0 then -n else n);
    WholeWord(w);
    assert IsDigit(w[0]) || w[0] == '-';
    assert Fold(w)[0] == w[0];
  }

  lemma {:induction false} WordsOfOne(a: string)
    ensures AllWords([a]) == Words(a) && AllWords([]) == []
  {
    assert [a][1..] == [] && Words(a) + [] == Words(a);
  }

  lemma {:induction false} WordsOfTwo(a: string, b: string)
    ensures AllWords([a, b]) == Words(a) + Words(b)
  {
    WordsOfOne(b);
    assert [a, b][1..] == [b];
  }

  lemma {:induction false} WordsOfThree(a: string, b: string, c: string)
    ensures AllWords([a, b, c]) == Words(a) + (Words(b) + Words(c))
  {
    WordsOfTwo(b, c);
    assert [a, b, c][1..] == [b, c];
  }

  lemma {:induction false} FlatOne(c: Clause)
    ensures Flat([c]) == [c.keyword] + c.words && Flat([]) == []
  {
    assert [c][1..] == [] && ([c.keyword] + c.words) + [] == [c.keyword] + c.words;
  }

  lemma {:induction false} ClauseWords(keyword: string, text: string)
    requires Words(keyword) == [keyword]
    ensures AllWords(ClauseTexts([keyword], text)) == Flat(OptionalClause(keyword, [], text))
  {
    hide Words, AllWords, Flat;
    WordsOfOne("");
    WordsOfTwo(keyword, text);
    FlatOne(Clause(keyword, [] + Words(text)));
    assert [keyword] + [text] == [keyword, text];
  }

  lemma {:induction false} TwoKeywordWords(keyword: string, second: string, text: string)
    requires Words(keyword) == [keyword] && Words(second) == [second]
    ensures AllWords(ClauseTexts([keyword, second], text)) == Flat(OptionalClause(keyword, [second], text))
  {
    hide Words, AllWords, Flat;
    WordsOfOne("");
    WordsOfThree(keyword, second, text);
    FlatOne(Clause(keyword, [second] + Words(text)));
    assert [keyword, second] + [text] == [keyword, second, text];
  }

  lemma {:induction false} NumberClauseWords(keyword: string, n: int)
    requires Words(keyword) == [keyword]
    ensures AllWords([keyword, FormatInt(n)]) == Flat([Clause(keyword, [FormatInt(n)])])
  {
    NumberWord(n);
    hide Words, FormatInt, AllWords, Flat;
    WordsOfTwo(keyword, FormatInt(n));
    FlatOne(Clause(keyword, [FormatInt(n)]));
  }

  lemma {:induction false} LimitWords(q: Clauses)
    ensures AllWords(LimitTexts(q)) == Flat(LimitClause(q)) && AllWords(OffsetTexts(q)) == Flat(OffsetClause(q))
  {
    PlainKeyword("LIMIT");
    PlainKeyword("OFFSET");
    NumberClauseWords("LIMIT", q.limit);
    NumberClauseWords("OFFSET", q.offset);
    WordsOfOne("");
    FlatOne(Clause("", []));
    hide Words, FormatInt, AllWords, Flat;
  }

  lemma {:induction false} TailWords(q: Clauses)
    ensures AllWords(TailTexts(q)) == Flat(TailClauses(q))
  {
    hide Words, ClauseTexts, LimitTexts, OffsetTexts, OptionalClause, LimitClause, OffsetClause, AllWords, Flat;
    PlainKeyword("GROUP");
    PlainKeyword("HAVING");
    PlainKeyword("ORDER");
    PlainKeyword("BY");
    TwoKeywordWords("GROUP", "BY", q.group);
    ClauseWords("HAVING", q.having);
    TwoKeywordWords("ORDER", "BY", q.order);
    LimitWords(q);
    FiveWords(ClauseTexts(["GROUP", "BY"], q.group), ClauseTexts(["HAVING"], q.having),
              ClauseTexts(["ORDER", "BY"], q.order), LimitTexts(q), OffsetTexts(q));
    FiveFlat(OptionalClause("GROUP", ["BY"], q.group), OptionalClause("HAVING", [], q.having),
             OptionalClause("ORDER", ["BY"], q.order), LimitClause(q), OffsetClause(q));
  }

  lemma {:induction false} FiveWords(a: seq<string>, b: seq<string>, c: seq<string>, d: seq<string>, e: seq<string>)
    ensures AllWords(a + (b + (c + (d + e))))
            == AllWords(a) + (AllWords(b) + (AllWords(c) + (AllWords(d) + AllWords(e))))
  {
    hide AllWords;
    AllWordsConcat(d, e);
    AllWordsConcat(c, d + e);
    AllWordsConcat(b, c + (d + e));
    AllWordsConcat(a, b + (c + (d + e)));
  }

  lemma {:induction false} FiveFlat(a: seq<Clause>, b: seq<Clause>, c: seq<Clause>, d: seq<Clause>, e: seq<Clause>)
    ensures Flat(a + (b + (c + (d + e)))) == Flat(a) + (Flat(b) + (Flat(c) + (Flat(d) + Flat(e))))
  {
    hide Flat;
    FlatConcat(d, e);
    FlatConcat(c, d + e);
    FlatConcat(b, c + (d + e));
    FlatConcat(a, b + (c + (d + e)));
  }

  /** A quoted name is one word. */
  lemma {:induction false} QuotedWord(bt: Backend, name: string)
    requires QuoteFree(IdentifierQuote(bt), name)
    ensures var w := Quoted(bt, name); Words(w) == [w] && Closed(w)
  {
    var q, w := IdentifierQuote(bt), Quoted(bt, name);
    QuoteIs(bt);
    assert w == [q] + (name + [q]) && w[1..] == name + [q];
    InsideQuotes(q, name);
    assert w[..|w|] == w && w[|w|..] == "";
  }

  lemma {:induction false} InsideQuotes(q: char, name: string)
    requires QuoteFree(q, name)
    ensures WordEnd(name + [q], Lex(0, Some(q))) == |name| + 1
    ensures Scanned(Lex(0, Some(q)), name + [q]) == OUTSIDE
  {
    if name != "" {
      assert (name + [q])[1..] == name[1..] + [q];
      InsideQuotes(q, name[1..]);
    } else {
      assert (name + [q])[1..] == "";
    }
  }

  lemma {:induction false} WordsOfNothing()
    ensures Words("") == [] && AllWords([]) == []
  {}

  lemma {:induction false} FromWords(bt: Backend, q: Clauses)
    requires QuoteFree(IdentifierQuote(bt), q.model.table)
    ensures AllWords(["FROM", Quoted(bt, q.model.table)]) + AllWords(ClauseTexts([], q.joins))
            == Flat([Clause("FROM", [Quoted(bt, q.model.table)] + Words(q.joins))])
  {
    hide Words, Quoted, AllWords, Flat, Closed, Fold;
    PlainKeyword("FROM");
    QuotedWord(bt, q.model.table);
    WordsOfNothing();
    var table := Quoted(bt, q.model.table);
    WordsOfTwo("FROM", table);
    WordsOfOne(q.joins);
    FlatOne(Clause("FROM", [table] + Words(q.joins)));
    assert [] + [q.joins] == [q.joins];
  }

  /** The words of the statement. */
  lemma {:induction false} SelectWords(bt: Backend, q: Clauses)
    requires QuoteFree(IdentifierQuote(bt), q.model.table)
    ensures AllWords(SelectTexts(bt, q)) == AllWords(HeadTexts(q)) + Flat(ClausesOf(bt, q))
  {
    hide Words, AllWords, Flat, ClauseTexts, TailTexts, TailClauses, OptionalClause, HeadTexts, Quoted, WhereOf;
    FromWords(bt, q);
    PlainKeyword("WHERE");
    ClauseWords("WHERE", WhereOf(bt, q));
    TailWords(q);
    var from, where := ["FROM", Quoted(bt, q.model.table)], ClauseTexts(["WHERE"], WhereOf(bt, q));
    FiveWords(HeadTexts(q), from, ClauseTexts([], q.joins), where, TailTexts(q));
    var clause := [Clause("FROM", [Quoted(bt, q.model.table)] + Words(q.joins))];
    FlatConcat(OptionalClause("WHERE", [], WhereOf(bt, q)), TailClauses(q));
    FlatConcat(clause, OptionalClause("WHERE", [], WhereOf(bt, q)) + TailClauses(q));
  }

  // ----- The theorem

  /** Every clause text stays within its clause. */
  predicate Separate(bt: Backend, q: Clauses) {
    && WithinClause(Columns(q)) && WithinClause(q.joins) && WithinClause(WhereOf(bt, q)) && WithinClause(q.group)
    && WithinClause(q.having) && WithinClause(q.order)
  }

  lemma {:induction false} OrderlyClause(keyword: string, more: seq<string>, text: string)
    requires Fold(keyword) == keyword && BeginsClause(keyword) && WithinClause(text)
    requires forall i :: 0 <= i < |more| ==> !BeginsClause(more[i])
    ensures AllOrderly(OptionalClause(keyword, more, text))
  {
    hide Words, Fold, BeginsClause, Closed;
  }

  lemma {:induction false} ClauseBegins(w: string)
    requires w in CLAUSES
    ensures BeginsClause(w) && Fold(w) == w
  {
    PlainKeyword(w);
    hide Fold;
  }

  lemma {:induction false} BeginsNone(w: string)
    requires w in ["BY", "SELECT", "DISTINCT"]
    ensures !BeginsClause(w)
  {
    PlainKeyword(w);
    hide Fold;
  }

  lemma {:induction false} QuotedNoClause(bt: Backend, name: string)
    ensures !BeginsClause(Quoted(bt, name))
  {
    var w := Quoted(bt, name);
    assert IsQuote(w[0]) && Fold(w) == w;
  }

  lemma {:induction false} OrderlyConcat(a: seq<Clause>, b: seq<Clause>)
    requires AllOrderly(a) && AllOrderly(b)
    ensures AllOrderly(a + b)
  {
    hide Orderly;
  }

  lemma {:induction false} OrderlyNumber(keyword: string, n: int)
    requires Fold(keyword) == keyword && BeginsClause(keyword)
    ensures AllOrderly([Clause(keyword, [FormatInt(n)])])
  {
    NumberWord(n);
    hide Words, Fold, BeginsClause, FormatInt;
  }

  lemma {:induction false} OrderlyTail(bt: Backend, q: Clauses)
    requires Separate(bt, q)
    ensures AllOrderly(TailClauses(q))
  {
    hide Fold, BeginsClause, WithinClause, OptionalClause, AllOrderly, WhereOf, Columns;
    ClauseBegins("GROUP");
    ClauseBegins("HAVING");
    ClauseBegins("ORDER");
    ClauseBegins("LIMIT");
    ClauseBegins("OFFSET");
    BeginsNone("BY");
    OrderlyClause("GROUP", ["BY"], q.group);
    OrderlyClause("HAVING", [], q.having);
    OrderlyClause("ORDER", ["BY"], q.order);
    OrderlyNumber("LIMIT", q.limit);
    OrderlyNumber("OFFSET", q.offset);
    NoClauses();
    OrderlyConcat(LimitClause(q), OffsetClause(q));
    OrderlyConcat(OptionalClause("ORDER", ["BY"], q.order), LimitClause(q) + OffsetClause(q));
    var three := OptionalClause("ORDER", ["BY"], q.order) + (LimitClause(q) + OffsetClause(q));
    OrderlyConcat(OptionalClause("HAVING", [], q.having), three);
    OrderlyConcat(OptionalClause("GROUP", ["BY"], q.group), OptionalClause("HAVING", [], q.having) + three);
  }

  lemma {:induction false} NoClauses()
    ensures AllOrderly([])
  {}

  lemma {:induction false} OrderlyClauses(bt: Backend, q: Clauses)
    requires Separate(bt, q)
    ensures AllOrderly(ClausesOf(bt, q))
  {
    hide Fold, BeginsClause, OptionalClause, WhereOf, Columns, TailClauses, Quoted, Words, Closed;
    var from := [Clause("FROM", [Quoted(bt, q.model.table)] + Words(q.joins))];
    ClauseBegins("FROM");
    ClauseBegins("WHERE");
    QuotedNoClause(bt, q.model.table);
    OrderlyClause("WHERE", [], WhereOf(bt, q));
    OrderlyTail(bt, q);
    assert AllOrderly(from);
    hide AllOrderly;
    OrderlyConcat(OptionalClause("WHERE", [], WhereOf(bt, q)), TailClauses(q));
    OrderlyConcat(from, OptionalClause("WHERE", [], WhereOf(bt, q)) + TailClauses(q));
  }

  /** The clauses by their keywords. */
  lemma {:induction false} PresentClauses(bt: Backend, q: Clauses)
    ensures var cs := ClausesOf(bt, q);
            && Present(cs, "FROM") == Some([Quoted(bt, q.model.table)] + Words(q.joins))
            && Present(cs, "WHERE") == (if WhereOf(bt, q) == "" then None else Some(Words(WhereOf(bt, q))))
            && Present(cs, "GROUP") == (if q.group == "" then None else Some(["BY"] + Words(q.group)))
            && Present(cs, "HAVING") == (if q.having == "" then None else Some(Words(q.having)))
            && Present(cs, "ORDER") == (if q.order == "" then None else Some(["BY"] + Words(q.order)))
            && Present(cs, "LIMIT") == (if q.limit > 0 || q.offset > 0 then Some([FormatInt(q.limit)]) else None)
            && Present(cs, "OFFSET") == (if q.offset > 0 then Some([FormatInt(q.offset)]) else None)
  {
    PresentIn(bt, q, "FROM");
    PresentIn(bt, q, "WHERE");
    PresentIn(bt, q, "GROUP");
    PresentIn(bt, q, "HAVING");
    PresentIn(bt, q, "ORDER");
    PresentIn(bt, q, "LIMIT");
    PresentIn(bt, q, "OFFSET");
    hide Words, FormatInt, Quoted, WhereOf, Present, ClausesOf;
    assert [] + Words(WhereOf(bt, q)) == Words(WhereOf(bt, q)) && [] + Words(q.having) == Words(q.having);
  }

  function Matching(keyword: string, own: string, words: Option<seq<string>>): Option<seq<string>> {
    if keyword == own then words else None
  }

  function First(a: Option<seq<string>>, b: Option<seq<string>>): Option<seq<string>> {
    if a.Some? then a else b
  }

  function OptionalWords(more: seq<string>, text: string): Option<seq<string>> {
    if text == "" then None else Some(more + Words(text))
  }

  function LimitWord(q: Clauses): Option<seq<string>> {
    if q.limit > 0 || q.offset > 0 then Some([FormatInt(q.limit)]) else None
  }

  function OffsetWord(q: Clauses): Option<seq<string>> {
    if q.offset > 0 then Some([FormatInt(q.offset)]) else None
  }

  lemma {:induction false} PresentLimits(q: Clauses, keyword: string)
    ensures Present(LimitClause(q), keyword) == Matching(keyword, "LIMIT", LimitWord(q))
    ensures Present(OffsetClause(q), keyword) == Matching(keyword, "OFFSET", OffsetWord(q))
  {
    hide FormatInt;
    assert [Clause("LIMIT", [FormatInt(q.limit)])][1..] == [] && [Clause("OFFSET", [FormatInt(q.offset)])][1..] == [];
  }

  lemma {:induction false} PresentIn(bt: Backend, q: Clauses, keyword: string)
    ensures Present(ClausesOf(bt, q), keyword)
            == First(Matching(keyword, "FROM", Some([Quoted(bt, q.model.table)] + Words(q.joins))),
                     First(Matching(keyword, "WHERE", OptionalWords([], WhereOf(bt, q))),
                           First(Matching(keyword, "GROUP", OptionalWords(["BY"], q.group)),
                                 First(Matching(keyword, "HAVING", OptionalWords([], q.having)),
                                       First(Matching(keyword, "ORDER", OptionalWords(["BY"], q.order)),
                                             First(Matching(keyword, "LIMIT", LimitWord(q)),
                                                   Matching(keyword, "OFFSET", OffsetWord(q))))))))
  {
    PresentLimits(q, keyword);
    hide Words, Quoted, WhereOf, LimitClause, OffsetClause, LimitWord, OffsetWord;
    var from := [Clause("FROM", [Quoted(bt, q.model.table)] + Words(q.joins))];
    assert from[1..] == [];
    PresentOptional(keyword, "WHERE", [], WhereOf(bt, q));
    PresentOptional(keyword, "GROUP", ["BY"], q.group);
    PresentOptional(keyword, "HAVING", [], q.having);
    PresentOptional(keyword, "ORDER", ["BY"], q.order);
    assert Present(from, keyword) == Matching(keyword, "FROM", Some(from[0].words));
    hide Present, OptionalClause, OptionalWords, Matching;
    var o, l := OptionalClause("ORDER", ["BY"], q.order), LimitClause(q) + OffsetClause(q);
    var h, g := OptionalClause("HAVING", [], q.having), OptionalClause("GROUP", ["BY"], q.group);
    var w := OptionalClause("WHERE", [], WhereOf(bt, q));
    PresentConcat(LimitClause(q), OffsetClause(q), keyword);
    PresentConcat(o, l, keyword);
    PresentConcat(h, o + l, keyword);
    PresentConcat(g, h + (o + l), keyword);
    PresentConcat(w, g + (h + (o + l)), keyword);
    PresentConcat(from, w + (g + (h + (o + l))), keyword);
  }

  lemma {:induction false} PresentOptional(keyword: string, own: string, more: seq<string>, text: string)
    ensures Present(OptionalClause(own, more, text), keyword) == Matching(keyword, own, OptionalWords(more, text))
  {
    hide Words;
    assert [Clause(own, more + Words(text))][1..] == [];
  }

  lemma {:induction false} HeadWords(q: Clauses)
    requires WithinClause(Columns(q))
    ensures AllWords(HeadTexts(q)) == (if q.distinct then ["DISTINCT"] else []) + Words(Columns(q))
    ensures forall i :: 0 <= i < |AllWords(HeadTexts(q))| ==> !BeginsClause(AllWords(HeadTexts(q))[i])
    ensures AllClosed(HeadTexts(q))
  {
    hide Words, AllWords, Closed, BeginsClause, Columns, Fold;
    PlainKeyword("DISTINCT");
    BeginsNone("DISTINCT");
    WordsOfOne(Columns(q));
    WordsOfTwo("DISTINCT", Columns(q));
    assert ["DISTINCT"] + [Columns(q)] == ["DISTINCT", Columns(q)] && [] + [Columns(q)] == [Columns(q)];
    assert [] + Words(Columns(q)) == Words(Columns(q));
  }

  lemma {:induction false} KeywordClosed(w: string)
    requires w in CLAUSES || w == "BY"
    ensures Closed(w) && AllClosed([w]) && AllClosed([])
  {
    PlainKeyword(w);
    hide Words, Closed, Fold;
  }

  lemma {:induction false} ClosedClause(keywords: seq<string>, text: string)
    requires AllClosed(keywords) && Closed(text)
    ensures AllClosed(ClauseTexts(keywords, text))
  {
    hide Closed;
  }

  lemma {:induction false} ClosedPair(a: string, b: string)
    requires Closed(a) && Closed(b)
    ensures AllClosed([a, b])
  {
    hide Closed;
  }

  lemma {:induction false} ClosedBoth(a: seq<string>, b: seq<string>)
    requires AllClosed(a) && AllClosed(b)
    ensures AllClosed(a + b)
  {
    hide Closed;
  }

  lemma {:induction false} TailClosed(bt: Backend, q: Clauses)
    requires Closed(q.group) && Closed(q.having) && Closed(q.order)
    ensures AllClosed(TailTexts(q))
  {
    hide Words, Closed, FormatInt, ClauseTexts, AllClosed, BeginsClause;
    KeywordClosed("BY");
    KeywordClosed("GROUP");
    KeywordClosed("HAVING");
    KeywordClosed("ORDER");
    KeywordClosed("LIMIT");
    KeywordClosed("OFFSET");
    ClosedPair("GROUP", "BY");
    ClosedPair("ORDER", "BY");
    NumberWord(q.limit);
    NumberWord(q.offset);
    ClosedPair("LIMIT", FormatInt(q.limit));
    ClosedPair("OFFSET", FormatInt(q.offset));
    ClosedClause(["GROUP", "BY"], q.group);
    ClosedClause(["HAVING"], q.having);
    ClosedClause(["ORDER", "BY"], q.order);
    var l, o := LimitTexts(q) + OffsetTexts(q), ClauseTexts(["ORDER", "BY"], q.order);
    ClosedBoth(LimitTexts(q), OffsetTexts(q));
    ClosedBoth(o, l);
    ClosedBoth(ClauseTexts(["HAVING"], q.having), o + l);
    ClosedBoth(ClauseTexts(["GROUP", "BY"], q.group), ClauseTexts(["HAVING"], q.having) + (o + l));
  }

  lemma {:induction false} TextsClosed(bt: Backend, q: Clauses)
    requires Separate(bt, q) && QuoteFree(IdentifierQuote(bt), q.model.table)
    ensures AllClosed(SelectTexts(bt, q))
  {
    hide Words, Closed, ClauseTexts, AllClosed, BeginsClause, WhereOf, Columns, Quoted, HeadTexts, TailTexts;
    KeywordClosed("FROM");
    KeywordClosed("WHERE");
    HeadWords(q);
    QuotedWord(bt, q.model.table);
    ClosedPair("FROM", Quoted(bt, q.model.table));
    ClosedClause([], q.joins);
    ClosedClause(["WHERE"], WhereOf(bt, q));
    TailClosed(bt, q);
    var from, joins := ["FROM", Quoted(bt, q.model.table)], ClauseTexts([], q.joins);
    var where := ClauseTexts(["WHERE"], WhereOf(bt, q));
    ClosedBoth(where, TailTexts(q));
    ClosedBoth(joins, where + TailTexts(q));
    ClosedBoth(from, joins + (where + TailTexts(q)));
    ClosedBoth(HeadTexts(q), from + (joins + (where + TailTexts(q))));
  }

  /** A SELECT whose clause texts stay within their clauses is read as its clauses: the selected columns, the
      table with its joins, and the conditions, groups, order and numbers under their keywords. */
  lemma {:induction false} SelectReads(bt: Backend, q: Clauses)
    requires q.op.Select? && Separate(bt, q) && QuoteFree(IdentifierQuote(bt), q.model.table)
    ensures var ws := Words(Built(bt, q));
            && UpToClause(ws) == ["SELECT"] + ((if q.distinct then ["DISTINCT"] else []) + Words(Columns(q)))
            && Section(ws, "FROM") == Some([Quoted(bt, q.model.table)] + Words(q.joins))
            && Section(ws, "WHERE") == (if q.where == "" then None else Some(Words(WhereOf(bt, q))))
            && Section(ws, "GROUP") == (if q.group == "" then None else Some(["BY"] + Words(q.group)))
            && Section(ws, "HAVING") == (if q.having == "" then None else Some(Words(q.having)))
            && Section(ws, "ORDER") == (if q.order == "" then None else Some(["BY"] + Words(q.order)))
            && Section(ws, "LIMIT") == LimitWord(q) && Section(ws, "OFFSET") == OffsetWord(q)
  {
    SelectSections(bt, q, "FROM");
    SelectSections(bt, q, "WHERE");
    SelectSections(bt, q, "GROUP");
    SelectSections(bt, q, "HAVING");
    SelectSections(bt, q, "ORDER");
    SelectSections(bt, q, "LIMIT");
    SelectSections(bt, q, "OFFSET");
    WrittenWhere(bt, q);
    PresentClauses(bt, q);
    hide Words, Section, Present, ClausesOf, UpToClause, Separate, Built, WhereOf, Quoted, FormatInt;
  }

  lemma {:induction false} SelectSections(bt: Backend, q: Clauses, keyword: string)
    requires q.op.Select? && Separate(bt, q) && QuoteFree(IdentifierQuote(bt), q.model.table) && keyword in CLAUSES
    ensures var ws := Words(Built(bt, q));
            && UpToClause(ws) == ["SELECT"] + ((if q.distinct then ["DISTINCT"] else []) + Words(Columns(q)))
            && Section(ws, keyword) == Present(ClausesOf(bt, q), keyword)
  {
    hide Words, Section, Present, ClausesOf, UpToClause, Built, AllWords, Flat, SelectTexts, HeadTexts, BeginsClause,
        Fold,
         Spaced, AllOrderly, CLAUSES, Columns, Closed, AllClosed, WhereOf;
    SelectText(bt, q);
    TextsClosed(bt, q);
    PlainKeyword("SELECT");
    BeginsNone("SELECT");
    WordsOfSpaced("SELECT", SelectTexts(bt, q));
    SelectWords(bt, q);
    HeadWords(q);
    OrderlyClauses(bt, q);
    ClauseBegins(keyword);
    var head, rest := ["SELECT"] + AllWords(HeadTexts(q)), Flat(ClausesOf(bt, q));
    Associate(["SELECT"], AllWords(HeadTexts(q)), rest);
    FlatBegins(ClausesOf(bt, q));
    UpToEnds(head, rest);
    SectionSkips(head, rest, keyword);
    SectionOf(ClausesOf(bt, q), keyword);
  }

  // ----- The page

  function DigitsOf(w: string): string {
    if w != "" && w[0] == '-' then w[1..] else w
  }

  predicate IsNumber(w: string) {
    DigitsOf(w) != "" && forall i :: 0 <= i < |DigitsOf(w)| ==> IsDigit(DigitsOf(w)[i])
  }

  function IntOf(w: string): int
    requires IsNumber(w)
  {
    var n: int := NatOf(DigitsOf(w));
    if w[0] == '-' then -n else n
  }

  lemma {:induction false} NumberReads(n: int)
    ensures IsNumber(FormatInt(n)) && IntOf(FormatInt(n)) == n
  {
    NatOfDecimal(if n < 0 then -n else n);
    if n < 0 {
      assert FormatInt(n)[1..] == Decimal(-n);
    }
  }

  /** The number of a clause. */
  function NumberIn(words: Option<seq<string>>): Option<int> {
    if words.Some? && |words.value| == 1 && IsNumber(words.value[0]) then Some(IntOf(words.value[0])) else None
  }

  /** The rows after the first `offset`, and of them the first `limit`; for SQLite a negative number is no limit. */
  function PageOf<T>(rows: seq<T>, limit: Option<int>, offset: Option<int>): seq<T> {
    var from := if offset.None? || offset.value < 0 then 0 else if offset.value > |rows| then |rows| else offset.value;
    var rest := rows[from..];
    if limit.None? || limit.value < 0 || limit.value > |rest| then rest else rest[..limit.value]
  }

  /** The page that the statement asks for. */
  function PageRead<T>(bt: Backend, q: Clauses, rows: seq<T>): seq<T> {
    var ws := Words(Built(bt, q));
    PageOf(rows, NumberIn(Section(ws, "LIMIT")), NumberIn(Section(ws, "OFFSET")))
  }

  /** The page meant: no limit and no offset when they are not positive. */
  function PageMeant<T>(q: Clauses, rows: seq<T>): seq<T> {
    PageOf(rows, if q.limit > 0 then Some(q.limit) else None, if q.offset > 0 then Some(q.offset) else None)
  }

  lemma {:induction false} NumbersRead(bt: Backend, q: Clauses)
    requires q.op.Select? && Separate(bt, q) && QuoteFree(IdentifierQuote(bt), q.model.table)
    ensures var ws := Words(Built(bt, q));
            && NumberIn(Section(ws, "LIMIT")) == (if q.limit > 0 || q.offset > 0 then Some(q.limit) else None)
            && NumberIn(Section(ws, "OFFSET")) == (if q.offset > 0 then Some(q.offset) else None)
  {
    SelectReads(bt, q);
    NumberReads(q.limit);
    NumberReads(q.offset);
    hide Words, Section, Built, FormatInt, IsNumber, IntOf, Separate, QuoteFree, UpToClause, WhereOf, Columns;
  }

  /** The page read is the page meant, for all rows, exactly unless there is an offset without a limit: then the
      statement says LIMIT 0. (With an offset, only SQLite takes a negative limit.) */
  lemma {:induction false} PageExactly(bt: Backend, q: Clauses)
    requires q.op.Select? && Separate(bt, q) && QuoteFree(IdentifierQuote(bt), q.model.table)
    requires bt.Sqlite? || q.limit >= 0 || q.offset <= 0
    ensures (forall rows: seq<int> :: PageRead(bt, q, rows) == PageMeant(q, rows)) <==> !(q.limit == 0 && q.offset > 0)
  {
    NumbersRead(bt, q);
    hide Words, Section, Built, NumberIn, Separate, QuoteFree;
    if q.limit == 0 && q.offset > 0 {
      var rows := seq(q.offset + 1, i => i);
      assert PageRead(bt, q, rows) == [] && |PageMeant(q, rows)| == 1;
    }
  }

  /** `SELECT * FROM t LIMIT 0 OFFSET 1` returns nothing, where the second row is meant. */
  lemma {:induction false} OffsetAlone(bt: Backend)
    ensures var q := Clauses(Op.Select, Model("t", [], None), false, "", "", "", "", "", "", "", 0, 1);
            PageRead(bt, q, [1, 2]) == [] && PageMeant(q, [1, 2]) == [2]
  {
    hide Words, Closed, BeginsClause, Built, Section, NumberIn, Separate;
    var q := Clauses(Op.Select, Model("t", [], None), false, "", "", "", "", "", "", "", 0, 1);
    OffsetAloneWritten(bt, q);
    NumbersRead(bt, q);
  }

  lemma {:induction false} OffsetAloneWritten(bt: Backend, q: Clauses)
    requires q == Clauses(Op.Select, Model("t", [], None), false, "", "", "", "", "", "", "", 0, 1)
    ensures Separate(bt, q) && QuoteFree(IdentifierQuote(bt), q.model.table)
  {
    hide Keyword;
    WholeWord("*");
    assert !BeginsClause("*") by { assert Fold("*")[0] == '*'; }
    assert WithinClause("");
    WrittenWhere(bt, q);
  }
}
