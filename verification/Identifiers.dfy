/**
 The quoted names in a statement, as a database reads them: which table and columns it is about.
*/
module Identifiers {
  import opened Common
  import opened SqlText
  import opened Builder
  import opened Dialects

  /** MySQL quotes names with backticks, the others with double quotes. */
  function IdentifierQuote(bt: Backend): char {
    match bt
    case Mysql => '`'
    case Sqlite => '"'
    case Postgres => '"'
  }

  /** The names between quotes, in order; `open` is the beginning of a name whose end is still to come. */
  function Names(ps: seq<Piece>, quote: char, open: Option<string>): seq<string> {
    if ps == [] then []
    else if ps[0].Slot? then Names(ps[1..], quote, open)
    else
      match open
      case None => Names(ps[1..], quote, if ps[0].c == quote then Some("") else None)
      case Some(name) =>
        if ps[0].c == quote then [name] + Names(ps[1..], quote, None)
        else Names(ps[1..], quote, Some(name + [ps[0].c]))
  }

  predicate QuoteFree(quote: char, s: string) {
    forall i :: 0 <= i < |s| ==> s[i] != quote
  }

  predicate AllQuoteFree(bt: Backend, names: seq<string>) {
    forall i :: 0 <= i < |names| ==> QuoteFree(IdentifierQuote(bt), names[i])
  }

  lemma {:induction false} QuoteFreeParts(bt: Backend, names: seq<string>)
    requires AllQuoteFree(bt, names) && names != []
    ensures AllQuoteFree(bt, names[..|names| - 1]) && QuoteFree(IdentifierQuote(bt), names[|names| - 1])
    ensures names[..|names| - 1] + [names[|names| - 1]] == names
  {
    hide QuoteFree;
  }

  lemma {:induction false} QuoteIs(bt: Backend)
    ensures Quote(bt) == [IdentifierQuote(bt)]
  {}

  /** Text without a quote holds no name. */
  lemma {:induction false} NamesSkip(quote: char, s: string, rest: seq<Piece>)
    requires QuoteFree(quote, s)
    ensures Names(Lits(s) + rest, quote, None) == Names(rest, quote, None)
  {
    if s == "" {
      assert Lits(s) + rest == rest;
    } else {
      NamesSkip(quote, s[1..], rest);
      assert (Lits(s) + rest)[1..] == Lits(s[1..]) + rest;
    }
  }

  lemma {:induction false} NameGrows(quote: char, open: string, s: string, rest: seq<Piece>)
    requires QuoteFree(quote, s)
    ensures Names(Lits(s) + rest, quote, Some(open)) == Names(rest, quote, Some(open + s))
    decreases s
  {
    if s == "" {
      assert Lits(s) + rest == rest && open + s == open;
    } else {
      NameGrows(quote, open + [s[0]], s[1..], rest);
      assert (Lits(s) + rest)[1..] == Lits(s[1..]) + rest;
      assert open + [s[0]] + s[1..] == open + s;
    }
  }

  /** A quoted name is read. */
  lemma {:induction false} NameRead(bt: Backend, name: string, rest: seq<Piece>)
    requires QuoteFree(IdentifierQuote(bt), name)
    ensures Names(Lits(Quoted(bt, name)) + rest, IdentifierQuote(bt), None)
            == [name] + Names(rest, IdentifierQuote(bt), None)
  {
    var q := IdentifierQuote(bt);
    QuoteIs(bt);
    var after := Lits([q]) + rest;
    assert Quoted(bt, name) == [q] + (name + [q]);
    LitsConcat([q], name + [q]);
    LitsConcat(name, [q]);
    assert Lits(Quoted(bt, name)) + rest == Lits([q]) + (Lits(name) + after);
    QuoteOpens(q, Lits(name) + after);
    NameGrows(q, "", name, after);
    assert "" + name == name;
    QuoteCloses(q, name, rest);
  }

  lemma {:induction false} QuoteOpens(q: char, rest: seq<Piece>)
    ensures Names(Lits([q]) + rest, q, None) == Names(rest, q, Some(""))
  {
    assert (Lits([q]) + rest)[1..] == rest;
  }

  lemma {:induction false} QuoteCloses(q: char, name: string, rest: seq<Piece>)
    ensures Names(Lits([q]) + rest, q, Some(name)) == [name] + Names(rest, q, None)
  {
    assert (Lits([q]) + rest)[1..] == rest;
  }

  lemma {:induction false} CommaQuoteFree(bt: Backend, k: nat)
    ensures QuoteFree(IdentifierQuote(bt), Comma(k))
  {}

  /** A list of quoted names is read name by name. */
  lemma {:induction false} ListRead(bt: Backend, names: seq<string>, rest: seq<Piece>)
    requires AllQuoteFree(bt, names)
    ensures Names(Lits(Numbered<()>(bt, ColumnList(names), 0)) + rest, IdentifierQuote(bt), None)
            == names + Names(rest, IdentifierQuote(bt), None)
  {
    if names == [] {
      NoNames(bt, rest);
    } else {
      hide Names, Numbered, Comma, Quoted, QuoteFree, AllQuoteFree, Lits, ColumnList;
      var last := |names| - 1;
      var front, name := names[..last], names[last];
      QuoteFreeParts(bt, names);
      ColumnStep(bt, front, name);
      var text := Numbered<()>(bt, ColumnList(front), 0);
      LitsConcat(text, Comma(last) + Quoted(bt, name));
      LitsConcat(Comma(last), Quoted(bt, name));
      AssociateInner(Lits(text), Lits(Comma(last)), Lits(Quoted(bt, name)), rest);
      ListRead(bt, front, Lits(Comma(last)) + (Lits(Quoted(bt, name)) + rest));
      CommaQuoteFree(bt, last);
      NamesSkip(IdentifierQuote(bt), Comma(last), Lits(Quoted(bt, name)) + rest);
      NameRead(bt, name, rest);
      Associate(front, [name], Names(rest, IdentifierQuote(bt), None));
    }
  }

  lemma {:induction false} NoNames(bt: Backend, rest: seq<Piece>)
    ensures Names(Lits(Numbered<()>(bt, ColumnList([]), 0)) + rest, IdentifierQuote(bt), None)
            == [] + Names(rest, IdentifierQuote(bt), None)
  {
    assert Numbered<()>(bt, ColumnList([]), 0) == "";
    assert Lits("") + rest == rest;
  }

  // ----- Assignments

  /** The assignments `"name" = hole` in a SET clause: each hole goes to the name before it. */
  function Assigns(ps: seq<Piece>, quote: char, open: Option<string>, name: string): seq<(string, int)> {
    if ps == [] then []
    else if ps[0].Slot? then [(name, ps[0].index)] + Assigns(ps[1..], quote, open, name)
    else
      match open
      case None => Assigns(ps[1..], quote, if ps[0].c == quote then Some("") else None, name)
      case Some(begun) =>
        if ps[0].c == quote then Assigns(ps[1..], quote, None, begun)
        else Assigns(ps[1..], quote, Some(begun + [ps[0].c]), name)
  }

  /** The fields that are no keys. */
  function NonKeys(fs: seq<Field>): (js: seq<nat>)
    ensures forall j: nat :: j in js <==> j < |fs| && !fs[j].primary
    ensures forall p, q :: 0 <= p < q < |js| ==> js[p] < js[q]
  {
    if fs == [] then []
    else
      var last := |fs| - 1;
      var front := NonKeys(fs[..last]);
      assert forall j :: 0 <= j < last ==> fs[..last][j] == fs[j];
      assert forall p :: 0 <= p < |front| ==> front[p] in front;
      if fs[last].primary then front else front + [last]
  }

  lemma {:induction false} UpdateColumnsAre(fs: seq<Field>)
    ensures |UpdateColumns(fs)| == |NonKeys(fs)|
    ensures forall p :: 0 <= p < |NonKeys(fs)| ==> NonKeys(fs)[p] in NonKeys(fs)
    ensures forall p :: 0 <= p < |NonKeys(fs)| ==> UpdateColumns(fs)[p] == fs[NonKeys(fs)[p]].name
  {
    if fs != [] {
      UpdateColumnsAre(fs[..|fs| - 1]);
    }
  }

  function LastOf(names: seq<string>, name: string): string {
    if names == [] then name else names[|names| - 1]
  }

  /** Each name with the hole of its number. */
  function Numbering(names: seq<string>): seq<(string, int)> {
    seq(|names|, i requires 0 <= i < |names| => (names[i], i))
  }

  lemma {:induction false} AssignsSkip(quote: char, s: string, rest: seq<Piece>, name: string)
    requires QuoteFree(quote, s)
    ensures Assigns(Lits(s) + rest, quote, None, name) == Assigns(rest, quote, None, name)
  {
    if s == "" {
      assert Lits(s) + rest == rest;
    } else {
      AssignsSkip(quote, s[1..], rest, name);
      assert (Lits(s) + rest)[1..] == Lits(s[1..]) + rest;
    }
  }

  lemma {:induction false} AssigneeGrows(quote: char, open: string, s: string, rest: seq<Piece>, name: string)
    requires QuoteFree(quote, s)
    ensures Assigns(Lits(s) + rest, quote, Some(open), name) == Assigns(rest, quote, Some(open + s), name)
    decreases s
  {
    if s == "" {
      assert Lits(s) + rest == rest && open + s == open;
    } else {
      AssigneeGrows(quote, open + [s[0]], s[1..], rest, name);
      assert (Lits(s) + rest)[1..] == Lits(s[1..]) + rest;
      assert open + [s[0]] + s[1..] == open + s;
    }
  }

  lemma {:induction false} AssigneeRead(bt: Backend, name: string, rest: seq<Piece>, before: string)
    requires QuoteFree(IdentifierQuote(bt), name)
    ensures Assigns(Lits(Quoted(bt, name)) + rest, IdentifierQuote(bt), None, before)
            == Assigns(rest, IdentifierQuote(bt), None, name)
  {
    var q := IdentifierQuote(bt);
    QuoteIs(bt);
    var after := Lits([q]) + rest;
    assert Quoted(bt, name) == [q] + (name + [q]);
    LitsConcat([q], name + [q]);
    LitsConcat(name, [q]);
    assert Lits(Quoted(bt, name)) + rest == Lits([q]) + (Lits(name) + after);
    QuotesAssign(q, Lits(name) + after, rest, name, before);
    AssigneeGrows(q, "", name, after, before);
    assert "" + name == name;
  }

  lemma {:induction false} QuotesAssign(q: char, tail: seq<Piece>, rest: seq<Piece>, name: string, before: string)
    ensures Assigns(Lits([q]) + tail, q, None, before) == Assigns(tail, q, Some(""), before)
    ensures Assigns(Lits([q]) + rest, q, Some(name), before) == Assigns(rest, q, None, name)
  {
    assert (Lits([q]) + tail)[1..] == tail && (Lits([q]) + rest)[1..] == rest;
  }

  /** One item of a SET clause. */
  lemma {:induction false} ItemRead(bt: Backend, comma: string, name: string, k: nat, rest: seq<Piece>, before: string)
    requires QuoteFree(IdentifierQuote(bt), name) && QuoteFree(IdentifierQuote(bt), comma)
    ensures Assigns(Lits(comma) + (Lits(Quoted(bt, name)) + (Lits(" = ") + ([Slot(k)] + rest))),
                    IdentifierQuote(bt), None, before)
            == [(name, k)] + Assigns(rest, IdentifierQuote(bt), None, name)
  {
    var q := IdentifierQuote(bt);
    AssignsSkip(q, comma, Lits(Quoted(bt, name)) + (Lits(" = ") + ([Slot(k)] + rest)), before);
    AssigneeRead(bt, name, Lits(" = ") + ([Slot(k)] + rest), before);
    EqualsQuoteFree(bt);
    AssignsSkip(q, " = ", [Slot(k)] + rest, name);
    assert ([Slot(k)] + rest)[1..] == rest;
  }

  lemma {:induction false} EqualsQuoteFree(bt: Backend)
    ensures QuoteFree(IdentifierQuote(bt), " = ")
  {}

  lemma {:induction false} ItemPieces(bt: Backend, names: seq<string>)
    requires names != []
    ensures var last := |names| - 1;
            Pieces(bt, Assignments(names, Units(|names|)), 0)
            == Pieces(bt, Assignments(names[..last], Units(last)), 0)
               + (Lits(Comma(last)) + (Lits(Quoted(bt, names[last])) + (Lits(" = ") + [Slot(last)])))
  {
    hide Pieces, Comma, Lits, Text, Holes, Quoted;
    var last := |names| - 1;
    var front := Assignments(names[..last], Units(last));
    var value: seq<Token<()>> := Text(" = ") + [Hole(())];
    assert Units(|names|)[..last] == Units(last);
    AssignmentHoles(names[..last], Units(last));
    PiecesText(bt, Comma(last), last);
    PiecesText(bt, " = ", last);
    PiecesHole(bt, last);
    PiecesIdent(bt, names[last], last);
    PiecesConcat(bt, Text(" = "), [Hole(())], last);
    PiecesConcat(bt, [Ident(names[last])], value, last);
    PiecesConcat(bt, Text(Comma(last)), [Ident(names[last])] + value, last);
    PiecesConcat(bt, front, Text(Comma(last)) + ([Ident(names[last])] + value), 0);
  }

  lemma {:induction false} AssignmentsRead(bt: Backend, names: seq<string>, rest: seq<Piece>, before: string)
    requires AllQuoteFree(bt, names)
    ensures Assigns(Pieces(bt, Assignments(names, Units(|names|)), 0) + rest, IdentifierQuote(bt), None, before)
            == Numbering(names) + Assigns(rest, IdentifierQuote(bt), None, LastOf(names, before))
  {
    if names == [] {
      assert Pieces(bt, [], 0) + rest == rest;
    } else {
      hide Pieces, Assigns, Comma, Lits, Quoted, QuoteFree, AllQuoteFree, Numbering, Assignments;
      var last := |names| - 1;
      var front, name := names[..last], names[last];
      QuoteFreeParts(bt, names);
      ItemPieces(bt, names);
      var item := Lits(Comma(last)) + (Lits(Quoted(bt, name)) + (Lits(" = ") + ([Slot(last)] + rest)));
      ItemThenRest(Pieces(bt, Assignments(front, Units(last)), 0), Lits(Comma(last)), Lits(Quoted(bt, name)),
                   Lits(" = "), [Slot(last)], rest);
      AssignmentsRead(bt, front, item, before);
      CommaQuoteFree(bt, last);
      ItemRead(bt, Comma(last), name, last, rest, LastOf(front, before));
      NumberingMore(names);
      Associate(Numbering(front), [(name, last)], Assigns(rest, IdentifierQuote(bt), None, name));
    }
  }

  lemma {:induction false} NumberingMore(names: seq<string>)
    requires names != []
    ensures Numbering(names) == Numbering(names[..|names| - 1]) + [(names[|names| - 1], |names| - 1)]
  {}

  lemma {:induction false} ItemThenRest(a: seq<Piece>, b: seq<Piece>, c: seq<Piece>, d: seq<Piece>, e: seq<Piece>,
                                        rest: seq<Piece>)
    ensures (a + (b + (c + (d + e)))) + rest == a + (b + (c + (d + (e + rest))))
  {}

  /** An UPDATE without a SET clause assigns hole p to the p-th field that is no key, and to nothing else. */
  lemma {:induction false} ImplicitSetReads(bt: Backend, q: Clauses)
    requires q.setClause == "" && forall j :: 0 <= j < |q.model.fields| ==>
                                       QuoteFree(IdentifierQuote(bt), q.model.fields[j].name)
    ensures var pairs := Assigns(Pieces(bt, SetPart(q), 0), IdentifierQuote(bt), None, "");
            var js := NonKeys(q.model.fields);
            && |pairs| == |js|
            && forall p :: 0 <= p < |js| ==>
                 js[p] in js && pairs[p] == (q.model.fields[js[p]].name, p)
  {
    var names := UpdateColumns(q.model.fields);
    UpdateColumnsAre(q.model.fields);
    var pieces := Pieces(bt, SetPart(q), 0);
    assert Scan("") == [] && pieces + [] == pieces;
    hide Pieces, UpdateColumns, NonKeys;
    AssignmentsRead(bt, names, [], "");
    assert Numbering(names) + [] == Numbering(names);
  }
}
