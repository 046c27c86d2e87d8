/**
 SQL text with parameter holes: how a dialect writes a hole, how a database reads the text back, and the
 tokens between the two.

 The reading takes every `?`, or every `$` followed by digits, as a hole; SQL string literals are not
 interpreted.
*/
module SqlText {
  import opened Common

  datatype Backend = Sqlite | Mysql | Postgres

  // ----- Placeholders

  predicate IsDigit(c: char) { '0' <= c <= '9' }

  function Digit(d: nat): (c: char)
    requires d < 10
    ensures IsDigit(c) && c as int == '0' as int + d
  {
    '0' + d as char
  }

  /** `%d` of a number that is not negative. */
  function Decimal(n: nat): (s: string)
    ensures |s| > 0 && forall i :: 0 <= i < |s| ==> IsDigit(s[i])
  {
    if n < 10 then [Digit(n)] else Decimal(n / 10) + [Digit(n % 10)]
  }

  function FormatInt(i: int): string {
    if i < 0 then "-" + Decimal(-i) else Decimal(i)
  }

  /** The text of the placeholder for the parameter with the given index. */
  function Placeholder(bt: Backend, index: int): string {
    if bt.Postgres? then "$" + FormatInt(index + 1) else "?"
  }

  function Quote(bt: Backend): string {
    if bt.Mysql? then "`" else "\""
  }

  function DigitValue(c: char): nat
    requires IsDigit(c)
  {
    c as int - '0' as int
  }

  function NatOf(digits: string): nat
    requires forall i :: 0 <= i < |digits| ==> IsDigit(digits[i])
  {
    if digits == "" then 0
    else NatOf(digits[..|digits| - 1]) * 10 + DigitValue(digits[|digits| - 1])
  }

  lemma {:induction false} NatOfDecimal(n: nat)
    ensures NatOf(Decimal(n)) == n
  {
    if n >= 10 {
      NatOfDecimal(n / 10);
      var s := Decimal(n);
      assert s[..|s| - 1] == Decimal(n / 10);
    } else {
      assert Decimal(n)[..0] == "";
    }
  }

  function Pow10(k: nat): nat {
    if k == 0 then 1 else 10 * Pow10(k - 1)
  }

  lemma {:induction false} DecimalLength(n: nat, k: nat)
    requires k > 0 && n < Pow10(k)
    ensures |Decimal(n)| <= k
  {
    if n >= 10 && k > 1 {
      assert n / 10 < Pow10(k - 1);
      DecimalLength(n / 10, k - 1);
    }
  }

  /** Every 32-bit index whose successor is a 32-bit number fits the 16-byte buffer with its NUL. */
  lemma {:induction false} PlaceholderFits(bt: Backend, index: int)
    requires -0x8000_0000 <= index < 0x7fff_ffff
    ensures |Placeholder(bt, index)| + 1 <= 16
  {
    assert Pow10(5) == 100000;
    assert Pow10(10) == 10000000000;
    var n := if index + 1 < 0 then -(index + 1) else index + 1;
    DecimalLength(n, 10);
  }

  /** `corm_dialect_placeholder_str`: writes as much of the placeholder as fits, and a NUL. */
  method PlaceholderStr(bt: Backend, index: int, buf: array<char>)
    requires buf.Length > 0
    modifies buf
    ensures var text := Placeholder(bt, index);
            var n := if |text| < buf.Length then |text| else buf.Length - 1;
            buf[..n] == text[..n] && buf[n] == '\0'
  {
    var text := Placeholder(bt, index);
    var n := if |text| < buf.Length then |text| else buf.Length - 1;
    for i := 0 to n
      invariant buf[..i] == text[..i]
    {
      buf[i] := text[i];
    }
    buf[n] := '\0';
  }

  // ----- Tokens

  /** A piece of a statement: a character, a quoted identifier, or a hole holding an `H`. */
  datatype Token<H> = Chr(c: char) | Ident(name: string) | Hole(h: H)

  function Text<H>(s: string): (ts: seq<Token<H>>)
    ensures |ts| == |s| && forall i :: 0 <= i < |ts| ==> ts[i] == Chr(s[i])
  {
    seq(|s|, i requires 0 <= i < |s| => Chr(s[i]))
  }

  /** The tokens of a clause buffer: every `?` is a hole. */
  function Scan(text: string): (ts: seq<Token<()>>)
    ensures |ts| == |text|
    ensures forall i :: 0 <= i < |ts| ==> ts[i] == if text[i] == '?' then Hole(()) else Chr(text[i])
  {
    seq(|text|, i requires 0 <= i < |text| => if text[i] == '?' then Hole(()) else Chr(text[i]))
  }

  function Holes<H>(ts: seq<Token<H>>): seq<H> {
    if ts == [] then []
    else if ts[0].Hole? then [ts[0].h] + Holes(ts[1..])
    else Holes(ts[1..])
  }

  /** Numbers the holes from `start` on. */
  function Number<H>(ts: seq<Token<H>>, start: nat): (ns: seq<Token<nat>>)
    ensures |ns| == |ts|
  {
    if ts == [] then [] else [NumberToken(ts[0], start)] + Number(ts[1..], NextNumber(ts[0], start))
  }

  function NumberToken<H>(t: Token<H>, k: nat): Token<nat> {
    match t
    case Chr(c) => Chr(c)
    case Ident(name) => Ident(name)
    case Hole(_) => Hole(k)
  }

  function NextNumber<H>(t: Token<H>, k: nat): nat {
    if t.Hole? then k + 1 else k
  }

  /** Puts the bound parameters into the numbered holes. */
  function Fill<V>(ns: seq<Token<nat>>, params: seq<V>): seq<Token<Option<V>>> {
    if ns == [] then [] else [FillToken(ns[0], params)] + Fill(ns[1..], params)
  }

  function FillToken<V>(t: Token<nat>, params: seq<V>): Token<Option<V>> {
    match t
    case Chr(c) => Chr(c)
    case Ident(name) => Ident(name)
    case Hole(i) => Hole(if i < |params| then Some(params[i]) else None)
  }

  function RenderToken(bt: Backend, t: Token<nat>): string {
    match t
    case Chr(c) => [c]
    case Ident(name) => Quote(bt) + name + Quote(bt)
    case Hole(i) => Placeholder(bt, i)
  }

  /** The text in a dialect. */
  function Render(bt: Backend, ts: seq<Token<nat>>): string {
    if ts == [] then "" else RenderToken(bt, ts[0]) + Render(bt, ts[1..])
  }

  // ----- Reading

  /** What a database sees: literal characters and resolved parameter indices. */
  datatype Piece = Lit(c: char) | Slot(index: int)

  function Lits(s: string): (ps: seq<Piece>) {
    seq(|s|, i requires 0 <= i < |s| => Lit(s[i]))
  }

  /** MySQL: the holes are counted. */
  function ReadMarks(text: string, next: nat): seq<Piece> {
    if text == "" then []
    else if text[0] == '?' then [Slot(next)] + ReadMarks(text[1..], next + 1)
    else [Lit(text[0])] + ReadMarks(text[1..], next)
  }

  /** A character that continues a name. */
  predicate NameChar(c: char) {
    IsDigit(c) || 'a' <= c <= 'z' || 'A' <= c <= 'Z' || c == '_' || c == '$' || c >= '\U{80}'
  }

  function NameRun(s: string): (n: nat)
    ensures n <= |s| && forall i :: 0 <= i < n ==> NameChar(s[i])
    ensures n < |s| ==> !NameChar(s[n])
  {
    if s == "" || !NameChar(s[0]) then 0 else 1 + NameRun(s[1..])
  }

  /** The characters that begin a named parameter in SQLite. */
  predicate Sigil(c: char) {
    c == ':' || c == '@' || c == '#' || c == '$'
  }

  /** SQLite: `?` is the parameter after the greatest one so far, `?5` is the fifth, and `:x`, `@x`, `#x` or
      `$x` is the one of its name, which is a new one where the name occurs first. A `$` may also stand inside
      a name; `inName` says whether one has begun. */
  function ReadSqlite(text: string, next: nat, names: map<string, nat>, inName: bool): seq<Piece>
    decreases |text|
  {
    if text == "" then []
    else if text[0] == '?' && DigitRun(text[1..]) == 0 then
      [Slot(next)] + ReadSqlite(text[1..], next + 1, names, false)
    else if text[0] == '?' then
      var n := DigitRun(text[1..]);
      var k := NatOf(text[1..][..n]);
      [Slot(k - 1)] + ReadSqlite(text[1 + n..], if k > next then k else next, names, false)
    else if Begins(text[0], inName) && NameRun(text[1..]) > 0 then
      var n := NameRun(text[1..]);
      var name := text[..1 + n];
      if name in names then [Slot(names[name])] + ReadSqlite(text[1 + n..], next, names, false)
      else [Slot(next)] + ReadSqlite(text[1 + n..], next + 1, names[name := next], false)
    else [Lit(text[0])] + ReadSqlite(text[1..], next, names, NameChar(text[0]))
  }

  predicate Begins(c: char, inName: bool) {
    Sigil(c) && !(c == '$' && inName)
  }

  function DigitRun(s: string): (n: nat)
    ensures n <= |s| && forall i :: 0 <= i < n ==> IsDigit(s[i])
    ensures n < |s| ==> !IsDigit(s[n])
  {
    if s == "" || !IsDigit(s[0]) then 0 else 1 + DigitRun(s[1..])
  }

  /** Postgres: a `$` and the digits after it name a parameter, counted from 1. */
  function ReadDollars(text: string): seq<Piece> {
    if text == "" then []
    else
      var n := DigitRun(text[1..]);
      if text[0] == '$' && n > 0 then
        [Slot(NatOf(text[1..][..n]) - 1)] + ReadDollars(text[1 + n..])
      else [Lit(text[0])] + ReadDollars(text[1..])
  }

  function Read(bt: Backend, text: string, next: nat): seq<Piece> {
    match bt
    case Postgres => ReadDollars(text)
    case Sqlite => ReadSqlite(text, next, map[], false)
    case Mysql => ReadMarks(text, next)
  }

  /** What the tokens mean, in a dialect's quotes. */
  function Meaning(bt: Backend, ts: seq<Token<nat>>): seq<Piece> {
    if ts == [] then []
    else
      (match ts[0]
       case Chr(c) => [Lit(c)]
       case Ident(name) => Lits(Quote(bt) + name + Quote(bt))
       case Hole(i) => [Slot(i)])
      + Meaning(bt, ts[1..])
  }

  /** The hole numbers of a reading, in order. */
  function Slots(ps: seq<Piece>): seq<int> {
    if ps == [] then []
    else if ps[0].Slot? then [ps[0].index] + Slots(ps[1..])
    else Slots(ps[1..])
  }

  /** Undoes the numbering: each hole becomes a `?` again. */
  function Unread(ps: seq<Piece>): string {
    if ps == [] then "" else [if ps[0].Lit? then ps[0].c else '?'] + Unread(ps[1..])
  }

  /** A character that cannot be taken for a part of a hole. */
  predicate PlainChar(bt: Backend, c: char) {
    match bt
    case Postgres => c != '$'
    case Sqlite => c != '?' && !Sigil(c)
    case Mysql => c != '?'
  }

  predicate Plain(bt: Backend, s: string) {
    forall i :: 0 <= i < |s| ==> PlainChar(bt, s[i])
  }

  /** No character or identifier looks like a hole, and no digit follows a hole (SQLite reads
      `?5` as parameter 5, Postgres would see a longer number). */
  predicate Clean<H>(bt: Backend, ts: seq<Token<H>>) {
    forall i :: 0 <= i < |ts| ==> CleanAt(bt, ts, i)
  }

  predicate CleanAt<H>(bt: Backend, ts: seq<Token<H>>, i: nat)
    requires i < |ts|
  {
    && (ts[i].Chr? ==> PlainChar(bt, ts[i].c))
    && (ts[i].Ident? ==> Plain(bt, ts[i].name))
    && (ts[i].Hole? && i + 1 < |ts| && ts[i + 1].Chr? ==> !IsDigit(ts[i + 1].c))
  }

  /** The holes are numbered from `next` on without a gap. */
  predicate InOrder(ts: seq<Token<nat>>, next: nat) {
    ts == [] ||
    if ts[0].Hole? then ts[0].h == next && InOrder(ts[1..], next + 1) else InOrder(ts[1..], next)
  }

  lemma {:induction false} ReadMarksPlain(a: string, b: string, next: nat)
    requires forall i :: 0 <= i < |a| ==> a[i] != '?'
    ensures ReadMarks(a + b, next) == Lits(a) + ReadMarks(b, next)
  {
    if a == "" {
      assert a + b == b;
    } else {
      assert (a + b)[1..] == a[1..] + b;
      ReadMarksPlain(a[1..], b, next);
      assert Lits(a) == [Lit(a[0])] + Lits(a[1..]);
    }
  }

  lemma {:induction false} ReadSqlitePlain(a: string, b: string, next: nat, names: map<string, nat>, inName: bool)
    requires forall i :: 0 <= i < |a| ==> a[i] != '?' && !Sigil(a[i])
    requires b != "" ==> b[0] != '$'
    ensures ReadSqlite(a + b, next, names, inName) == Lits(a) + ReadSqlite(b, next, names, false)
  {
    hide ReadSqlite;
    if a == "" {
      assert a + b == b;
      BeginsAlike(b, next, names, inName);
    } else {
      assert (a + b)[1..] == a[1..] + b;
      ReadSqliteLit(a + b, next, names, inName);
      ReadSqlitePlain(a[1..], b, next, names, NameChar(a[0]));
      assert Lits(a) == [Lit(a[0])] + Lits(a[1..]);
    }
  }

  lemma {:induction false} BeginsAlike(s: string, next: nat, names: map<string, nat>, inName: bool)
    requires s != "" ==> s[0] != '$'
    ensures ReadSqlite(s, next, names, inName) == ReadSqlite(s, next, names, false)
  {
    hide DigitRun, NatOf, NameRun;
  }

  lemma {:induction false} ReadSqliteLit(s: string, next: nat, names: map<string, nat>, inName: bool)
    requires s != "" && s[0] != '?' && !Sigil(s[0])
    ensures ReadSqlite(s, next, names, inName) == [Lit(s[0])] + ReadSqlite(s[1..], next, names, NameChar(s[0]))
  {
    hide DigitRun, NatOf, NameRun;
  }

  lemma {:induction false} ReadDollarsPlain(a: string, b: string)
    requires forall i :: 0 <= i < |a| ==> a[i] != '$'
    ensures ReadDollars(a + b) == Lits(a) + ReadDollars(b)
  {
    hide ReadDollars;
    if a == "" {
      assert a + b == b;
    } else {
      assert (a + b)[1..] == a[1..] + b;
      ReadLit(a + b);
      ReadDollarsPlain(a[1..], b);
      assert Lits(a) == [Lit(a[0])] + Lits(a[1..]);
    }
  }

  lemma {:induction false} ReadLit(s: string)
    requires s != "" && s[0] != '$'
    ensures ReadDollars(s) == [Lit(s[0])] + ReadDollars(s[1..])
  {
    hide DigitRun, NatOf;
  }

  lemma {:induction false} DigitRunEnds(d: string, rest: string)
    requires forall i :: 0 <= i < |d| ==> IsDigit(d[i])
    requires rest == "" || !IsDigit(rest[0])
    ensures DigitRun(d + rest) == |d|
  {
    assert forall i :: 0 <= i < |d| ==> (d + rest)[i] == d[i];
    assert rest != "" ==> (d + rest)[|d|] == rest[0];
  }

  lemma {:induction false} ReadDollarsHole(i: nat, rest: string)
    requires rest == "" || !IsDigit(rest[0])
    ensures ReadDollars(Placeholder(Postgres, i) + rest) == [Slot(i)] + ReadDollars(rest)
  {
    var d := Decimal(i + 1);
    var text := Placeholder(Postgres, i) + rest;
    assert text[1..] == d + rest;
    DigitRunEnds(d, rest);
    assert text[1..][..|d|] == d;
    assert text[1 + |d|..] == rest;
    NatOfDecimal(i + 1);
  }

  lemma {:induction false} RenderStart(bt: Backend, ts: seq<Token<nat>>)
    requires ts != []
    ensures ts[0].Chr? ==> Render(bt, ts)[0] == ts[0].c
    ensures !ts[0].Chr? ==> Render(bt, ts) != "" && !IsDigit(Render(bt, ts)[0])
  {}

  /** Reading undoes rendering: the database sees the tokens' meaning, in every dialect. */
  lemma {:induction false} ReadRender(bt: Backend, ts: seq<Token<nat>>, next: nat)
    requires Clean(bt, ts) && (!bt.Postgres? ==> InOrder(ts, next))
    ensures Read(bt, Render(bt, ts), next) == Meaning(bt, ts)
  {
    hide Read;
    if ts == [] {
      ReadNothing(bt, next);
    } else {
      var rest := ts[1..];
      var text := Render(bt, rest);
      CleanTail(bt, ts);
      if bt.Sqlite? { NoDollar(bt, rest); }
      ReadRender(bt, rest, if ts[0].Hole? then next + 1 else next);
      match ts[0]
      case Hole(i) =>
        if rest != [] { RenderStart(bt, rest); }
        ReadHole(bt, i, text, next);
      case Chr(c) =>
        ReadPlain(bt, [c], text, next);
        assert Lits([c]) == [Lit(c)];
      case Ident(name) =>
        ReadPlain(bt, Quote(bt) + name + Quote(bt), text, next);
    }
  }

  lemma {:induction false} ReadNothing(bt: Backend, next: nat)
    ensures Read(bt, "", next) == []
  {}

  lemma {:induction false} NoDollar(bt: Backend, ts: seq<Token<nat>>)
    requires Clean(bt, ts) && bt.Sqlite?
    ensures Render(bt, ts) != "" ==> Render(bt, ts)[0] != '$'
  {
    if ts != [] {
      RenderStart(bt, ts);
      assert CleanAt(bt, ts, 0);
    }
  }

  lemma {:induction false} CleanTail<H>(bt: Backend, ts: seq<Token<H>>)
    requires Clean(bt, ts) && ts != []
    ensures CleanAt(bt, ts, 0) && Clean(bt, ts[1..])
  {
    forall i | 0 <= i < |ts| - 1 ensures CleanAt(bt, ts[1..], i) {
      assert CleanAt(bt, ts, i + 1);
    }
  }

  lemma {:induction false} ReadHole(bt: Backend, i: nat, text: string, next: nat)
    requires (text == "" || !IsDigit(text[0])) && (!bt.Postgres? ==> i == next)
    ensures Read(bt, Placeholder(bt, i) + text, next)
            == [Slot(i)] + Read(bt, text, next + 1)
  {
    if bt.Postgres? {
      ReadDollarsHole(i, text);
    } else {
      assert ("?" + text)[1..] == text;
      assert DigitRun(text) == 0;
    }
  }

  lemma {:induction false} ReadPlain(bt: Backend, a: string, b: string, next: nat)
    requires Plain(bt, a) && (bt.Sqlite? && b != "" ==> b[0] != '$')
    ensures Read(bt, a + b, next) == Lits(a) + Read(bt, b, next)
  {
    match bt
    case Postgres => ReadDollarsPlain(a, b);
    case Sqlite => ReadSqlitePlain(a, b, next, map[], false);
    case Mysql => ReadMarksPlain(a, b, next);
  }

  lemma {:induction false} NumberInOrder<H>(ts: seq<Token<H>>, start: nat)
    ensures InOrder(Number(ts, start), start)
  {
    if ts != [] {
      NumberInOrder(ts[1..], if ts[0].Hole? then start + 1 else start);
    }
  }

  /** Numbering changes the holes only. */
  lemma {:induction false} NumberShape<H>(ts: seq<Token<H>>, start: nat)
    ensures forall i :: 0 <= i < |ts| ==>
              && (ts[i].Chr? ==> Number(ts, start)[i] == Chr(ts[i].c))
              && (ts[i].Ident? ==> Number(ts, start)[i] == Ident(ts[i].name))
              && (ts[i].Hole? ==> Number(ts, start)[i].Hole?)
  {
    if ts != [] {
      var next := if ts[0].Hole? then start + 1 else start;
      NumberShape(ts[1..], next);
      forall i | 0 < i < |ts|
        ensures Number(ts, start)[i] == Number(ts[1..], next)[i - 1] && ts[i] == ts[1..][i - 1]
      {}
    }
  }

  lemma {:induction false} NumberClean<H>(bt: Backend, ts: seq<Token<H>>, start: nat)
    requires Clean(bt, ts)
    ensures Clean(bt, Number(ts, start))
  {
    NumberShape(ts, start);
    forall i | 0 <= i < |ts| ensures CleanAt(bt, Number(ts, start), i) {
      assert CleanAt(bt, ts, i);
    }
  }

  function Range(from: nat, n: nat): (ks: seq<nat>)
    ensures |ks| == n && forall i :: 0 <= i < n ==> ks[i] == from + i
  {
    seq(n, i => from + i)
  }

  /** The numbered holes are start, start + 1, ... */
  lemma {:induction false} NumberedSlots<H>(bt: Backend, ts: seq<Token<H>>, start: nat)
    ensures Slots(Meaning(bt, Number(ts, start))) == Range(start, |Holes(ts)|)
  {
    if ts != [] {
      var next := if ts[0].Hole? then start + 1 else start;
      NumberedSlots(bt, ts[1..], next);
      var rest := Meaning(bt, Number(ts[1..], next));
      var all := Meaning(bt, Number(ts, start));
      assert Number(ts, start)[1..] == Number(ts[1..], next);
      match ts[0]
      case Chr(c) =>
        assert all == [Lit(c)] + rest;
        assert all[1..] == rest;
      case Ident(name) =>
        assert all == Lits(Quote(bt) + name + Quote(bt)) + rest;
        LitsNoSlots(Quote(bt) + name + Quote(bt), rest);
      case Hole(_) =>
        assert all == [Slot(start)] + rest;
        assert all[1..] == rest;
        RangeStep(start, |Holes(ts[1..])|);
    }
  }

  lemma {:induction false} RangeStep(from: nat, n: nat)
    ensures Range(from, n + 1) == [from] + Range(from + 1, n)
  {}

  lemma {:induction false} LitsNoSlots(s: string, ps: seq<Piece>)
    ensures Slots(Lits(s) + ps) == Slots(ps)
  {
    if s == "" {
      assert Lits(s) + ps == ps;
    } else {
      LitsNoSlots(s[1..], ps);
      assert (Lits(s) + ps)[1..] == Lits(s[1..]) + ps;
    }
  }

  // ----- Concatenation

  lemma {:induction false} NumberConcat<H>(a: seq<Token<H>>, b: seq<Token<H>>, start: nat)
    ensures Number(a + b, start) == Number(a, start) + Number(b, start + |Holes(a)|)
  {
    if a == [] {
      assert a + b == b;
    } else {
      assert (a + b)[1..] == a[1..] + b;
      NumberConcat(a[1..], b, NextNumber(a[0], start));
    }
  }

  lemma {:induction false} HolesConcat<H>(a: seq<Token<H>>, b: seq<Token<H>>)
    ensures Holes(a + b) == Holes(a) + Holes(b)
  {
    if a == [] {
      assert a + b == b;
    } else {
      assert (a + b)[1..] == a[1..] + b;
      HolesConcat(a[1..], b);
    }
  }

  lemma {:induction false} RenderConcat(bt: Backend, a: seq<Token<nat>>, b: seq<Token<nat>>)
    ensures Render(bt, a + b) == Render(bt, a) + Render(bt, b)
  {
    if a == [] {
      assert a + b == b;
    } else {
      assert (a + b)[1..] == a[1..] + b;
      RenderConcat(bt, a[1..], b);
    }
  }

  lemma {:induction false} RenderText(bt: Backend, s: string)
    ensures Render(bt, Text<nat>(s)) == s
  {
    var ts: seq<Token<nat>> := Text(s);
    if s == "" {
      assert ts == [];
    } else {
      var rest: seq<Token<nat>> := Text(s[1..]);
      RenderText(bt, s[1..]);
      assert Render(bt, rest) == s[1..];
      assert ts[1..] == rest;
      assert ts[0] == Chr(s[0]);
      assert Render(bt, ts) == [s[0]] + s[1..];
      assert s == [s[0]] + s[1..];
    }
  }

  lemma {:induction false} TextHasNoHoles<H>(s: string)
    ensures Holes<H>(Text(s)) == []
  {
    if s != "" {
      var ts: seq<Token<H>> := Text(s);
      assert ts[1..] == Text(s[1..]);
      TextHasNoHoles<H>(s[1..]);
    }
  }

  /** Filling numbered holes with the values meant for them gives back the tokens with those values. */
  lemma {:induction false} FillNumber<V>(ts: seq<Token<Option<V>>>, start: nat, params: seq<V>)
    requires start + |Holes(ts)| <= |params|
    requires forall i :: 0 <= i < |Holes(ts)| ==> Holes(ts)[i] == Some(params[start + i])
    ensures Fill(Number(ts, start), params) == ts
  {
    if ts != [] {
      var next := if ts[0].Hole? then start + 1 else start;
      if ts[0].Hole? {
        assert Holes(ts)[0] == ts[0].h;
        assert forall i :: 0 <= i < |Holes(ts[1..])| ==> Holes(ts[1..])[i] == Holes(ts)[i + 1];
      }
      FillNumber(ts[1..], next, params);
      assert Number(ts, start)[1..] == Number(ts[1..], next);
    }
  }
}
