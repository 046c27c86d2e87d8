/**
 What the database does with a statement: it reads the text and puts the parameters into the holes. When that
 is the statement meant.
*/
module Execution {
  import opened Common
  import opened SqlText
  import opened Builder
  import opened QueryCalls
  import opened Alignment

  /** A statement with its parameters in place. */
  datatype Bound = Char(c: char) | Val(v: Option<Value>)

  /** The value of a parameter, if it was bound. */
  function ValueAt(params: seq<Value>, i: int): Option<Value> {
    if 0 <= i < |params| then Some(params[i]) else None
  }

  function BindPiece(p: Piece, params: seq<Value>): Bound {
    match p
    case Lit(c) => Char(c)
    case Slot(i) => Val(ValueAt(params, i))
  }

  function BindPieces(ps: seq<Piece>, params: seq<Value>): (bs: seq<Bound>)
    ensures |bs| == |ps| && forall i :: 0 <= i < |ps| ==> bs[i] == BindPiece(ps[i], params)
  {
    seq(|ps|, i requires 0 <= i < |ps| => BindPiece(ps[i], params))
  }

  function Executed(bt: Backend, sql: string, params: seq<Value>): seq<Bound> {
    BindPieces(Read(bt, sql, 0), params)
  }

  /** What the database sees of tokens with their values. */
  function Seen(bt: Backend, ts: seq<Tok>): seq<Bound> {
    if ts == [] then []
    else
      (match ts[0]
       case Chr(c) => [Char(c)]
       case Ident(name) => BindPieces(Lits(Quoted(bt, name)), [])
       case Hole(v) => [Val(v)])
      + Seen(bt, ts[1..])
  }

  lemma {:induction false} BindConcat(a: seq<Piece>, b: seq<Piece>, params: seq<Value>)
    ensures BindPieces(a + b, params) == BindPieces(a, params) + BindPieces(b, params)
  {}

  lemma {:induction false} BindLits(s: string, params: seq<Value>)
    ensures BindPieces(Lits(s), params) == BindPieces(Lits(s), [])
  {}

  lemma {:induction false} BindMeaning(bt: Backend, ns: seq<Token<nat>>, params: seq<Value>)
    ensures BindPieces(Meaning(bt, ns), params) == Seen(bt, Fill(ns, params))
  {
    if ns != [] {
      BindMeaning(bt, ns[1..], params);
      var rest := Meaning(bt, ns[1..]);
      assert Fill(ns, params)[1..] == Fill(ns[1..], params);
      match ns[0]
      case Chr(c) =>
        BindConcat([Lit(c)], rest, params);
        assert BindPieces([Lit(c)], params) == [Char(c)];
      case Ident(name) =>
        BindConcat(Lits(Quoted(bt, name)), rest, params);
        BindLits(Quoted(bt, name), params);
      case Hole(i) =>
        BindConcat([Slot(i)], rest, params);
        assert BindPieces([Slot(i)], params) == [Val(ValueAt(params, i))];
    }
  }

  // ----- Statements of the same shape

  lemma {:induction false} EraseTail<H, K>(a: seq<Token<H>>, b: seq<Token<K>>)
    requires a != [] && Erase(a) == Erase(b)
    ensures b != [] && Erase(a[1..]) == Erase(b[1..]) && Forget(a[0]) == Forget(b[0])
  {
    assert Erase(a)[0] == Forget(a[0]) && Erase(b)[0] == Forget(b[0]);
    forall i | 0 <= i < |a| - 1 ensures Forget(a[1..][i]) == Forget(b[1..][i]) {
      assert Erase(a)[i + 1] == Forget(a[i + 1]) && Erase(b)[i + 1] == Forget(b[i + 1]);
    }
    assert |Erase(a)| == |Erase(b)|;
  }

  lemma {:induction false} EraseConcat<H>(a: seq<Token<H>>, b: seq<Token<H>>)
    ensures Erase(a + b) == Erase(a) + Erase(b)
  {}

  lemma {:induction false} EraseFill(ns: seq<Token<nat>>, params: seq<Value>)
    ensures Erase(Fill(ns, params)) == Erase(ns)
  {
    if ns != [] {
      EraseFill(ns[1..], params);
      var fs := Fill(ns, params);
      assert fs[1..] == Fill(ns[1..], params);
      EraseConcat([fs[0]], fs[1..]);
      EraseConcat([ns[0]], ns[1..]);
      assert [fs[0]] + fs[1..] == fs && [ns[0]] + ns[1..] == ns;
    }
  }

  lemma {:induction false} EraseOfNumber<H>(ts: seq<Token<H>>, start: nat)
    ensures Erase(Number(ts, start)) == Erase(ts)
  {
    if ts != [] {
      var next := NextNumber(ts[0], start);
      EraseOfNumber(ts[1..], next);
      EraseConcat([NumberToken(ts[0], start)], Number(ts[1..], next));
      EraseConcat([ts[0]], ts[1..]);
      assert [ts[0]] + ts[1..] == ts;
    }
  }

  /** Equal shape, equal number of holes. */
  lemma {:induction false} SameHoleCount<H, K>(a: seq<Token<H>>, b: seq<Token<K>>)
    requires Erase(a) == Erase(b)
    ensures |Holes(a)| == |Holes(b)|
  {
    if a != [] {
      EraseTail(a, b);
      SameHoleCount(a[1..], b[1..]);
    } else {
      assert |Erase(b)| == 0;
    }
  }

  /** The database can tell two statements of the same shape apart by their values. */
  lemma {:induction false} SeenExactly(bt: Backend, a: seq<Tok>, b: seq<Tok>)
    requires Erase(a) == Erase(b)
    ensures Seen(bt, a) == Seen(bt, b) <==> a == b
  {
    if a != [] {
      EraseTail(a, b);
      SeenExactly(bt, a[1..], b[1..]);
      assert a == [a[0]] + a[1..] && b == [b[0]] + b[1..];
      if a[0].Hole? {
        assert Seen(bt, a)[0] == Val(a[0].h) && Seen(bt, b)[0] == Val(b[0].h);
        assert Seen(bt, a)[1..] == Seen(bt, a[1..]) && Seen(bt, b)[1..] == Seen(bt, b[1..]);
      } else {
        SamePrefix(bt, a, b);
      }
    } else {
      assert |Erase(b)| == 0;
    }
  }

  lemma {:induction false} SamePrefix(bt: Backend, a: seq<Tok>, b: seq<Tok>)
    requires a != [] && b != [] && a[0] == b[0] && !a[0].Hole?
    ensures Seen(bt, a) == Seen(bt, b) <==> Seen(bt, a[1..]) == Seen(bt, b[1..])
  {
    var p := if a[0].Chr? then [Char(a[0].c)] else BindPieces(Lits(Quoted(bt, a[0].name)), []);
    assert Seen(bt, a) == p + Seen(bt, a[1..]) && Seen(bt, b) == p + Seen(bt, b[1..]);
    assert Seen(bt, a)[|p|..] == Seen(bt, a[1..]) && Seen(bt, b)[|p|..] == Seen(bt, b[1..]);
  }

  /** The values found through the numbers `ks` are those meant. */
  predicate Found(ks: seq<nat>, hs: seq<Option<Value>>, params: seq<Value>)
    requires |ks| == |hs|
  {
    forall k :: 0 <= k < |ks| ==> ValueAt(params, ks[k]) == hs[k]
  }

  lemma {:induction false} FoundStep(k: nat, ks: seq<nat>, h: Option<Value>, hs: seq<Option<Value>>, params: seq<Value>)
    requires |ks| == |hs|
    ensures Found([k] + ks, [h] + hs, params) <==> ValueAt(params, k) == h && Found(ks, hs, params)
  {
    var all, meant := [k] + ks, [h] + hs;
    assert forall i :: 0 <= i < |ks| ==> all[i + 1] == ks[i] && meant[i + 1] == hs[i];
    if Found(all, meant, params) {
      assert ValueAt(params, all[0]) == meant[0];
      forall i | 0 <= i < |ks| ensures ValueAt(params, ks[i]) == hs[i] {
        assert ValueAt(params, all[i + 1]) == meant[i + 1];
      }
    }
  }

  /** Filling the holes gives the tokens meant exactly when every number leads to the value meant. */
  lemma {:induction false} FilledExactly(ns: seq<Token<nat>>, ts: seq<Tok>, params: seq<Value>)
    requires Erase(ns) == Erase(ts)
    ensures |Holes(ns)| == |Holes(ts)|
    ensures Fill(ns, params) == ts <==> Found(Holes(ns), Holes(ts), params)
  {
    SameHoleCount(ns, ts);
    if ns != [] {
      EraseTail(ns, ts);
      FilledExactly(ns[1..], ts[1..], params);
      assert Fill(ns, params) == ts <==> FillToken(ns[0], params) == ts[0] && Fill(ns[1..], params) == ts[1..] by {
        assert Fill(ns, params)[1..] == Fill(ns[1..], params) && ts == [ts[0]] + ts[1..];
      }
      if ns[0].Hole? {
        FoundStep(ns[0].h, Holes(ns[1..]), ts[0].h, Holes(ts[1..]), params);
      }
    } else {
      assert |Erase(ts)| == 0;
    }
  }

  /** The database sees the statement meant exactly when every number leads to the value meant. */
  lemma {:induction false} SaysExactly(bt: Backend, ns: seq<Token<nat>>, ts: seq<Tok>, params: seq<Value>)
    requires Erase(ns) == Erase(ts)
    ensures |Holes(ns)| == |Holes(ts)|
    ensures BindPieces(Meaning(bt, ns), params) == Seen(bt, ts) <==> Found(Holes(ns), Holes(ts), params)
  {
    BindMeaning(bt, ns, params);
    EraseFill(ns, params);
    SeenExactly(bt, Fill(ns, params), ts);
    FilledExactly(ns, ts, params);
  }

  // ----- Which parameters the holes name

  lemma {:induction false} NumberHoles<H>(ts: seq<Token<H>>, start: nat)
    ensures Holes(Number(ts, start)) == Range(start, |Holes(ts)|)
  {
    if ts != [] {
      NumberHoles(ts[1..], NextNumber(ts[0], start));
      assert Number(ts, start)[1..] == Number(ts[1..], NextNumber(ts[0], start));
    }
  }

  /** The database reads the holes of the tokens. */
  lemma {:induction false} SlotsAreHoles(bt: Backend, ns: seq<Token<nat>>)
    ensures Slots(Meaning(bt, ns)) == Holes(ns)
  {
    if ns != [] {
      SlotsAreHoles(bt, ns[1..]);
      if ns[0].Ident? {
        LitsNoSlots(Quoted(bt, ns[0].name), Meaning(bt, ns[1..]));
      } else {
        assert Meaning(bt, ns)[1..] == Meaning(bt, ns[1..]);
      }
    }
  }
}
