/**
 What the statement cache holds, read off the trace alone: which uses are remembered at a given time, and that
 the cache keeps exactly those that were never pushed out by the capacity.
*/
module LruTrace {
  import opened Lru

  // ----- Recency on the trace

  /** The use at `j` is the last operation on its key before time `n`, so the key is live at `n`. */
  predicate LiveAt(trace: seq<Op>, n: nat, j: nat) {
    j < n <= |trace| && trace[j].Use? && forall l :: j < l < n ==> trace[l].sql != trace[j].sql
  }

  /** How many keys are live at `n` with their last use after `j` and before `l`. */
  function Newer(trace: seq<Op>, n: nat, j: nat, l: nat): nat {
    if l <= j + 1 then 0 else Newer(trace, n, j, l - 1) + if LiveAt(trace, n, l - 1) then 1 else 0
  }

  /** The key last used at `j` is live at `n`, and at no time since then were `c` other live keys more recent. */
  ghost predicate Kept(c: nat, trace: seq<Op>, n: nat, j: nat) {
    LiveAt(trace, n, j) && forall m :: j < m <= n ==> Newer(trace, m, j, m) < c
  }

  /** The last uses before `l` that are kept at `n`, the latest first. */
  ghost function KeptUses(c: nat, trace: seq<Op>, n: nat, l: nat): (js: seq<nat>)
    requires l <= |trace|
    ensures forall p :: 0 <= p < |js| ==> js[p] < l
  {
    if l == 0 then []
    else if Kept(c, trace, n, l - 1) then [l - 1] + KeptUses(c, trace, n, l - 1)
    else KeptUses(c, trace, n, l - 1)
  }

  // ----- Counting

  /** One operation later its own key has moved, or is gone, and the others are as they were. */
  lemma {:induction false} LiveNext(trace: seq<Op>, n: nat, j: nat)
    requires n < |trace| && j < n
    ensures LiveAt(trace, n + 1, j) <==> LiveAt(trace, n, j) && trace[j].sql != trace[n].sql
  {}

  lemma {:induction false} NewerShrinks(trace: seq<Op>, n: nat, i: nat, j: nat, l: nat)
    requires i <= j
    ensures Newer(trace, n, j, l) <= Newer(trace, n, i, l)
  {
    hide LiveAt;
    if l > j + 1 {
      NewerShrinks(trace, n, i, j, l - 1);
    }
  }

  lemma {:induction false} NewerWithout(trace: seq<Op>, n: nat, j: nat, l: nat)
    requires l <= n < |trace|
    requires forall x :: j < x < l && LiveAt(trace, n, x) ==> trace[x].sql != trace[n].sql
    ensures Newer(trace, n + 1, j, l) == Newer(trace, n, j, l)
  {
    hide LiveAt;
    if l > j + 1 {
      NewerWithout(trace, n, j, l - 1);
      LiveNext(trace, n, l - 1);
    }
  }

  lemma {:induction false} NewerWith(trace: seq<Op>, n: nat, j: nat, l: nat, x: nat)
    requires l <= n < |trace| && j < x < l && LiveAt(trace, n, x) && trace[x].sql == trace[n].sql
    ensures Newer(trace, n + 1, j, l) == Newer(trace, n, j, l) - 1
  {
    LiveNext(trace, n, l - 1);
    if x < l - 1 {
      NewerWith(trace, n, j, l - 1, x);
    } else {
      assert forall y :: j < y < x && LiveAt(trace, n, y) ==> trace[y].sql != trace[x].sql;
      NewerWithout(trace, n, j, l - 1);
    }
  }

  /** The count never grows by an operation, except by the key that is used. */
  lemma {:induction false} NewerNext(trace: seq<Op>, n: nat, j: nat)
    requires j < n < |trace|
    ensures Newer(trace, n + 1, j, n) <= Newer(trace, n, j, n)
    ensures Newer(trace, n + 1, j, n + 1) == Newer(trace, n + 1, j, n) + if trace[n].Use? then 1 else 0
  {
    if x :| j < x < n && LiveAt(trace, n, x) && trace[x].sql == trace[n].sql {
      NewerWith(trace, n, j, n, x);
    } else {
      NewerWithout(trace, n, j, n);
    }
  }

  // ----- What is kept

  predicate Falling(js: seq<nat>) {
    forall p, q :: 0 <= p < q < |js| ==> js[p] > js[q]
  }

  lemma {:induction false} KeptUsesAre(c: nat, trace: seq<Op>, n: nat, l: nat)
    requires l <= |trace|
    ensures forall j: nat :: j in KeptUses(c, trace, n, l) <==> j < l && Kept(c, trace, n, j)
    ensures Falling(KeptUses(c, trace, n, l))
  {
    hide Kept;
    if l > 0 {
      KeptUsesAre(c, trace, n, l - 1);
    }
  }

  /** Whatever is live and more recent than something kept is kept. */
  lemma {:induction false} KeptAbove(c: nat, trace: seq<Op>, n: nat, i: nat, j: nat)
    requires Kept(c, trace, n, i) && LiveAt(trace, n, j) && i <= j
    ensures Kept(c, trace, n, j)
  {
    hide LiveAt;
    forall m | j < m <= n ensures Newer(trace, m, j, m) < c {
      NewerShrinks(trace, m, i, j, m);
    }
  }

  /** The position of a kept use is the number of keys more recent than it. */
  lemma {:induction false} Position(c: nat, trace: seq<Op>, n: nat, j: nat, l: nat)
    requires Kept(c, trace, n, j) && j < l <= n <= |trace|
    ensures Newer(trace, n, j, l) < |KeptUses(c, trace, n, l)|
    ensures KeptUses(c, trace, n, l)[Newer(trace, n, j, l)] == j
  {
    hide LiveAt, Kept, KeptUses, Newer;
    KeptUsesStep(c, trace, n, l);
    if l > j + 1 {
      Position(c, trace, n, j, l - 1);
      NewerCounts(trace, n, j, l);
      if LiveAt(trace, n, l - 1) {
        KeptAbove(c, trace, n, j, l - 1);
      }
    } else {
      NoneNewer(trace, n, j);
    }
  }

  lemma {:induction false} KeptUsesStep(c: nat, trace: seq<Op>, n: nat, l: nat)
    requires 0 < l <= |trace|
    ensures KeptUses(c, trace, n, l)
            == (if Kept(c, trace, n, l - 1) then [l - 1] else []) + KeptUses(c, trace, n, l - 1)
    ensures Kept(c, trace, n, l - 1) ==> LiveAt(trace, n, l - 1)
  {}

  lemma {:induction false} NewerCounts(trace: seq<Op>, n: nat, j: nat, l: nat)
    requires l > j + 1
    ensures Newer(trace, n, j, l) == Newer(trace, n, j, l - 1) + if LiveAt(trace, n, l - 1) then 1 else 0
  {}

  lemma {:induction false} NoneNewer(trace: seq<Op>, n: nat, j: nat)
    ensures Newer(trace, n, j, j + 1) == 0
  {}

  lemma {:induction false} PositionOf(c: nat, trace: seq<Op>, n: nat, p: nat)
    requires n <= |trace| && p < |KeptUses(c, trace, n, n)|
    ensures Newer(trace, n, KeptUses(c, trace, n, n)[p], n) == p && p < c
  {
    hide LiveAt, Newer;
    var js := KeptUses(c, trace, n, n);
    KeptUsesAre(c, trace, n, n);
    assert js[p] in js;
    Position(c, trace, n, js[p], n);
    FallingOnce(js, p, Newer(trace, n, js[p], n));
  }

  lemma {:induction false} FallingOnce(js: seq<nat>, p: nat, q: nat)
    requires Falling(js) && p < |js| && q < |js| && js[p] == js[q]
    ensures p == q
  {}

  lemma {:induction false} Member(s: seq<nat>)
    requires s != []
    ensures exists j :: j in s
  {
    assert s[0] in s;
  }

  /** A falling sequence is given by its members. */
  lemma {:induction false} SameFalling(a: seq<nat>, b: seq<nat>)
    requires Falling(a) && Falling(b) && forall j :: j in a <==> j in b
    ensures a == b
  {
    if a == [] {
      if b != [] {
        Member(b);
      }
    } else {
      assert a[0] in b && (b != [] ==> b[0] in a);
      var u, v := a[1..], b[1..];
      assert a[0] == b[0];
      forall j ensures j in u <==> j in v {
        if j in u {
          assert j in a && j != a[0];
        }
        if j in v {
          assert j in b && j != b[0];
        }
      }
      SameFalling(u, v);
    }
  }

  lemma {:induction false} ListsKept(c: nat, trace: seq<Op>, n: nat, l: nat, js: seq<nat>)
    requires l <= |trace| && Falling(js)
    requires forall j: nat :: j in js <==> j < l && Kept(c, trace, n, j)
    ensures KeptUses(c, trace, n, l) == js
  {
    KeptUsesAre(c, trace, n, l);
    hide Kept, KeptUses;
    SameFalling(KeptUses(c, trace, n, l), js);
  }

  // ----- One operation

  lemma {:induction false} KeptNext(c: nat, trace: seq<Op>, n: nat, j: nat)
    requires n < |trace| && j < n
    ensures Kept(c, trace, n + 1, j)
            <==> Kept(c, trace, n, j) && trace[j].sql != trace[n].sql && Newer(trace, n + 1, j, n + 1) < c
  {
    LiveNext(trace, n, j);
    hide LiveAt, Newer;
  }

  /** A key that is dropped leaves the others. */
  lemma {:induction false} DropKeeps(c: nat, trace: seq<Op>, n: nat, j: nat)
    requires n < |trace| && j < n && Kept(c, trace, n, j) && trace[j].sql != trace[n].sql && trace[n].Drop?
    ensures Kept(c, trace, n + 1, j)
  {
    NewerNext(trace, n, j);
    KeptNext(c, trace, n, j);
  }

  /** A kept key that is used again pushes nothing out. */
  lemma {:induction false} HitKeeps(c: nat, trace: seq<Op>, n: nat, j: nat, x: nat)
    requires n < |trace| && j < n && Kept(c, trace, n, j) && trace[j].sql != trace[n].sql && trace[n].Use?
    requires x < n && Kept(c, trace, n, x) && trace[x].sql == trace[n].sql
    ensures Kept(c, trace, n + 1, j)
  {
    NewerNext(trace, n, j);
    KeptNext(c, trace, n, j);
    if j < x {
      NewerWith(trace, n, j, n, x);
    } else {
      NewerStep(trace, n, x, j, n);
    }
  }

  lemma {:induction false} NewerStep(trace: seq<Op>, n: nat, i: nat, j: nat, l: nat)
    requires i < j < l && LiveAt(trace, n, j)
    ensures Newer(trace, n, j, l) + 1 <= Newer(trace, n, i, l)
  {
    hide LiveAt;
    if l > j + 1 {
      NewerStep(trace, n, i, j, l - 1);
    }
  }

  /** Another key moves every kept one down by one place. */
  lemma {:induction false} MissKeeps(c: nat, trace: seq<Op>, n: nat, j: nat)
    requires n < |trace| && j < n && Kept(c, trace, n, j) && trace[n].Use?
    requires forall x :: 0 <= x < n && Kept(c, trace, n, x) ==> trace[x].sql != trace[n].sql
    ensures Kept(c, trace, n + 1, j) <==> Newer(trace, n, j, n) + 1 < c
  {
    forall x | j < x < n && LiveAt(trace, n, x) ensures trace[x].sql != trace[n].sql {
      KeptAbove(c, trace, n, j, x);
    }
    NewerWithout(trace, n, j, n);
    NewerNext(trace, n, j);
    KeptNext(c, trace, n, j);
  }

  // ----- The cache

  /** The keys of the entries are those of the uses at `js`, in order. */
  predicate Holds(es: seq<Entry>, trace: seq<Op>, js: seq<nat>) {
    |es| == |js| && forall p :: 0 <= p < |js| ==> js[p] < |trace| && es[p].sql == trace[js[p]].sql
  }

  lemma {:induction false} FallingWithout(js: seq<nat>, p: nat)
    requires Falling(js) && p < |js|
    ensures Falling(Without(js, p)) && forall j :: j in Without(js, p) <==> j in js && j != js[p]
  {
    var us := Without(js, p);
    forall j | j in js && j != js[p] ensures j in us {
      var q :| 0 <= q < |js| && js[q] == j;
      assert us[if q < p then q else q - 1] == j;
    }
  }

  /** The kept uses of other keys. */
  function Others(js: seq<nat>, i: nat): seq<nat> {
    if i < |js| then Without(js, i) else js
  }

  lemma {:induction false} OthersAre(c: nat, trace: seq<Op>, n: nat, es: seq<Entry>)
    requires n < |trace| && Holds(es, trace, KeptUses(c, trace, n, n))
    ensures var us := Others(KeptUses(c, trace, n, n), Find(es, trace[n].sql));
            Falling(us) && forall j: nat :: j in us <==> j < n && Kept(c, trace, n, j) && trace[j].sql != trace[n].sql
  {
    var js, i := KeptUses(c, trace, n, n), Find(es, trace[n].sql);
    KeptUsesAre(c, trace, n, n);
    hide KeptUses, Find, Newer;
    if i < |js| {
      FallingWithout(js, i);
      assert js[i] in js && trace[js[i]].sql == trace[n].sql;
      forall j: nat | j in js && j != js[i] ensures trace[j].sql != trace[n].sql {
        LiveOther(trace, n, j, js[i]);
      }
    } else {
      forall j: nat | j in js ensures trace[j].sql != trace[n].sql {
        var p :| 0 <= p < |js| && js[p] == j;
        assert es[p].sql == trace[j].sql;
      }
    }
  }

  lemma {:induction false} LiveOther(trace: seq<Op>, n: nat, i: nat, j: nat)
    requires LiveAt(trace, n, i) && LiveAt(trace, n, j) && i != j
    ensures trace[i].sql != trace[j].sql
  {}

  lemma {:induction false} KeptNow(c: nat, trace: seq<Op>, n: nat)
    requires n < |trace| && c > 0
    ensures Kept(c, trace, n + 1, n) <==> trace[n].Use?
  {}

  /** After dropping a key. */
  lemma {:induction false} DropLists(c: nat, trace: seq<Op>, n: nat, us: seq<nat>)
    requires c > 0 && n < |trace| && trace[n].Drop? && Falling(us)
    requires forall j: nat :: j in us <==> j < n && Kept(c, trace, n, j) && trace[j].sql != trace[n].sql
    ensures KeptUses(c, trace, n + 1, n + 1) == us
  {
    hide Kept, Falling;
    KeptNow(c, trace, n);
    forall j: nat ensures j in us <==> j < n + 1 && Kept(c, trace, n + 1, j) {
      if j < n {
        KeptNext(c, trace, n, j);
        if j in us { DropKeeps(c, trace, n, j); }
      }
    }
    ListsKept(c, trace, n + 1, n + 1, us);
  }

  /** After using a key that is there. */
  lemma {:induction false} HitLists(c: nat, trace: seq<Op>, n: nat, us: seq<nat>, x: nat)
    requires c > 0 && n < |trace| && trace[n].Use? && Falling(us)
    requires forall j: nat :: j in us <==> j < n && Kept(c, trace, n, j) && trace[j].sql != trace[n].sql
    requires x < n && Kept(c, trace, n, x) && trace[x].sql == trace[n].sql
    ensures KeptUses(c, trace, n + 1, n + 1) == [n] + us
  {
    hide Kept;
    KeptNow(c, trace, n);
    forall j: nat ensures j in [n] + us <==> j < n + 1 && Kept(c, trace, n + 1, j) {
      if j < n {
        KeptNext(c, trace, n, j);
        if j in us { HitKeeps(c, trace, n, j, x); }
      }
    }
    FallingMore(n, us);
    ListsKept(c, trace, n + 1, n + 1, [n] + us);
  }

  lemma {:induction false} FallingMore(n: nat, us: seq<nat>)
    requires Falling(us) && forall j :: j in us ==> j < n
    ensures Falling([n] + us)
  {
    assert forall p :: 0 <= p < |us| ==> us[p] in us;
  }

  /** After using a key that is not there: it pushes out the last one of a full cache. */
  lemma {:induction false} MissLists(c: nat, trace: seq<Op>, n: nat)
    requires c > 0 && n < |trace| && trace[n].Use?
    requires forall x: nat :: x < n && Kept(c, trace, n, x) ==> trace[x].sql != trace[n].sql
    ensures var js := KeptUses(c, trace, n, n);
            && |js| <= c
            && KeptUses(c, trace, n + 1, n + 1) == [n] + if |js| < c then js else js[..c - 1]
  {
    hide Newer, LiveAt;
    var js := KeptUses(c, trace, n, n);
    KeptUsesAre(c, trace, n, n);
    KeptNow(c, trace, n);
    hide Kept, KeptUses;
    if js != [] {
      PositionOf(c, trace, n, |js| - 1);
    }
    var us := if |js| < c then js else js[..c - 1];
    forall j: nat ensures j in [n] + us <==> j < n + 1 && Kept(c, trace, n + 1, j) {
      if j < n {
        KeptNext(c, trace, n, j);
        if j in js {
          MissMember(c, trace, n, j);
        }
      }
    }
    FallingMore(n, us);
    ListsKept(c, trace, n + 1, n + 1, [n] + us);
  }

  lemma {:induction false} MissMember(c: nat, trace: seq<Op>, n: nat, j: nat)
    requires c > 0 && n < |trace| && trace[n].Use?
    requires forall x: nat :: x < n && Kept(c, trace, n, x) ==> trace[x].sql != trace[n].sql
    requires j in KeptUses(c, trace, n, n) && |KeptUses(c, trace, n, n)| <= c
    ensures var js := KeptUses(c, trace, n, n);
            Kept(c, trace, n + 1, j) <==> j in if |js| < c then js else js[..c - 1]
  {
    var js := KeptUses(c, trace, n, n);
    KeptUsesAre(c, trace, n, n);
    hide Kept, KeptUses, Newer;
    var p :| 0 <= p < |js| && js[p] == j;
    PositionOf(c, trace, n, p);
    MissKeeps(c, trace, n, j);
    if |js| == c {
      MemberAt(js, c - 1, p);
    }
  }

  lemma {:induction false} MemberAt(js: seq<nat>, k: nat, p: nat)
    requires Falling(js) && k <= |js| && p < |js|
    ensures js[p] in js[..k] <==> p < k
  {
    if p < k {
      assert js[..k][p] == js[p];
    }
  }

  /** The entries follow the trace. */
  lemma {:induction false} StepHolds(c: nat, trace: seq<Op>, n: nat, es: seq<Entry>, next: Handle)
    requires c > 0 && n < |trace| && Holds(es, trace, KeptUses(c, trace, n, n))
    ensures Holds(Step(c, es, trace[n], next), trace, KeptUses(c, trace, n + 1, n + 1))
  {
    var js, i := KeptUses(c, trace, n, n), Find(es, trace[n].sql);
    OthersAre(c, trace, n, es);
    KeptUsesAre(c, trace, n, n);
    hide Kept, KeptUses, Find, Others, Remove, Touch, Put, Falling;
    if trace[n].Drop? {
      DropLists(c, trace, n, Others(js, i));
      HoldsOthers(es, trace, js, trace[n].sql);
    } else if i < |es| {
      assert js[i] in js;
      HitLists(c, trace, n, Others(js, i), js[i]);
      HoldsTouched(es, trace, js, n);
    } else {
      AllOther(c, trace, n, es, js);
      MissLists(c, trace, n);
      HoldsPut(c, es, trace, js, n, next);
    }
  }

  lemma {:induction false} AllOther(c: nat, trace: seq<Op>, n: nat, es: seq<Entry>, js: seq<nat>)
    requires n < |trace| && Find(es, trace[n].sql) == |es| && Holds(es, trace, js)
    requires forall j: nat :: j in js <==> j < n && Kept(c, trace, n, j)
    ensures forall x: nat :: x < n && Kept(c, trace, n, x) ==> trace[x].sql != trace[n].sql
  {
    hide Kept, Find;
    forall x: nat | x < n && Kept(c, trace, n, x) ensures trace[x].sql != trace[n].sql {
      assert x in js;
      var p :| 0 <= p < |js| && js[p] == x;
      assert es[p].sql == trace[x].sql;
    }
  }

  lemma {:induction false} HoldsOthers(es: seq<Entry>, trace: seq<Op>, js: seq<nat>, sql: string)
    requires Holds(es, trace, js)
    ensures Holds(Remove(es, sql), trace, Others(js, Find(es, sql)))
  {
    hide Find, Without;
    if Find(es, sql) < |es| {
      HoldsWithout(es, trace, js, Find(es, sql));
    }
  }

  lemma {:induction false} HoldsWithout(es: seq<Entry>, trace: seq<Op>, js: seq<nat>, i: nat)
    requires Holds(es, trace, js) && i < |es|
    ensures Holds(Without(es, i), trace, Without(js, i))
  {
    forall p | 0 <= p < |es| - 1
      ensures Without(js, i)[p] < |trace| && Without(es, i)[p].sql == trace[Without(js, i)[p]].sql
    {
      var q := if p < i then p else p + 1;
      assert Without(es, i)[p] == es[q] && Without(js, i)[p] == js[q];
    }
  }

  lemma {:induction false} HoldsTouched(es: seq<Entry>, trace: seq<Op>, js: seq<nat>, n: nat)
    requires n < |trace| && Holds(es, trace, js) && Find(es, trace[n].sql) < |es|
    ensures Holds(Touch(es, trace[n].sql), trace, [n] + Others(js, Find(es, trace[n].sql)))
  {
    hide Find;
    var i := Find(es, trace[n].sql);
    HoldsMoved(es, trace, js, n, i);
  }

  lemma {:induction false} HoldsMoved(es: seq<Entry>, trace: seq<Op>, js: seq<nat>, n: nat, i: nat)
    requires n < |trace| && Holds(es, trace, js) && i < |es| && es[i].sql == trace[n].sql
    ensures Holds(ToFront(es, i), trace, [n] + Without(js, i))
  {
    var fs, ks := ToFront(es, i), [n] + Without(js, i);
    forall p | 0 <= p < |ks| ensures ks[p] < |trace| && fs[p].sql == trace[ks[p]].sql {
      if 0 < p <= i {
        assert fs[p] == es[p - 1] && ks[p] == js[p - 1];
      } else if p > i {
        assert fs[p] == es[p] && ks[p] == js[p];
      }
    }
  }

  lemma {:induction false} HoldsPut(c: nat, es: seq<Entry>, trace: seq<Op>, js: seq<nat>, n: nat, next: Handle)
    requires c > 0 && n < |trace| && Holds(es, trace, js) && Find(es, trace[n].sql) == |es| && |js| <= c
    ensures Holds(Put(c, es, trace[n].sql, next), trace, [n] + if |js| < c then js else js[..c - 1])
  {
    var k := if |js| < c then |js| else c - 1;
    HoldsFront(es, trace, js, n, next, k);
    hide Find, Touch, Holds;
    assert es[..|es|] == es && js[..|js|] == js;
  }

  lemma {:induction false} HoldsFront(es: seq<Entry>, trace: seq<Op>, js: seq<nat>, n: nat, next: Handle, k: nat)
    requires n < |trace| && Holds(es, trace, js) && k <= |js|
    ensures |es| == |js| && Holds([Entry(trace[n].sql, next)] + es[..k], trace, [n] + js[..k])
  {
    var fs, us := [Entry(trace[n].sql, next)] + es[..k], [n] + js[..k];
    forall p | 0 <= p < |us| ensures us[p] < |trace| && fs[p].sql == trace[us[p]].sql {
      if p > 0 {
        assert us[p] == js[p - 1] && fs[p] == es[p - 1];
      }
    }
  }

  /** What the cache holds after a trace is read off the trace: the keys whose last use is kept, the latest
      first. */
  lemma {:induction false} HoldsKept(c: nat, trace: seq<Op>, n: nat)
    requires c > 0 && n <= |trace|
    ensures Holds(After(c, trace[..n]).entries, trace, KeptUses(c, trace, n, n))
  {
    if n > 0 {
      HoldsKept(c, trace, n - 1);
      assert trace[..n][..n - 1] == trace[..n - 1];
      hide KeptUses, Step, Holds;
      StepHolds(c, trace, n - 1, After(c, trace[..n - 1]).entries, After(c, trace[..n - 1]).misses);
    }
  }

  /** A lookup hits exactly if the key was used since it was last dropped and, at every point since its last
      use, fewer than `c` other live keys were more recent. */
  lemma {:induction false} HitsExactly(c: nat, trace: seq<Op>, sql: string)
    requires c > 0
    ensures Hits(After(c, trace).entries, Use(sql))
            <==> exists j :: 0 <= j < |trace| && trace[j].sql == sql && Kept(c, trace, |trace|, j)
  {
    var n := |trace|;
    assert trace[..n] == trace;
    HoldsKept(c, trace, n);
    KeptUsesAre(c, trace, n, n);
    var es, js := After(c, trace).entries, KeptUses(c, trace, n, n);
    hide Kept, KeptUses, After;
    if Hits(es, Use(sql)) {
      assert js[Find(es, sql)] in js;
    }
    if j: nat :| j < n && trace[j].sql == sql && Kept(c, trace, n, j) {
      assert j in js;
      var p :| 0 <= p < |js| && js[p] == j;
      assert es[p].sql == sql;
    }
  }

  // ----- Without drops

  predicate NoDrops(trace: seq<Op>) {
    forall i :: 0 <= i < |trace| ==> trace[i].Use?
  }

  /** The last uses before `l` of all keys, the latest first. */
  function LiveUses(trace: seq<Op>, n: nat, l: nat): (js: seq<nat>)
    requires l <= |trace|
    ensures forall p :: 0 <= p < |js| ==> js[p] < l
  {
    if l == 0 then []
    else (if LiveAt(trace, n, l - 1) then [l - 1] else []) + LiveUses(trace, n, l - 1)
  }

  /** Each key that was used is there, once. */
  lemma {:induction false} LiveUsesAre(trace: seq<Op>, n: nat, l: nat)
    requires l <= |trace|
    ensures forall j: nat :: j in LiveUses(trace, n, l) <==> j < l && LiveAt(trace, n, j)
    ensures Falling(LiveUses(trace, n, l))
  {
    hide LiveAt;
    if l > 0 {
      LiveUsesAre(trace, n, l - 1);
    }
  }

  lemma {:induction false} LastUse(trace: seq<Op>, n: nat, i: nat)
    requires NoDrops(trace) && i < n <= |trace|
    ensures exists j :: 0 <= j < n && LiveAt(trace, n, j) && trace[j].sql == trace[i].sql
    decreases n - i
  {
    if !LiveAt(trace, n, i) {
      var l :| i < l < n && trace[l].sql == trace[i].sql;
      LastUse(trace, n, l);
    }
  }

  /** Without drops the number of more recent keys only grows. */
  lemma {:induction false} NewerGrows(trace: seq<Op>, m: nat, n: nat, j: nat)
    requires NoDrops(trace) && j < m <= n <= |trace|
    ensures Newer(trace, m, j, m) <= Newer(trace, n, j, n)
  {
    if m < n {
      NewerGrows(trace, m, n - 1, j);
      NewerUsed(trace, n - 1, j);
    }
  }

  lemma {:induction false} NewerUsed(trace: seq<Op>, n: nat, j: nat)
    requires j < n < |trace| && trace[n].Use?
    ensures Newer(trace, n, j, n) <= Newer(trace, n + 1, j, n + 1)
  {
    NewerNext(trace, n, j);
    if x :| j < x < n && LiveAt(trace, n, x) && trace[x].sql == trace[n].sql {
      NewerWith(trace, n, j, n, x);
    } else {
      NewerWithout(trace, n, j, n);
    }
  }

  lemma {:induction false} KeptWithoutDrops(c: nat, trace: seq<Op>, n: nat, j: nat)
    requires NoDrops(trace) && n <= |trace|
    ensures Kept(c, trace, n, j) <==> LiveAt(trace, n, j) && Newer(trace, n, j, n) < c
  {
    hide Newer;
    if LiveAt(trace, n, j) && Newer(trace, n, j, n) < c {
      forall m | j < m <= n ensures Newer(trace, m, j, m) < c {
        NewerGrows(trace, m, n, j);
      }
    }
  }

  /** So the keys are the first min(c, number of distinct keys) in order of last use. */
  lemma {:induction false} HoldsLatest(c: nat, trace: seq<Op>)
    requires c > 0 && NoDrops(trace)
    ensures var all := LiveUses(trace, |trace|, |trace|);
            && Holds(After(c, trace).entries, trace, if |all| <= c then all else all[..c])
            && Falling(all) && EachKeyOnce(trace, all)
  {
    var n := |trace|;
    assert trace[..n] == trace;
    HoldsKept(c, trace, n);
    LatestKept(c, trace);
    OneForEach(trace);
    LiveUsesAre(trace, n, n);
  }

  /** Every key of the trace is that of exactly one of the uses. */
  ghost predicate EachKeyOnce(trace: seq<Op>, js: seq<nat>) {
    && (forall j :: j in js ==> j < |trace|)
    && (forall i :: 0 <= i < |trace| ==> exists j :: j in js && trace[j].sql == trace[i].sql)
    && (forall j, k :: j in js && k in js && j != k ==> trace[j].sql != trace[k].sql)
  }

  lemma {:induction false} OneForEach(trace: seq<Op>)
    requires NoDrops(trace)
    ensures EachKeyOnce(trace, LiveUses(trace, |trace|, |trace|))
  {
    var n := |trace|;
    var js := LiveUses(trace, n, n);
    LiveUsesAre(trace, n, n);
    hide LiveUses, LiveAt, Falling;
    forall i | 0 <= i < n ensures exists j :: j in js && trace[j].sql == trace[i].sql {
      LastUse(trace, n, i);
    }
    forall j, k | j in js && k in js && j != k ensures trace[j].sql != trace[k].sql {
      LiveOther(trace, n, j, k);
    }
  }

  lemma {:induction false} LivePosition(trace: seq<Op>, n: nat, j: nat, l: nat)
    requires LiveAt(trace, n, j) && j < l <= n
    ensures Newer(trace, n, j, l) < |LiveUses(trace, n, l)|
    ensures LiveUses(trace, n, l)[Newer(trace, n, j, l)] == j
  {
    if l > j + 1 {
      LivePosition(trace, n, j, l - 1);
    }
  }

  lemma {:induction false} LatestKept(c: nat, trace: seq<Op>)
    requires c > 0 && NoDrops(trace)
    ensures var all := LiveUses(trace, |trace|, |trace|);
            KeptUses(c, trace, |trace|, |trace|) == if |all| <= c then all else all[..c]
  {
    var n := |trace|;
    var all := LiveUses(trace, n, n);
    var js := if |all| <= c then all else all[..c];
    LiveUsesAre(trace, n, n);
    hide LiveUses, Kept, LiveAt;
    forall j: nat ensures j in js <==> j < n && Kept(c, trace, n, j) {
      KeptWithoutDrops(c, trace, n, j);
      if j in all {
        LatestMember(c, trace, j);
      }
    }
    ListsKept(c, trace, n, n, js);
  }

  lemma {:induction false} LatestMember(c: nat, trace: seq<Op>, j: nat)
    requires j < |trace| && j in LiveUses(trace, |trace|, |trace|)
    ensures var all := LiveUses(trace, |trace|, |trace|);
            Newer(trace, |trace|, j, |trace|) < c <==> j in if |all| <= c then all else all[..c]
  {
    var n := |trace|;
    var all := LiveUses(trace, n, n);
    LiveUsesAre(trace, n, n);
    LivePosition(trace, n, j, n);
    hide LiveUses, LiveAt, Newer;
    if |all| > c {
      MemberAt(all, c, Newer(trace, n, j, n));
    }
  }

  // ----- Handles

  /** The texts of the misses, in order: statement h was prepared for the h-th of them. */
  function PreparedTexts(c: nat, trace: seq<Op>): (ts: seq<string>)
    ensures |ts| == After(c, trace).misses
  {
    if trace == [] then []
    else
      var front, op := trace[..|trace| - 1], trace[|trace| - 1];
      PreparedTexts(c, front) + if op.Use? && !Hits(After(c, front).entries, op) then [op.sql] else []
  }

  predicate Matched(es: seq<Entry>, texts: seq<string>) {
    forall i :: 0 <= i < |es| ==> es[i].stmt < |texts| && texts[es[i].stmt] == es[i].sql
  }

  lemma {:induction false} StepMatched(c: nat, es: seq<Entry>, op: Op, texts: seq<string>)
    requires Matched(es, texts)
    ensures Matched(Step(c, es, op, |texts|), texts + if op.Use? && !Hits(es, op) then [op.sql] else [])
  {}

  /** The handle of an entry was prepared for its text. */
  lemma {:induction false} HandlesMatch(c: nat, trace: seq<Op>)
    ensures Matched(After(c, trace).entries, PreparedTexts(c, trace))
  {
    if trace != [] {
      var front := trace[..|trace| - 1];
      HandlesMatch(c, front);
      hide Step, Hits, Matched;
      StepMatched(c, After(c, front).entries, trace[|trace| - 1], PreparedTexts(c, front));
    }
  }
}
