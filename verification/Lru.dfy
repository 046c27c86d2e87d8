/**
 The statement cache as a sequence of entries, the most recently used first, and what bounded recency means:
 a smaller cache always holds a prefix of what a larger one holds.
*/
module Lru {
  import opened Common

  /** Prepared statements are numbered in the order in which they are prepared. */
  type Handle = nat

  datatype Entry = Entry(sql: string, stmt: Handle)

  /** The index of the entry for `sql`, or the number of entries. */
  function Find(es: seq<Entry>, sql: string): (i: nat)
    ensures i <= |es|
    ensures i < |es| ==> es[i].sql == sql
    ensures forall j :: 0 <= j < i ==> es[j].sql != sql
  {
    if es == [] || es[0].sql == sql then 0 else 1 + Find(es[1..], sql)
  }

  function ToFront<T>(s: seq<T>, i: nat): seq<T>
    requires i < |s|
  {
    [s[i]] + s[..i] + s[i + 1..]
  }

  function Without<T>(s: seq<T>, i: nat): seq<T>
    requires i < |s|
  {
    s[..i] + s[i + 1..]
  }

  lemma {:induction false} ToFrontMembers<T>(s: seq<T>, i: nat)
    requires i < |s|
    ensures forall x :: x in ToFront(s, i) <==> x in s
  {
    forall x | x in s ensures x in ToFront(s, i) {
      var j :| 0 <= j < |s| && s[j] == x;
      assert ToFront(s, i)[if j == i then 0 else if j < i then j + 1 else j] == x;
    }
  }

  /** What a lookup returns, and the order it leaves. */
  function Lookup(es: seq<Entry>, sql: string): Option<Handle> {
    var i := Find(es, sql);
    if i < |es| then Some(es[i].stmt) else None
  }

  function Touch(es: seq<Entry>, sql: string): seq<Entry> {
    var i := Find(es, sql);
    if i < |es| then ToFront(es, i) else es
  }

  /** Whether putting `sql` makes the cache drop its last entry. */
  predicate Evicts(capacity: nat, es: seq<Entry>, sql: string) {
    Find(es, sql) == |es| && es != [] && |es| >= capacity
  }

  function Put(capacity: nat, es: seq<Entry>, sql: string, stmt: Handle): seq<Entry> {
    if Find(es, sql) < |es| then Touch(es, sql)
    else if Evicts(capacity, es, sql) then [Entry(sql, stmt)] + es[..|es| - 1]
    else [Entry(sql, stmt)] + es
  }

  function Remove(es: seq<Entry>, sql: string): seq<Entry> {
    var i := Find(es, sql);
    if i < |es| then Without(es, i) else es
  }

  predicate Distinct(es: seq<Entry>) {
    forall i, j :: 0 <= i < j < |es| ==> es[i].sql != es[j].sql
  }

  lemma {:induction false} DistinctKept(es: seq<Entry>, i: nat)
    requires Distinct(es) && i < |es|
    ensures Distinct(ToFront(es, i)) && Distinct(Without(es, i)) && Distinct(es[..|es| - 1])
  {}

  lemma {:induction false} DistinctExtended(es: seq<Entry>, e: Entry)
    requires Distinct(es) && Find(es, e.sql) == |es|
    ensures Distinct([e] + es)
  {}

  function Handles(es: seq<Entry>): seq<Handle> {
    if es == [] then [] else [es[0].stmt] + Handles(es[1..])
  }

  lemma {:induction false} HandlesAppend(es: seq<Entry>, e: Entry)
    ensures Handles(es + [e]) == Handles(es) + [e.stmt]
  {
    if es != [] {
      HandlesAppend(es[1..], e);
      assert (es + [e])[1..] == es[1..] + [e];
    }
  }

  // ----- Traces

  /** Looking `sql` up and preparing and putting it when it is not there, or removing it. */
  datatype Op = Use(sql: string) | Drop(sql: string)

  function Step(capacity: nat, es: seq<Entry>, op: Op, next: Handle): seq<Entry> {
    match op
    case Use(sql) => if Lookup(es, sql).Some? then Touch(es, sql) else Put(capacity, es, sql, next)
    case Drop(sql) => Remove(es, sql)
  }

  predicate Hits(es: seq<Entry>, op: Op) {
    op.Use? && Lookup(es, op.sql).Some?
  }

  /** The entries after the trace, with the number of statements prepared on the way, which is the number of
      misses. */
  datatype Run = Run(entries: seq<Entry>, misses: nat)

  function After(capacity: nat, trace: seq<Op>): Run {
    if trace == [] then Run([], 0)
    else
      var r := After(capacity, trace[..|trace| - 1]);
      var op := trace[|trace| - 1];
      Run(Step(capacity, r.entries, op, r.misses),
          if op.Use? && !Hits(r.entries, op) then r.misses + 1 else r.misses)
  }

  lemma {:induction false} StepKeeps(capacity: nat, es: seq<Entry>, op: Op, next: Handle)
    requires capacity > 0 && Distinct(es) && |es| <= capacity
    ensures var fs := Step(capacity, es, op, next);
            Distinct(fs) && |fs| <= capacity
  {
    var i := Find(es, op.sql);
    if i < |es| {
      DistinctKept(es, i);
    } else if op.Use? {
      var rest := if |es| >= capacity then es[..|es| - 1] else es;
      assert forall k :: 0 <= k < |rest| ==> rest[k] == es[k];
      DistinctExtended(rest, Entry(op.sql, next));
    }
  }

  /** In every trace the keys stay distinct and the capacity is kept. */
  lemma {:induction false} WellFormed(capacity: nat, trace: seq<Op>)
    requires capacity > 0
    ensures Distinct(After(capacity, trace).entries) && |After(capacity, trace).entries| <= capacity
  {
    if trace != [] {
      var front := trace[..|trace| - 1];
      WellFormed(capacity, front);
      StepKeeps(capacity, After(capacity, front).entries, trace[|trace| - 1], After(capacity, front).misses);
    }
  }

  // ----- Inclusion

  /** The keys of `small` are the first keys of `large`. */
  predicate Included(small: seq<Entry>, large: seq<Entry>) {
    |small| <= |large| && forall i :: 0 <= i < |small| ==> small[i].sql == large[i].sql
  }

  lemma {:induction false} FindIncluded(small: seq<Entry>, large: seq<Entry>, sql: string)
    requires Included(small, large)
    ensures Find(small, sql) < |small| ==> Find(large, sql) == Find(small, sql)
    ensures Find(small, sql) == |small| ==> Find(large, sql) >= |small|
  {
    var i, j := Find(small, sql), Find(large, sql);
    if j < |small| {
      assert small[j].sql == sql;
    }
  }

  lemma {:induction false} StepIncluded(c: nat, d: nat, small: seq<Entry>, large: seq<Entry>, op: Op, f: Handle,
                                        g: Handle)
    requires 0 < c <= d && Included(small, large) && |small| <= c && |large| <= d
    ensures Included(Step(c, small, op, f), Step(d, large, op, g))
  {
    FindIncluded(small, large, op.sql);
    if op.Drop? {
      DropIncluded(small, large, op.sql);
    } else if Find(small, op.sql) < |small| {
      HitIncluded(small, large, op.sql);
    } else if Find(large, op.sql) < |large| {
      LateHitIncluded(c, small, large, op.sql, f);
    } else {
      MissIncluded(c, d, small, large, op.sql, f, g);
    }
  }

  lemma {:induction false} DropIncluded(small: seq<Entry>, large: seq<Entry>, sql: string)
    requires Included(small, large)
    ensures Included(Remove(small, sql), Remove(large, sql))
  {
    hide Find;
    FindIncluded(small, large, sql);
  }

  /** Both move the same key to the front. */
  lemma {:induction false} HitIncluded(small: seq<Entry>, large: seq<Entry>, sql: string)
    requires Included(small, large) && Find(small, sql) < |small|
    ensures Included(Touch(small, sql), Touch(large, sql))
  {
    FindIncluded(small, large, sql);
    var i := Find(small, sql);
    var u, v := ToFront(small, i), ToFront(large, i);
    forall k | 0 <= k < |u| ensures u[k].sql == v[k].sql {
      if 0 < k <= i {
        assert u[k] == small[k - 1] && v[k] == large[k - 1];
      } else if k > i {
        assert u[k] == small[k] && v[k] == large[k];
      }
    }
  }

  /** The larger cache still has the key, beyond all that the smaller one has. */
  lemma {:induction false} LateHitIncluded(c: nat, small: seq<Entry>, large: seq<Entry>, sql: string, f: Handle)
    requires 0 < c && Included(small, large) && Find(small, sql) == |small| && Find(large, sql) < |large|
    ensures Included(Put(c, small, sql, f), Touch(large, sql))
  {
    FindIncluded(small, large, sql);
    var u, v := Put(c, small, sql, f), Touch(large, sql);
    forall k | 0 <= k < |u| ensures u[k].sql == v[k].sql {
      if k > 0 {
        assert u[k] == small[k - 1] && v[k] == large[k - 1];
      }
    }
  }

  /** Neither has it; when the larger cache evicts, the smaller one evicts too or is shorter. */
  lemma {:induction false} MissIncluded(c: nat, d: nat, small: seq<Entry>, large: seq<Entry>, sql: string, f: Handle,
                                        g: Handle)
    requires 0 < c <= d && Included(small, large) && |small| <= c && |large| <= d
    requires Find(small, sql) == |small| && Find(large, sql) == |large|
    ensures Included(Put(c, small, sql, f), Put(d, large, sql, g))
  {
    var u, v := Put(c, small, sql, f), Put(d, large, sql, g);
    forall k | 0 <= k < |u| ensures u[k].sql == v[k].sql {
      if k > 0 {
        assert u[k] == small[k - 1] && v[k] == large[k - 1];
      }
    }
  }

  /** LRU inclusion: on the same trace the keys of the smaller cache are a prefix of those of the larger. */
  lemma {:induction false} Inclusion(c: nat, d: nat, trace: seq<Op>)
    requires 0 < c <= d
    ensures Included(After(c, trace).entries, After(d, trace).entries)
  {
    if trace != [] {
      var front := trace[..|trace| - 1];
      Inclusion(c, d, front);
      WellFormed(c, front);
      WellFormed(d, front);
      StepIncluded(c, d, After(c, front).entries, After(d, front).entries, trace[|trace| - 1],
                   After(c, front).misses, After(d, front).misses);
    }
  }

  /** Every hit of the smaller cache is a hit of the larger, whatever comes next. */
  lemma {:induction false} HitsIncluded(c: nat, d: nat, trace: seq<Op>, op: Op)
    requires 0 < c <= d
    ensures Hits(After(c, trace).entries, op) ==> Hits(After(d, trace).entries, op)
  {
    Inclusion(c, d, trace);
    FindIncluded(After(c, trace).entries, After(d, trace).entries, op.sql);
  }

  /** So misses never increase with the capacity. */
  lemma {:induction false} MissesNeverIncrease(c: nat, d: nat, trace: seq<Op>)
    requires 0 < c <= d
    ensures After(d, trace).misses <= After(c, trace).misses
  {
    if trace != [] {
      var front := trace[..|trace| - 1];
      MissesNeverIncrease(c, d, front);
      HitsIncluded(c, d, front, trace[|trace| - 1]);
    }
  }
}
