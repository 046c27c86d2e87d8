/**
 The cache of the SQLite driver is the cache of a trace: a call that obtains its statement uses the text, and one
 whose statement then fails drops it.
*/
module DriverTrace {
  import opened Lru
  import opened LruTrace
  import opened SqliteDriver

  /** Whether a call gets a statement, from the cache or by preparing it. */
  predicate Obtains(capacity: nat, trace: seq<Op>, call: Call) {
    call.prepares || Hits(After(capacity, trace).entries, Use(call.sql))
  }

  function TraceOf(capacity: nat, calls: seq<Call>): seq<Op> {
    if calls == [] then []
    else
      var trace, call := TraceOf(capacity, calls[..|calls| - 1]), calls[|calls| - 1];
      if !Obtains(capacity, trace, call) then trace
      else if call.succeeds then trace + [Use(call.sql)]
      else trace + [Use(call.sql)] + [Drop(call.sql)]
  }

  lemma {:induction false} AfterMore(capacity: nat, trace: seq<Op>, op: Op)
    ensures After(capacity, trace + [op])
            == Run(Step(capacity, After(capacity, trace).entries, op, After(capacity, trace).misses),
                   After(capacity, trace).misses
                   + if op.Use? && !Hits(After(capacity, trace).entries, op) then 1 else 0)
  {
    assert (trace + [op])[..|trace|] == trace;
  }

  /** In every run the driver holds what the trace says, with the same handles. */
  lemma {:induction false} DriverIsLru(capacity: nat, calls: seq<Call>)
    requires capacity > 0
    ensures AfterCalls(capacity, calls).cached == After(capacity, TraceOf(capacity, calls)).entries
    ensures AfterCalls(capacity, calls).prepared == After(capacity, TraceOf(capacity, calls)).misses
  {
    if calls != [] {
      var front, call := calls[..|calls| - 1], calls[|calls| - 1];
      DriverIsLru(capacity, front);
      var trace := TraceOf(capacity, front);
      AfterMore(capacity, trace, Use(call.sql));
      AfterMore(capacity, trace + [Use(call.sql)], Drop(call.sql));
      CallIsUse(capacity, AfterCalls(capacity, front), call);
    }
  }

  lemma {:induction false} CallIsUse(capacity: nat, d: Db, call: Call)
    requires capacity > 0
    ensures var obtained := call.prepares || Hits(d.cached, Use(call.sql));
            var used := Step(capacity, d.cached, Use(call.sql), d.prepared);
            var e := Perform(capacity, d, call);
            && e.cached == (if !obtained then d.cached else if call.succeeds then used else Remove(used, call.sql))
            && e.prepared == d.prepared + if obtained && !Hits(d.cached, Use(call.sql)) then 1 else 0
  {
    hide Find;
  }

  /** A handle is only ever used for the text that it was prepared for. */
  lemma {:induction false} DriverHandlesMatch(capacity: nat, calls: seq<Call>)
    requires capacity > 0
    ensures Matched(AfterCalls(capacity, calls).cached, PreparedTexts(capacity, TraceOf(capacity, calls)))
  {
    DriverIsLru(capacity, calls);
    HandlesMatch(capacity, TraceOf(capacity, calls));
  }

  predicate Cached(d: Db, sql: string) {
    Has(d.cached, sql)
  }

  predicate Has(es: seq<Entry>, sql: string) {
    exists i :: 0 <= i < |es| && es[i].sql == sql
  }

  /** The last call on the text. */
  predicate LastCall(calls: seq<Call>, i: nat, sql: string) {
    i < |calls| && calls[i].sql == sql && forall l :: i < l < |calls| ==> calls[l].sql != sql
  }

  /** A text whose last call failed is not cached. */
  lemma {:induction false} FailedIsNotCached(capacity: nat, calls: seq<Call>, i: nat, sql: string)
    requires capacity > 0 && LastCall(calls, i, sql) && !calls[i].succeeds
    ensures !Cached(AfterCalls(capacity, calls), sql)
  {
    var last := |calls| - 1;
    var front, call := calls[..last], calls[last];
    Ownership(capacity, front);
    if i == last {
      FailingCall(capacity, AfterCalls(capacity, front), call);
    } else {
      FailedIsNotCached(capacity, front, i, sql);
      OtherCall(capacity, AfterCalls(capacity, front), call, sql);
    }
  }

  lemma {:induction false} FailingCall(capacity: nat, d: Db, call: Call)
    requires capacity > 0 && Distinct(d.cached) && |d.cached| <= capacity && !call.succeeds
    ensures !Cached(Perform(capacity, d, call), call.sql)
  {
    CallIsUse(capacity, d, call);
    var used := Step(capacity, d.cached, Use(call.sql), d.prepared);
    StepKeeps(capacity, d.cached, Use(call.sql), d.prepared);
    RemovedIsGone(used, call.sql);
    hide Step, Perform, Remove, Find;
  }

  lemma {:induction false} RemovedIsGone(es: seq<Entry>, sql: string)
    requires Distinct(es)
    ensures forall i :: 0 <= i < |Remove(es, sql)| ==> Remove(es, sql)[i].sql != sql
  {
    hide Find;
  }

  /** A text stays cached until it is the last entry of a full cache and another one is prepared. */
  lemma {:induction false} OtherCall(capacity: nat, d: Db, call: Call, sql: string)
    requires capacity > 0 && Distinct(d.cached) && |d.cached| <= capacity && call.sql != sql
    ensures Cached(Perform(capacity, d, call), sql)
            <==> Cached(d, sql)
                 && !(call.prepares && !Cached(d, call.sql) && |d.cached| == capacity
                      && d.cached[capacity - 1].sql == sql)
  {
    var es := d.cached;
    var i, used := Find(es, call.sql), Step(capacity, es, Use(call.sql), d.prepared);
    CallIsUse(capacity, d, call);
    Finds(es, call.sql);
    if i < |es| {
      TouchedHas(es, i, sql);
    } else {
      PutHas(capacity, es, call.sql, d.prepared, sql);
    }
    RemovedHas(used, call.sql, sql);
    hide Find, Perform, Remove, Has, ToFront;
  }

  lemma {:induction false} Finds(es: seq<Entry>, sql: string)
    ensures Find(es, sql) < |es| <==> Has(es, sql)
  {
    hide Find;
  }

  lemma {:induction false} TouchedHas(es: seq<Entry>, i: nat, sql: string)
    requires i < |es|
    ensures Has(ToFront(es, i), sql) <==> Has(es, sql)
  {
    ToFrontMembers(es, i);
    Members(es, sql);
    Members(ToFront(es, i), sql);
    hide Has, ToFront;
  }

  lemma {:induction false} Members(es: seq<Entry>, sql: string)
    ensures Has(es, sql) <==> exists e :: e in es && e.sql == sql
  {
    if e :| e in es && e.sql == sql {
      var i :| 0 <= i < |es| && es[i] == e;
    }
  }

  lemma {:induction false} PutHas(capacity: nat, es: seq<Entry>, sql: string, h: Handle, k: string)
    requires capacity > 0 && Distinct(es) && |es| <= capacity && Find(es, sql) == |es| && k != sql
    ensures Has(Put(capacity, es, sql, h), k)
            <==> Has(es, k) && !(|es| == capacity && es[capacity - 1].sql == k)
  {
    var fs := Put(capacity, es, sql, h);
    hide Find;
    assert forall i :: 0 < i < |fs| ==> fs[i] == es[i - 1];
    if i :| 0 <= i < |es| && es[i].sql == k && i + 1 < |fs| {
      assert fs[i + 1].sql == k;
    }
  }

  lemma {:induction false} RemovedHas(es: seq<Entry>, sql: string, k: string)
    requires k != sql
    ensures Has(Remove(es, sql), k) <==> Has(es, k)
  {
    var fs, n := Remove(es, sql), Find(es, sql);
    hide Find;
    if i :| 0 <= i < |es| && es[i].sql == k {
      assert fs[if i < n then i else i - 1].sql == k;
    }
  }
}
