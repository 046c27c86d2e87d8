/**
 The SQLite driver's use of its statement cache: who owns a prepared statement at any time, and that each one
 is finalised exactly once.
*/
module SqliteDriver {
  import opened Common
  import opened Lru
  import opened StmtCache

  /** The handles cached, the number of statements prepared so far (0, 1, ...), and those finalised, in order. */
  datatype Db = Db(cached: seq<Entry>, prepared: nat, finalised: seq<Handle>)

  /** One `sqlite_exec` or `sqlite_query`: whether the statement can be prepared, and whether stepping through
      it and collecting the result succeed. */
  datatype Call = Call(sql: string, prepares: bool, succeeds: bool)

  // ----- The driver on values

  function GetStmt(capacity: nat, d: Db, sql: string, prepares: bool): (Db, Option<Handle>) {
    match Lookup(d.cached, sql)
    case Some(h) => (d.(cached := Touch(d.cached, sql)), Some(h))
    case None =>
      if !prepares then (d, None)
      else
        var dropped := if Evicts(capacity, d.cached, sql) then [d.cached[|d.cached| - 1].stmt] else [];
        (Db(Put(capacity, d.cached, sql, d.prepared), d.prepared + 1, d.finalised + dropped), Some(d.prepared))
  }

  function CleanupStmt(d: Db, sql: string): Db {
    match Lookup(d.cached, sql)
    case Some(h) => d.(cached := Remove(d.cached, sql), finalised := d.finalised + [h])
    case None => d
  }

  function Perform(capacity: nat, d: Db, call: Call): Db {
    var (e, stmt) := GetStmt(capacity, d, call.sql, call.prepares);
    if stmt.Some? && !call.succeeds then CleanupStmt(e, call.sql) else e
  }

  /** `corm_close`: the cache is destroyed while the connection is still open. */
  function Shut(d: Db): Db {
    Db([], d.prepared, d.finalised + Handles(d.cached))
  }

  function AfterCalls(capacity: nat, calls: seq<Call>): Db {
    if calls == [] then Db([], 0, [])
    else Perform(capacity, AfterCalls(capacity, calls[..|calls| - 1]), calls[|calls| - 1])
  }

  // ----- Ownership

  /** How often a handle is cached or finalised. */
  function Ends(d: Db, h: Handle): nat {
    multiset(Handles(d.cached))[h] + multiset(d.finalised)[h]
  }

  /** Every statement ever prepared is either cached once or finalised once, and nothing else is. */
  ghost predicate Owned(capacity: nat, d: Db) {
    && Distinct(d.cached) && |d.cached| <= capacity
    && forall h: Handle :: Ends(d, h) == if h < d.prepared then 1 else 0
  }

  lemma {:induction false} HandlesConcat(a: seq<Entry>, b: seq<Entry>)
    ensures Handles(a + b) == Handles(a) + Handles(b)
  {
    if a == [] {
      assert a + b == b;
    } else {
      HandlesConcat(a[1..], b);
      assert (a + b)[1..] == a[1..] + b;
    }
  }

  lemma {:induction false} SameMultiset(x: seq<Handle>, h: Handle, y: seq<Handle>)
    ensures multiset(x + ([h] + y)) == multiset(x + y) + multiset{h}
    ensures multiset([h] + (x + y)) == multiset(x + ([h] + y))
  {}

  lemma {:induction false} HandlesParts(es: seq<Entry>, i: nat)
    requires i < |es|
    ensures Handles(es) == Handles(es[..i]) + ([es[i].stmt] + Handles(es[i + 1..]))
  {
    assert es == es[..i] + es[i..];
    HandlesConcat(es[..i], es[i..]);
    assert es[i..][1..] == es[i + 1..];
  }

  lemma {:induction false} HandlesFirst(e: Entry, rest: seq<Entry>)
    ensures Handles([e] + rest) == [e.stmt] + Handles(rest)
  {
    assert ([e] + rest)[1..] == rest;
  }

  /** Taking an entry out takes exactly its handle out; moving it to the front changes nothing. */
  lemma {:induction false} HandlesWithout(es: seq<Entry>, i: nat)
    requires i < |es|
    ensures multiset(Handles(es)) == multiset(Handles(Without(es, i))) + multiset{es[i].stmt}
    ensures multiset(Handles(ToFront(es, i))) == multiset(Handles(es))
  {
    HandlesParts(es, i);
    HandlesConcat(es[..i], es[i + 1..]);
    assert ToFront(es, i) == [es[i]] + Without(es, i);
    HandlesFirst(es[i], Without(es, i));
    SameMultiset(Handles(es[..i]), es[i].stmt, Handles(es[i + 1..]));
  }

  lemma {:induction false} GetKeeps(capacity: nat, d: Db, sql: string, prepares: bool)
    requires capacity > 0 && Owned(capacity, d)
    ensures Owned(capacity, GetStmt(capacity, d, sql, prepares).0)
  {
    var e := GetStmt(capacity, d, sql, prepares).0;
    var i := Find(d.cached, sql);
    StepKeeps(capacity, d.cached, Use(sql), d.prepared);
    if i < |d.cached| {
      HandlesWithout(d.cached, i);
      assert forall h: Handle :: Ends(e, h) == Ends(d, h);
    } else if prepares {
      PutEnds(capacity, d, sql);
    }
  }

  /** A newly prepared handle takes the place of the one that its insertion evicts. */
  lemma {:induction false} PutEnds(capacity: nat, d: Db, sql: string)
    requires capacity > 0 && Find(d.cached, sql) == |d.cached|
    ensures forall h: Handle ::
              Ends(GetStmt(capacity, d, sql, true).0, h) == Ends(d, h) + if h == d.prepared then 1 else 0
  {
    var e := GetStmt(capacity, d, sql, true).0;
    var es := d.cached;
    if Evicts(capacity, es, sql) {
      var last := |es| - 1;
      HandlesWithout(es, last);
      assert Without(es, last) == es[..last];
      HandlesConcat([Entry(sql, d.prepared)], es[..last]);
    } else {
      HandlesConcat([Entry(sql, d.prepared)], es);
    }
  }

  lemma {:induction false} CleanupKeeps(capacity: nat, d: Db, sql: string)
    requires capacity > 0 && Owned(capacity, d)
    ensures Owned(capacity, CleanupStmt(d, sql))
  {
    hide Ends, Find;
    CleanupEnds(d, sql);
    var i := Find(d.cached, sql);
    if i < |d.cached| {
      DistinctKept(d.cached, i);
    }
  }

  lemma {:induction false} CleanupEnds(d: Db, sql: string)
    ensures forall h: Handle :: Ends(CleanupStmt(d, sql), h) == Ends(d, h)
  {
    var i := Find(d.cached, sql);
    if i < |d.cached| {
      HandlesWithout(d.cached, i);
    }
  }

  /** In every run, each prepared statement is at all times cached or finalised, once. */
  lemma {:induction false} Ownership(capacity: nat, calls: seq<Call>)
    requires capacity > 0
    ensures Owned(capacity, AfterCalls(capacity, calls))
  {
    if calls != [] {
      var front, call := calls[..|calls| - 1], calls[|calls| - 1];
      Ownership(capacity, front);
      var d := AfterCalls(capacity, front);
      GetKeeps(capacity, d, call.sql, call.prepares);
      CleanupKeeps(capacity, GetStmt(capacity, d, call.sql, call.prepares).0, call.sql);
    }
  }

  /** The handle a lookup returns is live and the most recent of the cache, even when putting it evicted
      another one. */
  lemma {:induction false} ReturnedIsLive(capacity: nat, d: Db, sql: string, prepares: bool)
    requires capacity > 0 && Owned(capacity, d)
    ensures var (e, stmt) := GetStmt(capacity, d, sql, prepares);
            stmt.Some? ==> |e.cached| > 0 && e.cached[0] == Entry(sql, stmt.value)
                           && stmt.value < e.prepared && stmt.value !in e.finalised
  {
    var (e, stmt) := GetStmt(capacity, d, sql, prepares);
    GetKeeps(capacity, d, sql, prepares);
    if stmt.Some? {
      var h := e.cached[0].stmt;
      assert Handles(e.cached)[0] == h;
      assert Ends(e, h) <= 1;
    }
  }

  /** After any run and `corm_close`, every statement ever prepared was finalised exactly once, and no other. */
  lemma {:induction false} FinalisedExactlyOnce(capacity: nat, calls: seq<Call>)
    requires capacity > 0
    ensures var d := Shut(AfterCalls(capacity, calls));
            d.cached == [] && forall h: Handle :: multiset(d.finalised)[h] == if h < d.prepared then 1 else 0
  {
    Ownership(capacity, calls);
    var d := AfterCalls(capacity, calls);
    forall h: Handle ensures multiset(Shut(d).finalised)[h] == if h < d.prepared then 1 else 0 {
      assert multiset(Shut(d).finalised)[h] == Ends(d, h);
    }
  }

  // ----- The driver on the heap

  class Connection {
    const cache: StmtCache
    const library: Library
    var closed: bool

    ghost predicate Valid()
      reads this, cache, cache.nodes
    {
      cache.Valid() && cache.library == library
    }

    ghost function Abs(): Db
      reads this, cache, library
    {
      Db(cache.Entries(), library.prepared, library.finalised)
    }

    constructor (capacity: nat)
      requires capacity > 0
      ensures Valid() && !closed && Abs() == AfterCalls(capacity, []) && cache.capacity == capacity
      ensures fresh(cache) && fresh(cache.nodes) && fresh(library)
    {
      var c := new StmtCache(capacity);
      var l := new Library();
      c.SetDestroyFn(l);
      cache, library, closed := c, l, false;
    }

    /** `sqlite_get_stmt`. */
    method Get(sql: string, prepares: bool) returns (stmt: Option<Handle>)
      requires Valid()
      modifies cache, cache.nodes, library
      ensures Valid()
      ensures forall i :: 0 <= i < |cache.nodes| ==>
                cache.nodes[i] in old(cache.nodes) || fresh(cache.nodes[i])
      ensures (Abs(), stmt) == GetStmt(cache.capacity, old(Abs()), sql, prepares)
    {
      hide CleanupStmt, Distinct, Evicts, Find, Handles, Perform, Put, Remove, Shut, ToFront, Without;
      stmt := cache.Get(sql);
      if stmt.Some? {
        return;
      }
      if !prepares {
        return None;
      }
      var h := library.prepared;
      library.prepared := library.prepared + 1;
      cache.Put(sql, h);
      return Some(h);
    }

    /** `sqlite_cleanup_stmt`. */
    method Cleanup(sql: string)
      requires Valid()
      modifies cache, cache.nodes, library
      ensures Valid() && forall i :: 0 <= i < |cache.nodes| ==> cache.nodes[i] in old(cache.nodes)
      ensures Abs() == CleanupStmt(old(Abs()), sql)
    {
      var s := cache.Remove(sql);
      if s.Some? {
        library.Finalize(s.value);
      }
    }

    /** The handle flow of `sqlite_exec` and `sqlite_query`. */
    method Execute(call: Call) returns (ok: bool)
      requires Valid()
      modifies cache, cache.nodes, library
      ensures Valid()
      ensures forall i :: 0 <= i < |cache.nodes| ==>
                cache.nodes[i] in old(cache.nodes) || fresh(cache.nodes[i])
      ensures Abs() == Perform(cache.capacity, old(Abs()), call)
      ensures ok <==> GetStmt(cache.capacity, old(Abs()), call.sql, call.prepares).1.Some? && call.succeeds
    {
      var stmt := Get(call.sql, call.prepares);
      if stmt.None? {
        return false;
      }
      if !call.succeeds {
        Cleanup(call.sql);
        return false;
      }
      return true;
    }

    /** `corm_close`: first the cache, then the connection. */
    method CloseAll()
      requires Valid() && !closed
      modifies this`closed, library
      ensures closed && library.prepared == old(library.prepared)
      ensures library.finalised == Shut(old(Abs())).finalised
    {
      cache.Destroy();
      closed := true;
    }
  }
}
