/**
 The connection pool used by one thread at a time: the retry loop of `corm_pool_acquire` with its
 termination, and the linked stack of idle connections.

 What the pool cannot know in advance is a `World`: the clock, the answer of a ping, and the result of each
 attempt to open a connection.
*/
module Pool {
  import opened Common
  import P = PoolProtocol

  datatype Db = Db(id: nat, createdAtMs: int)

  /** `now(k)`: the clock when the k-th idle connection is looked at; `open(k)`: the k-th attempt to open. */
  datatype World = World(now: nat -> int, pings: Db -> bool, open: nat -> Option<Db>)

  function Now(w: World, k: nat): int { w.now(k) }

  predicate Pings(w: World, db: Db) { w.pings(db) }

  function Open(w: World, k: nat): Option<Db> { w.open(k) }

  datatype Outcome = Acquired(db: Db) | WaitTimedOut | WaitsForever | OpenFailed

  const MAX_ATTEMPTS: nat := 3

  predicate Expired(cfg: P.Config, db: Db, nowMs: int) {
    cfg.lifetimeMs > 0 && nowMs - db.createdAtMs >= cfg.lifetimeMs
  }

  /** Fit to be handed out when it is the k-th idle connection looked at. */
  predicate Good(cfg: P.Config, w: World, k: nat, db: Db) {
    !Expired(cfg, db, Now(w, k)) && Pings(w, db)
  }

  /** `d` is the number of idle connections above the first good one, or of all of them. */
  predicate Discards(cfg: P.Config, w: World, idle: seq<Db>, d: nat) {
    && d <= |idle|
    && (forall i :: 0 <= i < d ==> !Good(cfg, w, i, idle[i]))
    && (d < |idle| ==> Good(cfg, w, d, idle[d]))
  }

  /** What opening a connection yields: the first success among three attempts. */
  predicate Opens(w: World, out: Outcome, attempts: int) {
    && 1 <= attempts <= MAX_ATTEMPTS
    && (forall i :: 0 <= i < attempts - 1 ==> Open(w, i).None?)
    && match Open(w, attempts - 1)
       case Some(db) => out == Acquired(db)
       case None => attempts == MAX_ATTEMPTS && out == OpenFailed
  }

  /** What an acquire without interference yields, from the idle stack and the number of open connections. */
  predicate Results(cfg: P.Config, w: World, idle: seq<Db>, currentOpen: int, out: Outcome, discarded: int,
                    attempts: int) {
    // it waits exactly when there is neither an idle connection nor a free slot
    && (Waits(out) <==> idle == [] && cfg.maxOpen > 0 && currentOpen >= cfg.maxOpen)
    && (Waits(out) ==> attempts == 0 && (out.WaitTimedOut? <==> cfg.timeoutMs > 0))
    // it discards exactly the unfit connections above the first good one, and returns that one,
    && 0 <= discarded && Discards(cfg, w, idle, discarded)
    && (discarded < |idle| ==> out == Acquired(idle[discarded]) && attempts == 0)
    // or opens a connection once the stack is exhausted
    && (discarded == |idle| && !Waits(out) ==> Opens(w, out, attempts))
  }

  predicate Waits(out: Outcome) {
    out.WaitTimedOut? || out.WaitsForever?
  }

  /** What a release without interference does: the connection is pushed in front, or closed exactly when the
      idle list is full or there is no node; an error exactly in the last case. `closedNow` are the connections
      passed to `corm_close`. */
  predicate Returns(cfg: P.Config, idle: seq<Db>, currentOpen: int, db: Db, nodeAllocated: bool, ok: bool,
                    newIdle: seq<Db>, newOpen: int, closedNow: seq<Db>) {
    var full := cfg.maxIdle > 0 && |idle| >= cfg.maxIdle;
    && (ok <==> full || nodeAllocated)
    && if full || !nodeAllocated then newIdle == idle && newOpen == currentOpen - 1 && closedNow == [db]
       else newIdle == [db] + idle && newOpen == currentOpen && closedNow == []
  }

  class Node {
    const db: Db
    const next: Node?

    constructor (db: Db, next: Node?)
      ensures this.db == db && this.next == next
    {
      this.db, this.next := db, next;
    }
  }

  class Pool {
    const cfg: P.Config
    var currentOpen: int
    var idleCount: int
    var idleHead: Node?
    /** The connections passed to `corm_close`, in order, and the number of calls of `corm_open_with_config`. */
    var closed: seq<Db>
    var attempts: nat
    ghost var nodes: seq<Node>

    /** `nodes` are the nodes of the list, in order. */
    ghost predicate Valid()
      reads this
    {
      && idleHead == (if |nodes| == 0 then null else nodes[0])
      && (forall i {:trigger nodes[i].next} :: 0 <= i < |nodes| - 1 ==> nodes[i].next == nodes[i + 1])
      && (|nodes| > 0 ==> nodes[|nodes| - 1].next == null)
      && idleCount == |nodes| <= currentOpen
      && (cfg.maxOpen > 0 ==> currentOpen <= cfg.maxOpen)
      && (cfg.maxIdle > 0 ==> idleCount <= cfg.maxIdle)
    }

    /** The idle connections, the one released last first. */
    ghost function Idle(): (dbs: seq<Db>)
      reads this
      ensures |dbs| == |nodes|
    {
      seq(|nodes|, i requires 0 <= i < |nodes| reads this => nodes[i].db)
    }

    constructor (cfg: P.Config)
      ensures Valid() && Idle() == [] && currentOpen == 0 && closed == [] && attempts == 0 && this.cfg == cfg
    {
      this.cfg := cfg;
      currentOpen, idleCount, idleHead, nodes := 0, 0, null, [];
      closed, attempts := [], 0;
    }

    /** Nobody else uses the pool, so a wait can only end by its timeout. */
    method Acquire(w: World) returns (out: Outcome, discarded: nat)
      requires Valid()
      modifies this
      ensures Valid()
      ensures Results(cfg, w, old(Idle()), old(currentOpen), out, discarded, attempts - old(attempts))
      ensures closed == old(closed) + old(Idle())[..discarded]
      ensures discarded < |old(Idle())| ==>
                Idle() == old(Idle())[discarded + 1..] && currentOpen == old(currentOpen) - discarded
      ensures discarded == |old(Idle())| ==>
                Idle() == [] && currentOpen == old(currentOpen) - discarded + if out.Acquired? then 1 else 0
    {
      discarded := 0;
      ghost var idle := Idle();
      while true
        invariant Valid() && discarded <= |idle| && attempts == old(attempts)
        invariant Idle() == idle[discarded..] && closed == old(closed) + idle[..discarded]
        invariant currentOpen == old(currentOpen) - discarded
        invariant forall i :: 0 <= i < discarded ==> !Good(cfg, w, i, idle[i])
        decreases |nodes|
      {
        if idleHead == null && cfg.maxOpen > 0 && currentOpen >= cfg.maxOpen {
          assert discarded == 0;
          if cfg.timeoutMs > 0 {
            return WaitTimedOut, 0;
          }
          return WaitsForever, 0;
        }
        if idleHead == null {
          break;
        }
        var db := Pop();
        assert Idle() == idle[discarded..][1..] == idle[discarded + 1..];
        assert idle[..discarded + 1] == idle[..discarded] + [db];
        if Expired(cfg, db, Now(w, discarded)) {
          Close(db);
        } else if Pings(w, db) {
          return Acquired(db), discarded;
        } else {
          Close(db);
        }
        discarded := discarded + 1;
      }
      out := OpenReserved(w);
    }

    /** Takes the first node off the list. */
    method Pop() returns (db: Db)
      requires Valid() && idleHead != null
      modifies this`idleHead, this`idleCount, this`nodes
      ensures Valid() && idleCount < currentOpen
      ensures old(Idle()) == [db] + Idle()
    {
      db := idleHead.db;
      idleHead := idleHead.next;
      nodes := nodes[1..];
      idleCount := idleCount - 1;
    }

    method Close(db: Db)
      requires Valid() && idleCount < currentOpen
      modifies this`closed, this`currentOpen
      ensures Valid() && Idle() == old(Idle())
      ensures closed == old(closed) + [db] && currentOpen == old(currentOpen) - 1
    {
      closed := closed + [db];
      currentOpen := currentOpen - 1;
    }

    /** Reserves a slot and makes at most three attempts to open, stopping at the first success; gives the slot
        back when all of them failed. */
    method OpenReserved(w: World) returns (out: Outcome)
      modifies this`currentOpen, this`attempts
      ensures Opens(w, out, attempts - old(attempts))
      ensures currentOpen == old(currentOpen) + if out.Acquired? then 1 else 0
    {
      currentOpen := currentOpen + 1;
      var retried := 0;
      out := OpenFailed;
      while retried < MAX_ATTEMPTS
        invariant 0 <= retried <= MAX_ATTEMPTS && attempts == old(attempts) + retried
        invariant forall i :: 0 <= i < retried ==> Open(w, i).None?
        invariant out == OpenFailed && currentOpen == old(currentOpen) + 1
      {
        attempts := attempts + 1;
        match Open(w, retried)
        case Some(db) => return Acquired(db);
        case None => retried := retried + 1;
      }
      currentOpen := currentOpen - 1;
    }

    /** `nodeAllocated`: whether the memory for the list node is there. */
    method Release(db: Db, nodeAllocated: bool) returns (ok: bool)
      requires Valid() && idleCount < currentOpen
      modifies this
      ensures Valid() && attempts == old(attempts)
      ensures |closed| >= |old(closed)| && closed[..|old(closed)|] == old(closed)
      ensures Returns(cfg, old(Idle()), old(currentOpen), db, nodeAllocated, ok, Idle(), currentOpen,
                      closed[|old(closed)|..])
    {
      if cfg.maxIdle > 0 && idleCount >= cfg.maxIdle {
        Close(db);
        return true;
      }
      if !nodeAllocated {
        Close(db);
        return false;
      }
      var node := new Node(db, idleHead);
      idleHead := node;
      idleCount := idleCount + 1;
      nodes := [node] + nodes;
      return true;
    }

    /** Closes every idle connection once; the pool is not used afterwards. */
    method Destroy()
      requires Valid()
      modifies this`closed
      ensures closed == old(closed) + Idle()
    {
      var curr := idleHead;
      ghost var i := 0;
      while curr != null
        invariant 0 <= i <= |nodes| && curr == (if i < |nodes| then nodes[i] else null)
        invariant closed == old(closed) + Idle()[..i]
        decreases |nodes| - i
      {
        var next := curr.next;
        closed := closed + [curr.db];
        curr := next;
        i := i + 1;
      }
    }
  }
}
