/**
 What every reachable state of the connection pool satisfies: conservation of slots, the two limits,
 exclusive ownership of connections, and the absence of lost wake-ups.
*/
module PoolSafety {
  import opened PoolProtocol

  // ----- The invariant

  /** Conservation: every unit of `current_open` is an idle connection, a borrowed one, one popped and being
      pinged or closed, or a slot reserved for opening. */
  ghost predicate Conserved(s: State) {
    && s.idleCount == |s.idle|
    && s.currentOpen == |s.idle| + Tally(s.threads, Borrowed) + Tally(s.threads, Popped) + Tally(s.threads, Reserved)
  }

  ghost predicate Bounded(cfg: Config, s: State) {
    && (cfg.maxOpen > 0 ==> s.currentOpen <= cfg.maxOpen)
    && (cfg.maxIdle > 0 ==> |s.idle| <= cfg.maxIdle)
  }

  predicate IsLive(s: State, c: Conn) {
    c < s.opens && c !in s.closed
  }

  /** Every live connection is in exactly one place, and no other is anywhere. */
  ghost predicate Placed(s: State) {
    && (forall c :: c in s.closed ==> c < s.opens)
    && forall c :: Places(s, c) == if IsLive(s, c) then 1 else 0
  }

  /** Threads that will look at the idle list and the free slots again, plus the signals already lost. */
  ghost function Cover(s: State): nat {
    Tally(s.threads, Awake) + Tally(s.threads, Swallowed) + s.lost
  }

  /** While a thread sleeps, what is available is covered. */
  ghost predicate Watched(cfg: Config, s: State) {
    Tally(s.threads, Asleep) > 0 ==> cfg.maxOpen > 0 && Available(cfg, s) <= Cover(s)
  }

  ghost predicate Inv(cfg: Config, s: State) {
    Conserved(s) && Bounded(cfg, s) && Placed(s) && Watched(cfg, s)
  }

  // ----- Its preservation

  lemma {:induction false} SleepersAreAsleep(s: State)
    ensures AnyAsleep(s) <==> Tally(s.threads, Asleep) > 0
  {
    TallyPositive(s.threads, Asleep);
    if Tally(s.threads, Asleep) > 0 {
      var i :| 0 <= i < |s.threads| && Weight(s.threads[i], Asleep) > 0;
      assert s.threads[i].phase.Sleeping?;
    }
    if AnyAsleep(s) {
      var i :| 0 <= i < |s.threads| && s.threads[i].phase.Sleeping?;
      assert Weight(s.threads[i], Asleep) > 0;
    }
  }

  /** A signal moves no slot and no connection, and adds one to the cover when it meets a sleeper. */
  lemma {:induction false} Signalled(cfg: Config, s: State, sig: Signal)
    requires CanSignal(cfg, s, sig)
    ensures var u := Wake(s, sig);
            && u == s.(threads := u.threads)
            && (forall k: Kind :: !k.Asleep? && !k.Awake? && !k.Swallowed? ==>
                  Tally(u.threads, k) == Tally(s.threads, k))
            && (Tally(u.threads, Asleep) > 0 ==> Tally(s.threads, Asleep) > 0)
            && (Tally(s.threads, Asleep) > 0 ==> Cover(u) == Cover(s) + 1)
  {
    SleepersAreAsleep(s);
    if AnyAsleep(s) {
      var th := s.threads[sig.to].(phase := if sig.late then TimedOut(true) else Woken);
      assert Wake(s, sig).threads == s.threads[sig.to := th];
      forall k { TallyUpdate(s.threads, sig.to, th, k); }
    }
  }

  /** Raising what is available by one and signalling keeps the invariant. */
  lemma {:induction false} SlotGivenBack(cfg: Config, s: State, sig: Signal)
    requires Conserved(s) && Bounded(cfg, s) && Placed(s) && CanSignal(cfg, s, sig)
    requires Tally(s.threads, Asleep) > 0 ==> cfg.maxOpen > 0 && Available(cfg, s) <= Cover(s) + 1
    ensures Inv(cfg, Wake(s, sig))
  {
    var u := Wake(s, sig);
    Signalled(cfg, s, sig);
    forall c ensures Places(u, c) == if IsLive(u, c) then 1 else 0 {
      assert Places(u, c) == Places(s, c);
    }
  }

  /** Between the start of an event and its signal only the thread itself moves, and it does not sleep. */
  lemma {:induction false} StillCanSignal(cfg: Config, s: State, v: State, sig: Signal, t: nat)
    requires CanSignal(cfg, s, sig) && t < |s.threads| == |v.threads|
    requires !s.threads[t].phase.Sleeping? && !v.threads[t].phase.Sleeping?
    requires forall i :: 0 <= i < |s.threads| && i != t ==> v.threads[i] == s.threads[i]
    ensures CanSignal(cfg, v, sig)
  {
    if AnyAsleep(v) {
      var i :| 0 <= i < |v.threads| && v.threads[i].phase.Sleeping?;
      assert s.threads[i].phase.Sleeping?;
    }
  }

  // One thread moves from `s.threads[t]` to `u.threads[t]`; the next three lemmas say what its weights must
  // do for each part of the invariant.

  predicate OneMoves(s: State, u: State, t: nat) {
    t < |s.threads| == |u.threads| && u.threads == s.threads[t := u.threads[t]]
  }

  function Slots(th: Thread): nat {
    Weight(th, Borrowed) + Weight(th, Popped) + Weight(th, Reserved)
  }

  lemma {:induction false} ConservedMove(s: State, u: State, t: nat)
    requires Conserved(s) && OneMoves(s, u, t) && u.idleCount == |u.idle|
    requires u.currentOpen - s.currentOpen == |u.idle| - |s.idle| + Slots(u.threads[t]) - Slots(s.threads[t])
    ensures Conserved(u)
  {
    TallyUpdate(s.threads, t, u.threads[t], Borrowed);
    TallyUpdate(s.threads, t, u.threads[t], Popped);
    TallyUpdate(s.threads, t, u.threads[t], Reserved);
  }

  /** `credit` is 1 when a signal is still to come. */
  lemma {:induction false} WatchedMove(cfg: Config, s: State, u: State, t: nat, credit: nat)
    requires Watched(cfg, s) && OneMoves(s, u, t)
    requires if u.threads[t].phase.Sleeping? then Exhausted(cfg, u)
             else Available(cfg, u) - Available(cfg, s)
                  <= Weight(u.threads[t], Awake) - Weight(s.threads[t], Awake)
                     + Weight(u.threads[t], Swallowed) - Weight(s.threads[t], Swallowed)
                     + u.lost - s.lost + credit
    ensures Tally(u.threads, Asleep) > 0 ==> cfg.maxOpen > 0 && Available(cfg, u) <= Cover(u) + credit
  {
    TallyUpdate(s.threads, t, u.threads[t], Asleep);
    TallyUpdate(s.threads, t, u.threads[t], Awake);
    TallyUpdate(s.threads, t, u.threads[t], Swallowed);
  }

  /** How often connection `c` is in the idle list or in the hands of thread `t`. */
  function Near(s: State, t: nat, c: Conn): nat
    requires t < |s.threads|
  {
    multiset(s.idle)[c] + Weight(s.threads[t], Has(c))
  }

  /** The thread loses no connection from its hands and takes none, save for what goes to or comes from the
      idle list. */
  lemma {:induction false} PlacedMove(s: State, u: State, t: nat)
    requires Placed(s) && OneMoves(s, u, t) && u.opens == s.opens && u.closed == s.closed
    requires forall c :: Near(s, t, c) == Near(u, t, c)
    ensures Placed(u)
  {
    forall c ensures Places(u, c) == if IsLive(u, c) then 1 else 0 {
      TallyUpdate(s.threads, t, u.threads[t], Has(c));
      assert Near(s, t, c) == Near(u, t, c);
      assert Places(u, c) == Places(s, c);
    }
  }

  /** The thread or the idle list loses connection `d`, which is closed. */
  lemma {:induction false} ClosedMove(s: State, u: State, t: nat, d: Conn)
    requires Placed(s) && OneMoves(s, u, t) && u.opens == s.opens && u.closed == s.closed + {d}
    requires forall c :: Near(s, t, c)
                         == Near(u, t, c) + if c == d then 1 else 0
    ensures Placed(u)
  {
    forall c ensures Places(s, c) == Places(u, c) + if c == d then 1 else 0 {
      TallyUpdate(s.threads, t, u.threads[t], Has(c));
      assert Near(s, t, c) == Near(u, t, c) + if c == d then 1 else 0;
    }
    assert Places(s, d) == 1;
    forall c ensures Places(u, c) == if IsLive(u, c) then 1 else 0 {
      assert Places(s, c) == Places(u, c) + if c == d then 1 else 0;
    }
  }

  /** The weights balance: slots against `current_open` and the idle list, and what becomes available against
      what is covered (`credit` is 1 when a signal is still to come). */
  predicate Balanced(cfg: Config, s: State, u: State, t: nat, credit: nat)
    requires OneMoves(s, u, t)
  {
    && u.idleCount - s.idleCount == |u.idle| - |s.idle|
    && u.currentOpen - s.currentOpen == |u.idle| - |s.idle| + Slots(u.threads[t]) - Slots(s.threads[t])
    && if u.threads[t].phase.Sleeping? then Exhausted(cfg, u)
       else Available(cfg, u) - Available(cfg, s)
            <= Weight(u.threads[t], Awake) - Weight(s.threads[t], Awake)
               + Weight(u.threads[t], Swallowed) - Weight(s.threads[t], Swallowed)
               + u.lost - s.lost + credit
  }

  lemma {:induction false} MoveKeeps(cfg: Config, s: State, u: State, t: nat)
    requires Inv(cfg, s) && OneMoves(s, u, t) && Balanced(cfg, s, u, t, 0)
    requires Bounded(cfg, u) && Placed(u)
    ensures Inv(cfg, u)
  {
    ConservedMove(s, u, t);
    WatchedMove(cfg, s, u, t, 0);
  }

  lemma {:induction false} MoveAndSignalKeeps(cfg: Config, s: State, v: State, t: nat, sig: Signal)
    requires Inv(cfg, s) && OneMoves(s, v, t) && Balanced(cfg, s, v, t, 1)
    requires Bounded(cfg, v) && Placed(v)
    requires CanSignal(cfg, s, sig) && !s.threads[t].phase.Sleeping? && !v.threads[t].phase.Sleeping?
    ensures Inv(cfg, Wake(v, sig))
  {
    ConservedMove(s, v, t);
    WatchedMove(cfg, s, v, t, 1);
    StillCanSignal(cfg, s, v, sig, t);
    SlotGivenBack(cfg, v, sig);
  }

  /** Events that change only what a thread is doing: in the wait loop, and around it. */
  lemma {:induction false} WaitKept(cfg: Config, s: State, e: Event)
    requires Inv(cfg, s) && Enabled(cfg, s, e)
    requires e.Sleep? || e.WakeSpuriously? || e.Expire?
    ensures Inv(cfg, Apply(cfg, s, e))
  {
    hide Places, IsLive, Tally;
    var u := Apply(cfg, s, e);
    PlacedMove(s, u, e.t);
    MoveKeeps(cfg, s, u, e.t);
  }

  lemma {:induction false} PhaseKept(cfg: Config, s: State, e: Event)
    requires Inv(cfg, s) && Enabled(cfg, s, e)
    requires e.CallAcquire? || e.PingFail? || e.OpenFail?
    ensures Inv(cfg, Apply(cfg, s, e))
  {
    hide Places, IsLive, Tally;
    var u := Apply(cfg, s, e);
    PlacedMove(s, u, e.t);
    MoveKeeps(cfg, s, u, e.t);
  }

  /** Leaving the wait loop without a connection: with an error, or to open one in a reserved slot. */
  lemma {:induction false} LeaveKept(cfg: Config, s: State, e: Event)
    requires Inv(cfg, s) && Enabled(cfg, s, e)
    requires e.GiveUp? || e.Reserve?
    ensures Inv(cfg, Apply(cfg, s, e))
  {
    var u := Apply(cfg, s, e);
    PlacedMove(s, u, e.t);
    MoveKeeps(cfg, s, u, e.t);
  }

  lemma {:induction false} PopKept(cfg: Config, s: State, t: nat)
    requires Inv(cfg, s) && Enabled(cfg, s, Pop(t))
    ensures Inv(cfg, Apply(cfg, s, Pop(t)))
  {
    var u := Apply(cfg, s, Pop(t));
    assert s.idle == [s.idle[0]] + u.idle;
    PlacedMove(s, u, t);
    MoveKeeps(cfg, s, u, t);
  }

  /** The pool after its first idle connection was taken and closed, before the signal. */
  function Expelled(s: State, t: nat): State
    requires s.idle != [] && t < |s.threads|
  {
    SetPhase(s, t, Entering).(idle := s.idle[1..], idleCount := s.idleCount - 1,
                              closed := s.closed + {s.idle[0]}, currentOpen := s.currentOpen - 1)
  }

  lemma {:induction false} PopExpiredKept(cfg: Config, s: State, t: nat, sig: Signal)
    requires Inv(cfg, s) && Enabled(cfg, s, PopExpired(t, sig))
    ensures Inv(cfg, Apply(cfg, s, PopExpired(t, sig)))
  {
    hide Placed, Conserved, Watched, Cover;
    var v := Expelled(s, t);
    assert Apply(cfg, s, PopExpired(t, sig)) == Wake(v, sig);
    ExpelledPlaced(s, t);
    MoveAndSignalKeeps(cfg, s, v, t, sig);
  }

  lemma {:induction false} ExpelledPlaced(s: State, t: nat)
    requires Placed(s) && s.idle != [] && t < |s.threads|
    requires forall c :: !InFlight(s.threads[t].phase, c)
    ensures Placed(Expelled(s, t))
  {
    hide Placed;
    assert s.idle == [s.idle[0]] + s.idle[1..];
    ClosedMove(s, Expelled(s, t), t, s.idle[0]);
  }

  lemma {:induction false} SlotKept(cfg: Config, s: State, e: Event)
    requires Inv(cfg, s) && Enabled(cfg, s, e)
    requires e.Vacate? || e.RollBack?
    ensures Inv(cfg, Apply(cfg, s, e))
  {
    var v := SetPhase(s, e.t, if e.Vacate? then Entering else Ready).(currentOpen := s.currentOpen - 1);
    assert Apply(cfg, s, e) == Wake(v, e.sig);
    PlacedMove(s, v, e.t);
    MoveAndSignalKeeps(cfg, s, v, e.t, e.sig);
  }

  lemma {:induction false} CloseKept(cfg: Config, s: State, t: nat)
    requires Inv(cfg, s) && Enabled(cfg, s, CloseDiscarded(t))
    ensures Inv(cfg, Apply(cfg, s, CloseDiscarded(t)))
  {
    var u := Apply(cfg, s, CloseDiscarded(t));
    ClosedMove(s, u, t, s.threads[t].phase.conn);
    MoveKeeps(cfg, s, u, t);
  }

  /** A connection in flight is not also borrowed by the same thread. */
  lemma {:induction false} InFlightNotHeld(s: State, t: nat, c: Conn)
    requires Placed(s) && t < |s.threads| && InFlight(s.threads[t].phase, c)
    ensures c !in s.threads[t].held
  {
    TallyUpdate(s.threads, t, Thread(Ready, {}), Has(c));
    assert Places(s, c) <= 1;
  }

  lemma {:induction false} HandKept(cfg: Config, s: State, e: Event)
    requires Inv(cfg, s) && Enabled(cfg, s, e)
    requires e.PingOk? || e.CallRelease?
    ensures Inv(cfg, Apply(cfg, s, e))
  {
    hide Places, IsLive, Tally;
    var u := Apply(cfg, s, e);
    if e.PingOk? {
      InFlightNotHeld(s, e.t, s.threads[e.t].phase.conn);
    }
    PlacedMove(s, u, e.t);
    MoveKeeps(cfg, s, u, e.t);
  }

  /** The thread gets the connection opened last. */
  lemma {:induction false} OpenedMove(s: State, u: State, t: nat)
    requires Placed(s) && OneMoves(s, u, t) && u.idle == s.idle && u.opens == s.opens + 1 && u.closed == s.closed
    requires forall c :: Weight(u.threads[t], Has(c)) == Weight(s.threads[t], Has(c)) + if c == s.opens then 1 else 0
    ensures Placed(u)
  {
    forall c ensures Places(u, c) == if IsLive(u, c) then 1 else 0 {
      TallyUpdate(s.threads, t, u.threads[t], Has(c));
      assert Places(u, c) == Places(s, c) + if c == s.opens then 1 else 0;
    }
  }

  /** A connection not opened yet is in nobody's hands. */
  lemma {:induction false} FreshNotHeld(s: State, t: nat)
    requires Placed(s) && t < |s.threads|
    ensures s.opens !in s.threads[t].held
  {
    TallyUpdate(s.threads, t, Thread(Ready, {}), Has(s.opens));
    assert Places(s, s.opens) == 0;
  }

  lemma {:induction false} OpenKept(cfg: Config, s: State, t: nat)
    requires Inv(cfg, s) && Enabled(cfg, s, OpenOk(t))
    ensures Inv(cfg, Apply(cfg, s, OpenOk(t)))
  {
    var u := Apply(cfg, s, OpenOk(t));
    FreshNotHeld(s, t);
    OpenedMove(s, u, t);
    MoveKeeps(cfg, s, u, t);
  }

  /** `corm_pool_release` closing the connection: the idle list is full, or the node cannot be allocated. */
  lemma {:induction false} ReleaseClosesKept(cfg: Config, s: State, t: nat, nodeAllocated: bool, sig: Signal)
    requires Inv(cfg, s) && Enabled(cfg, s, Release(t, nodeAllocated, sig))
    requires (cfg.maxIdle > 0 && s.idleCount >= cfg.maxIdle) || !nodeAllocated
    ensures Inv(cfg, Apply(cfg, s, Release(t, nodeAllocated, sig)))
  {
    var d := s.threads[t].phase.conn;
    var v := SetPhase(s, t, Ready).(closed := s.closed + {d}, currentOpen := s.currentOpen - 1);
    assert Apply(cfg, s, Release(t, nodeAllocated, sig)) == Wake(v, sig);
    ClosedMove(s, v, t, d);
    MoveAndSignalKeeps(cfg, s, v, t, sig);
  }

  lemma {:induction false} ReleasePushesKept(cfg: Config, s: State, t: nat, sig: Signal)
    requires Inv(cfg, s) && Enabled(cfg, s, Release(t, true, sig))
    requires cfg.maxIdle <= 0 || s.idleCount < cfg.maxIdle
    ensures Inv(cfg, Apply(cfg, s, Release(t, true, sig)))
  {
    var d := s.threads[t].phase.conn;
    var v := SetPhase(s, t, Ready).(idle := [d] + s.idle, idleCount := s.idleCount + 1);
    assert Apply(cfg, s, Release(t, true, sig)) == Wake(v, sig);
    PlacedMove(s, v, t);
    MoveAndSignalKeeps(cfg, s, v, t, sig);
  }

  /** Every event keeps the invariant. */
  lemma {:induction false} Kept(cfg: Config, s: State, e: Event)
    requires Inv(cfg, s) && Enabled(cfg, s, e)
    ensures Inv(cfg, Apply(cfg, s, e))
  {
    hide *;
    match e
    case Pop(t) => PopKept(cfg, s, t);
    case PopExpired(t, sig) => PopExpiredKept(cfg, s, t, sig);
    case PingOk(_) => HandKept(cfg, s, e);
    case CallRelease(_, _) => HandKept(cfg, s, e);
    case CloseDiscarded(t) => CloseKept(cfg, s, t);
    case Vacate(_, _) => SlotKept(cfg, s, e);
    case RollBack(_, _) => SlotKept(cfg, s, e);
    case OpenOk(t) => OpenKept(cfg, s, t);
    case Release(t, a, sig) =>
      if (cfg.maxIdle > 0 && s.idleCount >= cfg.maxIdle) || !a {
        ReleaseClosesKept(cfg, s, t, a, sig);
      } else {
        ReleasePushesKept(cfg, s, t, sig);
      }
    case GiveUp(_) => LeaveKept(cfg, s, e);
    case Reserve(_) => LeaveKept(cfg, s, e);
    case Sleep(_) => WaitKept(cfg, s, e);
    case WakeSpuriously(_) => WaitKept(cfg, s, e);
    case Expire(_) => WaitKept(cfg, s, e);
    case _ => PhaseKept(cfg, s, e);
  }

  lemma {:induction false} AtStart(n: nat, k: Kind)
    ensures Tally(Start(n).threads, k) == 0
  {
    if n > 0 {
      AtStart(n - 1, k);
      assert Start(n).threads[1..] == Start(n - 1).threads;
    }
  }

  /** The invariant holds in every state that any run of any number of threads reaches. */
  lemma {:induction false} Invariant(cfg: Config, n: nat, es: seq<Event>)
    requires Run(cfg, Start(n), es).Some?
    ensures Inv(cfg, Run(cfg, Start(n), es).value)
  {
    if es == [] {
      forall k { AtStart(n, k); }
    } else {
      var last := |es| - 1;
      Invariant(cfg, n, es[..last]);
      Kept(cfg, Run(cfg, Start(n), es[..last]).value, es[last]);
    }
  }
}
