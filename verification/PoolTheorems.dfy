/**
 The properties of the connection pool, read off the invariant, and the one that the timed wait can break.
*/
module PoolTheorems {
  import opened Common
  import opened PoolProtocol
  import opened PoolSafety

  // ----- Conservation and limits

  /** The connections opened and not closed. */
  function Live(s: State): set<Conn> {
    set c: nat | c < s.opens && c !in s.closed
  }

  /** The connections in the hands of one thread, and of all of them. */
  function Hands(th: Thread): set<Conn> {
    th.held + match th.phase
              case Pinging(c) => {c}
              case Discarding(c) => {c}
              case Releasing(c) => {c}
              case _ => {}
  }

  function AllHands(ts: seq<Thread>): set<Conn> {
    if ts == [] then {} else Hands(ts[0]) + AllHands(ts[1..])
  }

  lemma {:induction false} AllHandsSize(ts: seq<Thread>)
    ensures |AllHands(ts)| <= Tally(ts, Borrowed) + Tally(ts, Popped)
  {
    if ts != [] {
      AllHandsSize(ts[1..]);
      assert |Hands(ts[0])| <= Weight(ts[0], Borrowed) + Weight(ts[0], Popped);
    }
  }

  lemma {:induction false} InAllHands(ts: seq<Thread>, c: Conn)
    ensures Tally(ts, Has(c)) > 0 ==> c in AllHands(ts)
  {
    if ts != [] {
      InAllHands(ts[1..], c);
    }
  }

  lemma {:induction false} ListedSize(idle: seq<Conn>)
    ensures |Listed(idle)| <= |idle|
  {
    if idle != [] {
      ListedSize(idle[1..]);
      assert Listed(idle) == {idle[0]} + Listed(idle[1..]);
    }
  }

  /** In every reachable state: the ledger balances, both limits hold, and no more connections are live than
      `current_open` says. */
  lemma {:induction false} ConservationAndBound(cfg: Config, n: nat, s: State)
    requires Reachable(cfg, n, s)
    ensures s.idleCount == |s.idle|
    ensures s.currentOpen
            == |s.idle| + Tally(s.threads, Borrowed) + Tally(s.threads, Popped) + Tally(s.threads, Reserved)
    ensures cfg.maxOpen > 0 ==> s.currentOpen <= cfg.maxOpen
    ensures cfg.maxIdle > 0 ==> s.idleCount <= cfg.maxIdle
    ensures |Live(s)| <= s.currentOpen
  {
    InvariantReached(cfg, n, s);
    LiveBounded(s);
  }

  lemma {:induction false} InvariantReached(cfg: Config, n: nat, s: State)
    requires Reachable(cfg, n, s)
    ensures Inv(cfg, s)
  {
    var es :| Run(cfg, Start(n), es) == Some(s);
    Invariant(cfg, n, es);
  }

  /** A live connection is somewhere, so there are at most as many as there are places. */
  lemma {:induction false} LiveBounded(s: State)
    requires Placed(s)
    ensures |Live(s)| <= |s.idle| + Tally(s.threads, Borrowed) + Tally(s.threads, Popped)
  {
    var listed := Listed(s.idle);
    var hands := AllHands(s.threads);
    forall c | c in Live(s) ensures c in listed + hands {
      assert Places(s, c) == 1;
      InAllHands(s.threads, c);
    }
    ListedSize(s.idle);
    AllHandsSize(s.threads);
    Within(Live(s), listed + hands);
  }

  lemma {:induction false} Within(a: set<Conn>, b: set<Conn>)
    requires a <= b
    ensures |a| <= |b|
  {
    assert b == a + (b - a);
  }

  // ----- Exclusive ownership

  lemma {:induction false} TwoHands(s: State, t: nat, u: nat, c: Conn)
    requires Placed(s) && t < u < |s.threads|
    ensures c !in Hands(s.threads[t]) || c !in Hands(s.threads[u])
  {
    var none := Thread(Ready, {});
    TallyUpdate(s.threads, t, none, Has(c));
    TallyUpdate(s.threads[t := none], u, none, Has(c));
    assert Places(s, c) <= 1;
  }

  lemma {:induction false} InHands(s: State, t: nat, c: Conn)
    requires Placed(s) && t < |s.threads| && c in Hands(s.threads[t])
    ensures c in Live(s) && c !in s.idle
  {
    TallyUpdate(s.threads, t, Thread(Ready, {}), Has(c));
    assert 1 <= Tally(s.threads, Has(c)) <= Places(s, c) <= 1;
  }

  lemma {:induction false} TwiceIdle(s: State, i: nat, j: nat)
    requires Placed(s) && i < j < |s.idle|
    ensures s.idle[i] != s.idle[j]
  {
    assert s.idle == s.idle[..j] + s.idle[j..];
    assert s.idle[i] in s.idle[..j] && s.idle[j] in s.idle[j..];
    assert Places(s, s.idle[i]) <= 1;
  }

  lemma {:induction false} HandsDisjoint(s: State)
    requires Placed(s)
    ensures forall t, u :: 0 <= t < u < |s.threads| ==> Hands(s.threads[t]) !! Hands(s.threads[u])
  {
    forall t, u | 0 <= t < u < |s.threads| ensures Hands(s.threads[t]) !! Hands(s.threads[u]) {
      forall c { TwoHands(s, t, u, c); }
    }
  }

  lemma {:induction false} HandsLive(s: State)
    requires Placed(s)
    ensures forall t :: 0 <= t < |s.threads| ==> Hands(s.threads[t]) <= Live(s)
    ensures forall t, i :: 0 <= t < |s.threads| && 0 <= i < |s.idle| ==> s.idle[i] !in Hands(s.threads[t])
  {
    forall t, c | 0 <= t < |s.threads| && c in Hands(s.threads[t]) ensures c in Live(s) && c !in s.idle {
      InHands(s, t, c);
    }
  }

  lemma {:induction false} IdleOnceAndLive(s: State)
    requires Placed(s)
    ensures forall i, j :: 0 <= i < j < |s.idle| ==> s.idle[i] != s.idle[j]
    ensures forall i :: 0 <= i < |s.idle| ==> s.idle[i] in Live(s)
  {
    forall i, j | 0 <= i < j < |s.idle| ensures s.idle[i] != s.idle[j] {
      TwiceIdle(s, i, j);
    }
    forall i | 0 <= i < |s.idle| ensures s.idle[i] in Live(s) {
      assert Places(s, s.idle[i]) > 0;
    }
  }

  /** In every reachable state no connection is with two threads, with a thread and in the idle list, or twice
      in the idle list; one that is borrowed or idle is open. */
  lemma {:induction false} ExclusiveOwnership(cfg: Config, n: nat, s: State)
    requires Reachable(cfg, n, s)
    ensures forall t, u :: 0 <= t < u < |s.threads| ==> Hands(s.threads[t]) !! Hands(s.threads[u])
    ensures forall t, i :: 0 <= t < |s.threads| && 0 <= i < |s.idle| ==> s.idle[i] !in Hands(s.threads[t])
    ensures forall i, j :: 0 <= i < j < |s.idle| ==> s.idle[i] != s.idle[j]
    ensures forall t :: 0 <= t < |s.threads| ==> Hands(s.threads[t]) <= Live(s)
    ensures forall i :: 0 <= i < |s.idle| ==> s.idle[i] in Live(s)
  {
    InvariantReached(cfg, n, s);
    HandsDisjoint(s);
    HandsLive(s);
    IdleOnceAndLive(s);
  }

  /** A connection gets into a client's hands only by a ping that succeeded on it or by being opened just then,
      and it is open at that moment. */
  lemma {:induction false} HandedOut(cfg: Config, n: nat, s: State, e: Event, t: nat, c: Conn)
    requires Reachable(cfg, n, s) && Enabled(cfg, s, e) && t < |s.threads|
    requires c !in s.threads[t].held && c in Apply(cfg, s, e).threads[t].held
    ensures || (e == PingOk(t) && s.threads[t].phase == Pinging(c))
            || (e == OpenOk(t) && c == s.opens)
    ensures c in Live(Apply(cfg, s, e))
  {
    OnlyTwoHandOver(cfg, s, e, t, c);
    hide Apply, Enabled, Reachable, Placed, Live, Hands, Conserved, Bounded, Watched;
    InvariantReached(cfg, n, s);
    Kept(cfg, s, e);
    InHands(Apply(cfg, s, e), t, c);
  }

  lemma {:induction false} OnlyTwoHandOver(cfg: Config, s: State, e: Event, t: nat, c: Conn)
    requires Enabled(cfg, s, e) && t < |s.threads|
    requires c !in s.threads[t].held && c in Apply(cfg, s, e).threads[t].held
    ensures || (e == PingOk(t) && s.threads[t].phase == Pinging(c))
            || (e == OpenOk(t) && c == s.opens)
    ensures t < |Apply(cfg, s, e).threads| && c in Hands(Apply(cfg, s, e).threads[t])
  {}

  lemma {:induction false} Extend(cfg: Config, s: State, es: seq<Event>, e: Event)
    requires Run(cfg, s, es).Some? && Enabled(cfg, Run(cfg, s, es).value, e)
    ensures Run(cfg, s, es + [e]) == Some(Apply(cfg, Run(cfg, s, es).value, e))
  {
    assert (es + [e])[..|es|] == es;
  }

  // ----- Wake-ups

  predicate OnTime(es: seq<Event>) {
    forall i :: 0 <= i < |es| ==>
      (es[i].PopExpired? || es[i].Vacate? || es[i].RollBack? || es[i].Release? ==> !es[i].sig.late)
  }

  /** As long as no expiring wait consumes a signal, no signal is lost. */
  lemma {:induction false} NothingSwallowed(cfg: Config, n: nat, es: seq<Event>)
    requires Run(cfg, Start(n), es).Some? && OnTime(es)
    ensures var s := Run(cfg, Start(n), es).value;
            s.lost == 0 && forall i :: 0 <= i < |s.threads| ==> s.threads[i].phase != TimedOut(true)
  {
    if es != [] {
      var last := |es| - 1;
      assert OnTime(es[..last]);
      NothingSwallowed(cfg, n, es[..last]);
      var s := Run(cfg, Start(n), es[..last]).value;
      assert Enabled(cfg, s, es[last]) && !(es[last].GiveUp? && s.threads[es[last].t].phase.consumed);
    }
  }

  /** No lost wake-up: while a thread sleeps, idle connections and free slots together never exceed the number
      of woken threads that have not looked again. */
  lemma {:induction false} NoLostWakeUp(cfg: Config, n: nat, es: seq<Event>)
    requires Run(cfg, Start(n), es).Some? && OnTime(es)
    ensures var s := Run(cfg, Start(n), es).value;
            AnyAsleep(s) ==> cfg.maxOpen > 0 && |s.idle| + (cfg.maxOpen - s.currentOpen) <= Tally(s.threads, Awake)
  {
    var s := Run(cfg, Start(n), es).value;
    Invariant(cfg, n, es);
    NothingSwallowed(cfg, n, es);
    SleepersAreAsleep(s);
    TallyPositive(s.threads, Swallowed);
  }

  /** Someone sleeps, nobody is about to look again, and yet a connection or a slot is there. */
  predicate Stalled(cfg: Config, s: State) {
    && AnyAsleep(s)
    && Unwoken(s)
    && Available(cfg, s) > 0
  }

  /** Without a timeout `late` signals do not exist, so every run is on time. */
  lemma {:induction false} UntimedIsOnTime(cfg: Config, n: nat, es: seq<Event>)
    requires Run(cfg, Start(n), es).Some? && cfg.timeoutMs <= 0
    ensures var s := Run(cfg, Start(n), es).value;
            s.lost == 0 && forall i :: 0 <= i < |s.threads| ==> !s.threads[i].phase.TimedOut?
  {
    if es != [] {
      var last := |es| - 1;
      UntimedIsOnTime(cfg, n, es[..last]);
      var s := Run(cfg, Start(n), es[..last]).value;
      var e := es[last];
      assert Enabled(cfg, s, e);
      if e.PopExpired? || e.Vacate? || e.RollBack? || e.Release? {
        assert !e.sig.late;
      }
    }
  }

  lemma {:induction false} NeverStalls(cfg: Config, n: nat, es: seq<Event>)
    requires Run(cfg, Start(n), es).Some?
    requires cfg.maxOpen <= 0 || cfg.timeoutMs <= 0 || OnTime(es)
    ensures !Stalled(cfg, Run(cfg, Start(n), es).value)
  {
    var s := Run(cfg, Start(n), es).value;
    Invariant(cfg, n, es);
    SleepersAreAsleep(s);
    TallyPositive(s.threads, Awake);
    TallyPositive(s.threads, Swallowed);
    if cfg.timeoutMs <= 0 {
      UntimedIsOnTime(cfg, n, es);
    } else if OnTime(es) {
      NothingSwallowed(cfg, n, es);
    }
  }

  /** A sleeper always has someone to wait for: a woken thread, or one that owns a slot and gives it back or
      turns it into an idle connection. */
  lemma {:induction false} SleeperIsWaitedOn(cfg: Config, n: nat, es: seq<Event>)
    requires Run(cfg, Start(n), es).Some? && OnTime(es)
    ensures var s := Run(cfg, Start(n), es).value;
            AnyAsleep(s) ==> exists t :: 0 <= t < |s.threads| && (s.threads[t].phase.Woken? || Slots(s.threads[t]) > 0)
  {
    var s := Run(cfg, Start(n), es).value;
    if AnyAsleep(s) {
      NoLostWakeUp(cfg, n, es);
      Invariant(cfg, n, es);
      TallyPositive(s.threads, Awake);
      TallyPositive(s.threads, Borrowed);
      TallyPositive(s.threads, Popped);
      TallyPositive(s.threads, Reserved);
      var k :| k in {Awake, Borrowed, Popped, Reserved} && Tally(s.threads, k) > 0;
      var t :| 0 <= t < |s.threads| && Weight(s.threads[t], k) > 0;
    }
  }

  // ----- The timed wait can stall

  /** `m` threads reserve all the slots. */
  function FillUp(m: nat): seq<Event> {
    if m == 0 then [] else FillUp(m - 1) + [CallAcquire(m - 1), Reserve(m - 1)]
  }

  function Filled(n: nat, m: nat): State
    requires m <= n
  {
    State([], 0, m, seq(n, i => Thread(if i < m then Opening(0) else Ready, {})), 0, {}, 0)
  }

  lemma {:induction false} FillUpFills(cfg: Config, n: nat, m: nat)
    requires m <= n && m <= cfg.maxOpen
    ensures Run(cfg, Start(n), FillUp(m)) == Some(Filled(n, m))
  {
    if m == 0 {
      assert Filled(n, 0) == Start(n);
    } else {
      FillUpFills(cfg, n, m - 1);
      FillOne(cfg, n, m - 1);
      hide Apply, Enabled, Run, Start, Filled;
      var s := Filled(n, m - 1);
      var es := FillUp(m - 1);
      Extend(cfg, Start(n), es, CallAcquire(m - 1));
      Extend(cfg, Start(n), es + [CallAcquire(m - 1)], Reserve(m - 1));
      assert es + [CallAcquire(m - 1)] + [Reserve(m - 1)] == FillUp(m);
    }
  }

  lemma {:induction false} FillOne(cfg: Config, n: nat, m: nat)
    requires m < n && m < cfg.maxOpen
    ensures var s := Filled(n, m);
            && Enabled(cfg, s, CallAcquire(m)) && Enabled(cfg, Apply(cfg, s, CallAcquire(m)), Reserve(m))
            && Apply(cfg, Apply(cfg, s, CallAcquire(m)), Reserve(m)) == Filled(n, m + 1)
  {}

  /** One event after another from a reachable state. */
  lemma {:induction false} Then(cfg: Config, n: nat, s: State, e: Event)
    requires Reachable(cfg, n, s) && Enabled(cfg, s, e)
    ensures Reachable(cfg, n, Apply(cfg, s, e))
  {
    var es :| Run(cfg, Start(n), es) == Some(s);
    Extend(cfg, Start(n), es, e);
  }

  /** With a timeout and a limit: all slots are being opened and two more threads sleep. One open fails; the
      signal is consumed by the first sleeper as its wait expires; it finds no idle connection and gives up
      although a slot is free. The second sleeper sleeps on beside that slot. */
  lemma {:induction false} TimedWaitStalls(cfg: Config)
    requires cfg.maxOpen > 0 && cfg.timeoutMs > 0
    ensures exists s :: Reachable(cfg, cfg.maxOpen + 2, s) && Stalled(cfg, s)
  {
    hide Stalled, Start, Run, Apply, Enabled;
    var m := cfg.maxOpen;
    var n := m + 2;
    FillUpFills(cfg, n, m);
    var s0 := Filled(n, m);
    assert Reachable(cfg, n, s0);
    var s1 := QueueUp(cfg, n, s0, m);
    var s2 := QueueUp(cfg, n, s1, m + 1);
    var s3 := FailToOpen(cfg, n, s2, 0);
    LateSignalStalls(cfg, n, s3, 0, m, m + 1);
  }

  /** `t` gives back its slot; the signal ends in `a`, whose wait expires; `b` sleeps on. */
  lemma {:induction false} LateSignalStalls(cfg: Config, n: nat, s: State, t: nat, a: nat, b: nat)
    requires Reachable(cfg, n, s) && cfg.timeoutMs > 0 && s.idle == [] && s.currentOpen == cfg.maxOpen && Unwoken(s)
    requires t < |s.threads| && a < |s.threads| && b < |s.threads| && a != b
    requires s.threads[t].phase.OpenFailed? && s.threads[a].phase.Sleeping? && s.threads[b].phase.Sleeping?
    ensures exists u :: Reachable(cfg, n, u) && Stalled(cfg, u)
  {
    hide Run;
    var rollBack := RollBack(t, Signal(a, true));
    Then(cfg, n, s, rollBack);
    var v := Apply(cfg, s, rollBack);
    assert v.threads[a].phase == TimedOut(true);
    Then(cfg, n, v, GiveUp(a));
    var u := Apply(cfg, v, GiveUp(a));
    assert u.threads[b].phase.Sleeping?;
    assert Stalled(cfg, u);
  }

  predicate Unwoken(s: State) {
    forall i :: 0 <= i < |s.threads| ==> !s.threads[i].phase.Woken? && !s.threads[i].phase.TimedOut?
  }

  /** Thread `t` is now in phase `p`, and nothing else that matters changed. */
  predicate Only(s: State, u: State, t: nat, p: Phase) {
    && t < |s.threads| == |u.threads| && u.idle == s.idle && u.currentOpen == s.currentOpen
    && u.threads[t].phase == p
    && forall i :: 0 <= i < |s.threads| && i != t ==> u.threads[i] == s.threads[i]
  }

  lemma {:induction false} QueueUp(cfg: Config, n: nat, s: State, t: nat) returns (u: State)
    requires Reachable(cfg, n, s) && Exhausted(cfg, s) && t < |s.threads| && s.threads[t].phase.Ready?
    ensures Reachable(cfg, n, u) && Only(s, u, t, Sleeping)
  {
    Then(cfg, n, s, CallAcquire(t));
    var v := Apply(cfg, s, CallAcquire(t));
    Then(cfg, n, v, Sleep(t));
    u := Apply(cfg, v, Sleep(t));
  }

  lemma {:induction false} FailToOpen(cfg: Config, n: nat, s: State, t: nat) returns (u: State)
    requires Reachable(cfg, n, s) && t < |s.threads| && s.threads[t].phase == Opening(0)
    ensures Reachable(cfg, n, u) && Only(s, u, t, OpenFailed)
  {
    Then(cfg, n, s, OpenFail(t));
    var v := Apply(cfg, s, OpenFail(t));
    Then(cfg, n, v, OpenFail(t));
    var w := Apply(cfg, v, OpenFail(t));
    Then(cfg, n, w, OpenFail(t));
    u := Apply(cfg, w, OpenFail(t));
  }

  ghost predicate MayStall(cfg: Config) {
    exists n, s :: Reachable(cfg, n, s) && Stalled(cfg, s)
  }

  /** Exactly when POSIX lets the pool stall: a limit on open connections together with a timeout. */
  lemma {:induction false} StallsExactlyWhenTimed(cfg: Config)
    ensures MayStall(cfg) <==> cfg.maxOpen > 0 && cfg.timeoutMs > 0
  {
    if cfg.maxOpen > 0 && cfg.timeoutMs > 0 {
      TimedWaitStalls(cfg);
    } else {
      forall n, s | Reachable(cfg, n, s) ensures !Stalled(cfg, s) {
        var es :| Run(cfg, Start(n), es) == Some(s);
        NeverStalls(cfg, n, es);
      }
    }
  }
}
