/**
 The two models of the pool agree: what module `Pool` says of an acquire without interference is a run of the
 transition system.
*/
module PoolSolo {
  import opened Common
  import opened PoolProtocol
  import Pool

  ghost predicate Leads(cfg: Config, s: State, u: State) {
    exists es :: Run(cfg, s, es) == Some(u)
  }

  lemma {:induction false} Here(cfg: Config, s: State)
    ensures Leads(cfg, s, s)
  {
    assert Run(cfg, s, []) == Some(s);
  }

  lemma {:induction false} Next(cfg: Config, s: State, u: State, e: Event)
    requires Leads(cfg, s, u) && Enabled(cfg, u, e)
    ensures Leads(cfg, s, Apply(cfg, u, e))
  {
    var es :| Run(cfg, s, es) == Some(u);
    assert (es + [e])[..|es|] == es;
    assert Run(cfg, s, es + [e]) == Some(Apply(cfg, u, e));
  }

  /** The first `d` idle connections are closed. */
  function Dropped(s: State, d: nat): State
    requires d <= |s.idle|
  {
    s.(idle := s.idle[d..], idleCount := s.idleCount - d, closed := s.closed + Listed(s.idle[..d]),
       currentOpen := s.currentOpen - d)
  }

  /** A signal that nobody waits for. */
  function Nobody(s: State): Signal {
    Signal(|s.threads|, false)
  }

  lemma {:induction false} DropOne(cfg: Config, s: State, u: State, t: nat, expired: bool)
    requires Leads(cfg, s, u) && t < |u.threads| && u.threads[t].phase.Entering? && u.idle != [] && !AnyAsleep(u)
    requires expired ==> cfg.lifetimeMs > 0
    ensures Leads(cfg, s, Dropped(u, 1))
  {
    assert u.threads == u.threads[t := u.threads[t]];
    assert Listed(u.idle[..1]) == {u.idle[0]};
    if expired {
      Next(cfg, s, u, PopExpired(t, Nobody(u)));
      assert Apply(cfg, u, PopExpired(t, Nobody(u))) == Dropped(u, 1);
    } else {
      Next(cfg, s, u, Pop(t));
      var popped := Apply(cfg, u, Pop(t));
      Next(cfg, s, popped, PingFail(t));
      var discarding := Apply(cfg, popped, PingFail(t));
      Next(cfg, s, discarding, CloseDiscarded(t));
      var vacating := Apply(cfg, discarding, CloseDiscarded(t));
      NoneAsleep(u, vacating, t);
      Next(cfg, s, vacating, Vacate(t, Nobody(u)));
      assert Apply(cfg, vacating, Vacate(t, Nobody(u))) == Dropped(u, 1);
    }
  }

  lemma {:induction false} NoneAsleep(s: State, u: State, t: nat)
    requires !AnyAsleep(s) && |u.threads| == |s.threads| && t < |s.threads| && !u.threads[t].phase.Sleeping?
    requires forall i :: 0 <= i < |s.threads| && i != t ==> u.threads[i] == s.threads[i]
    ensures !AnyAsleep(u)
  {
    forall i | 0 <= i < |u.threads| ensures !u.threads[i].phase.Sleeping? {
      if i != t {
        assert !s.threads[i].phase.Sleeping?;
      }
    }
  }

  /** The idle connections by their numbers. */
  predicate Matches(s: State, dbs: seq<Pool.Db>) {
    |dbs| == |s.idle| && forall i :: 0 <= i < |dbs| ==> dbs[i].id == s.idle[i]
  }

  lemma {:induction false} DropAll(cfg: Config, w: Pool.World, s: State, u: State, t: nat, dbs: seq<Pool.Db>, d: nat)
    requires Leads(cfg, s, u) && t < |u.threads| && u.threads[t].phase.Entering? && !AnyAsleep(u)
    requires Matches(u, dbs) && d <= |dbs| && forall i :: 0 <= i < d ==> !Pool.Good(cfg, w, i, dbs[i])
    ensures Leads(cfg, s, Dropped(u, d))
  {
    if d == 0 {
      assert Listed(u.idle[..0]) == {};
      assert Dropped(u, 0) == u;
    } else {
      hide Run;
      DropAll(cfg, w, s, u, t, dbs, d - 1);
      var v := Dropped(u, d - 1);
      DropOne(cfg, s, v, t, Pool.Expired(cfg, dbs[d - 1], Pool.Now(w, d - 1)));
      assert Listed(u.idle[..d]) == Listed(u.idle[..d - 1]) + {u.idle[d - 1]};
      assert Listed(v.idle[..1]) == {v.idle[0]};
      assert Dropped(v, 1) == Dropped(u, d);
    }
  }

  lemma {:induction false} FailOpens(cfg: Config, s: State, u: State, t: nat, k: nat)
    requires Leads(cfg, s, u) && t < |u.threads| && u.threads[t].phase == Opening(0) && k <= 2
    ensures Leads(cfg, s, SetPhase(u, t, Opening(k)))
  {
    if k == 0 {
      assert u.threads == u.threads[t := u.threads[t]];
      assert SetPhase(u, t, Opening(0)) == u;
    } else {
      FailOpens(cfg, s, u, t, k - 1);
      var v := SetPhase(u, t, Opening(k - 1));
      Next(cfg, s, v, OpenFail(t));
      assert Apply(cfg, v, OpenFail(t)) == SetPhase(u, t, Opening(k));
    }
  }

  /** The state after the acquire: the borrower holds the good connection or the one just opened, sleeps for
      ever, or has nothing. */
  function Finished(s: State, t: nat, out: Pool.Outcome, d: nat): State
    requires d <= |s.idle| && t < |s.threads|
  {
    var u, held := Dropped(s, d), s.threads[t].held;
    if d < |s.idle| then
      SetThread(u, t, Thread(Ready, held + {s.idle[d]})).(idle := s.idle[d + 1..], idleCount := s.idleCount - d - 1)
    else
      match out
      case Acquired(_) =>
        SetThread(u, t, Thread(Ready, held + {s.opens})).(opens := s.opens + 1, currentOpen := u.currentOpen + 1)
      case WaitsForever => SetPhase(u, t, Sleeping)
      case _ => u
  }

  lemma {:induction false} HandOver(cfg: Config, s: State, u: State, t: nat, held: set<Conn>)
    requires Leads(cfg, s, u) && t < |u.threads| && u.threads[t] == Thread(Entering, held) && u.idle != []
    ensures Leads(cfg, s,
                  SetThread(u, t, Thread(Ready, held + {u.idle[0]}))
                  .(idle := u.idle[1..], idleCount := u.idleCount - 1))
  {
    Next(cfg, s, u, Pop(t));
    var v := Apply(cfg, u, Pop(t));
    Next(cfg, s, v, PingOk(t));
    assert Apply(cfg, v, PingOk(t)).threads == u.threads[t := Thread(Ready, held + {u.idle[0]})];
  }

  lemma {:induction false} GiveBack(cfg: Config, s: State, u: State, failed: State, t: nat)
    requires t < |u.threads| && !AnyAsleep(u) && failed == SetPhase(u, t, OpenFailed) && Leads(cfg, s, failed)
    ensures Leads(cfg, s, SetPhase(u, t, Ready).(currentOpen := u.currentOpen - 1))
  {
    NoneAsleep(u, failed, t);
    Next(cfg, s, failed, RollBack(t, Nobody(u)));
    assert Apply(cfg, failed, RollBack(t, Nobody(u))) == SetPhase(u, t, Ready).(currentOpen := u.currentOpen - 1);
  }

  lemma {:induction false} Opened(cfg: Config, w: Pool.World, s: State, u: State, t: nat, out: Pool.Outcome,
                                  attempts: nat)
    requires Leads(cfg, s, u) && t < |u.threads| && u.threads[t].phase == Opening(0)
    requires Pool.Opens(w, out, attempts) && out.Acquired?
    ensures Leads(cfg, s, SetThread(u, t, Thread(Ready, u.threads[t].held + {u.opens})).(opens := u.opens + 1))
  {
    hide Leads;
    FailOpens(cfg, s, u, t, attempts - 1);
    var v := SetPhase(u, t, Opening(attempts - 1));
    Next(cfg, s, v, OpenOk(t));
    assert Apply(cfg, v, OpenOk(t)).threads == u.threads[t := Thread(Ready, u.threads[t].held + {u.opens})];
  }

  lemma {:induction false} NotOpened(cfg: Config, s: State, u: State, t: nat)
    requires Leads(cfg, s, u) && t < |u.threads| && u.threads[t].phase == Opening(0) && !AnyAsleep(u)
    ensures Leads(cfg, s, SetPhase(u, t, Ready).(currentOpen := u.currentOpen - 1))
  {
    FailOpens(cfg, s, u, t, 2);
    var v := SetPhase(u, t, Opening(2));
    Next(cfg, s, v, OpenFail(t));
    assert Apply(cfg, v, OpenFail(t)) == SetPhase(u, t, OpenFailed);
    GiveBack(cfg, s, u, SetPhase(u, t, OpenFailed), t);
  }

  lemma {:induction false} EndsWaiting(cfg: Config, s: State, t: nat, out: Pool.Outcome)
    requires t < |s.threads| && s.threads[t].phase.Ready? && Exhausted(cfg, s)
    requires Leads(cfg, s, SetPhase(s, t, Entering))
    requires Pool.Waits(out) && (out.WaitTimedOut? <==> cfg.timeoutMs > 0)
    ensures Leads(cfg, s, if out.WaitsForever? then SetPhase(s, t, Sleeping) else s)
  {
    var v := SetPhase(s, t, Entering);
    Next(cfg, s, v, Sleep(t));
    var asleep := Apply(cfg, v, Sleep(t));
    assert asleep == SetPhase(s, t, Sleeping);
    if out.WaitTimedOut? {
      Next(cfg, s, asleep, Expire(t));
      var expired := Apply(cfg, asleep, Expire(t));
      Next(cfg, s, expired, GiveUp(t));
      assert Apply(cfg, expired, GiveUp(t)).threads == s.threads;
      assert Apply(cfg, expired, GiveUp(t)) == s;
    }
  }

  lemma {:induction false} EndsOpening(cfg: Config, w: Pool.World, s: State, v: State, t: nat, out: Pool.Outcome,
                                       attempts: nat)
    requires t < |v.threads| && v.threads[t].phase.Entering? && !AnyAsleep(v) && v.idle == [] && !Exhausted(cfg, v)
    requires Leads(cfg, s, v) && Pool.Opens(w, out, attempts)
    ensures var held := v.threads[t].held;
            Leads(cfg, s, if out.Acquired?
                          then SetThread(v, t, Thread(Ready, held + {v.opens}))
                               .(opens := v.opens + 1, currentOpen := v.currentOpen + 1)
                          else SetPhase(v, t, Ready))
  {
    hide Exhausted, Leads, Run;
    Next(cfg, s, v, Reserve(t));
    var r := Apply(cfg, v, Reserve(t));
    NoneAsleep(v, r, t);
    if out.Acquired? {
      Opened(cfg, w, s, r, t, out, attempts);
      var holder := Thread(Ready, v.threads[t].held + {v.opens});
      assert r.threads[t := holder] == v.threads[t := holder];
    } else {
      NotOpened(cfg, s, r, t);
      assert SetPhase(r, t, Ready).threads == SetPhase(v, t, Ready).threads;
    }
  }

  lemma {:induction false} Discarded(cfg: Config, w: Pool.World, s: State, t: nat, dbs: seq<Pool.Db>, d: nat)
    requires t < |s.threads| && s.threads[t].phase.Ready? && !AnyAsleep(s) && Matches(s, dbs)
    requires d <= |dbs| && forall i :: 0 <= i < d ==> !Pool.Good(cfg, w, i, dbs[i])
    ensures var v := Dropped(SetPhase(s, t, Entering), d);
            Leads(cfg, s, v) && !AnyAsleep(v) && v.threads[t] == Thread(Entering, s.threads[t].held)
  {
    Here(cfg, s);
    Next(cfg, s, s, CallAcquire(t));
    var u := Apply(cfg, s, CallAcquire(t));
    NoneAsleep(s, u, t);
    DropAll(cfg, w, s, u, t, dbs, d);
    NoneAsleep(s, Dropped(u, d), t);
  }

  lemma {:induction false} SameThreads(s: State, t: nat, th: Thread)
    requires t < |s.threads|
    ensures SetPhase(s, t, Entering).threads[t := th] == s.threads[t := th]
    ensures s.threads[t := s.threads[t]] == s.threads
  {}

  lemma {:induction false} FinishedGood(s: State, t: nat, out: Pool.Outcome, d: nat)
    requires t < |s.threads| && d < |s.idle|
    ensures var v := Dropped(SetPhase(s, t, Entering), d);
            Finished(s, t, out, d)
            == SetThread(v, t, Thread(Ready, s.threads[t].held + {v.idle[0]}))
               .(idle := v.idle[1..], idleCount := v.idleCount - 1)
  {
    SameThreads(s, t, Thread(Ready, s.threads[t].held + {s.idle[d]}));
  }

  lemma {:induction false} FinishedOpening(s: State, t: nat, out: Pool.Outcome)
    requires t < |s.threads| && s.threads[t].phase.Ready? && !Pool.Waits(out)
    ensures var v, held := Dropped(SetPhase(s, t, Entering), |s.idle|), s.threads[t].held;
            Finished(s, t, out, |s.idle|)
            == if out.Acquired?
               then SetThread(v, t, Thread(Ready, held + {v.opens}))
                    .(opens := v.opens + 1, currentOpen := v.currentOpen + 1)
               else SetPhase(v, t, Ready)
  {
    SameThreads(s, t, Thread(Ready, s.threads[t].held + {s.opens}));
    SameThreads(s, t, Thread(Ready, s.threads[t].held));
  }

  lemma {:induction false} GoodHandedOver(cfg: Config, s: State, t: nat, out: Pool.Outcome, d: nat)
    requires t < |s.threads| && d < |s.idle|
    requires var v := Dropped(SetPhase(s, t, Entering), d);
             Leads(cfg, s, v) && v.threads[t] == Thread(Entering, s.threads[t].held)
    ensures Leads(cfg, s, Finished(s, t, out, d))
  {
    hide Finished, Leads, Run;
    HandOver(cfg, s, Dropped(SetPhase(s, t, Entering), d), t, s.threads[t].held);
    FinishedGood(s, t, out, d);
  }

  lemma {:induction false} NothingThere(cfg: Config, s: State, t: nat, out: Pool.Outcome)
    requires t < |s.threads| && s.threads[t].phase.Ready? && Exhausted(cfg, s)
    requires Leads(cfg, s, Dropped(SetPhase(s, t, Entering), 0))
    requires Pool.Waits(out) && (out.WaitTimedOut? <==> cfg.timeoutMs > 0)
    ensures Leads(cfg, s, Finished(s, t, out, 0))
  {
    assert Listed(s.idle[..0]) == {};
    assert Dropped(SetPhase(s, t, Entering), 0) == SetPhase(s, t, Entering);
    assert Dropped(s, 0) == s;
    EndsWaiting(cfg, s, t, out);
  }

  lemma {:induction false} EmptiedOpens(cfg: Config, w: Pool.World, s: State, t: nat, out: Pool.Outcome, attempts: nat)
    requires t < |s.threads| && s.threads[t].phase.Ready? && !Pool.Waits(out) && Pool.Opens(w, out, attempts)
    requires cfg.maxOpen > 0 ==> s.currentOpen <= cfg.maxOpen && (s.idle == [] ==> s.currentOpen < cfg.maxOpen)
    requires var v := Dropped(SetPhase(s, t, Entering), |s.idle|);
             Leads(cfg, s, v) && !AnyAsleep(v) && v.threads[t] == Thread(Entering, s.threads[t].held)
    ensures Leads(cfg, s, Finished(s, t, out, |s.idle|))
  {
    hide AnyAsleep, CanSignal, Enabled, Finished, Leads, Run;
    EndsOpening(cfg, w, s, Dropped(SetPhase(s, t, Entering), |s.idle|), t, out, attempts);
    FinishedOpening(s, t, out);
  }

  /** Every result that `Pool.Acquire` promises is reached by a run in which only the caller moves. */
  lemma {:induction false} AcquireIsARun(cfg: Config, w: Pool.World, s: State, t: nat, dbs: seq<Pool.Db>,
                                         out: Pool.Outcome, d: nat, attempts: nat)
    requires t < |s.threads| && s.threads[t].phase.Ready? && !AnyAsleep(s) && Matches(s, dbs)
    requires Pool.Results(cfg, w, dbs, s.currentOpen, out, d, attempts)
    requires cfg.maxOpen > 0 ==> s.currentOpen <= cfg.maxOpen
    ensures Leads(cfg, s, Finished(s, t, out, d))
  {
    Discarded(cfg, w, s, t, dbs, d);
    if d < |s.idle| {
      GoodHandedOver(cfg, s, t, out, d);
    } else if Pool.Waits(out) {
      NothingThere(cfg, s, t, out);
    } else {
      EmptiedOpens(cfg, w, s, t, out, attempts);
    }
  }

  // ----- Release

  function Ids(dbs: seq<Pool.Db>): set<Conn> {
    set i | 0 <= i < |dbs| :: dbs[i].id
  }

  /** The pool after a release by `t`, before its signal. */
  function Returned(s: State, t: nat, db: Pool.Db, newIdle: seq<Pool.Db>, newOpen: int, closedNow: seq<Pool.Db>): State
    requires t < |s.threads|
  {
    SetThread(s, t, Thread(Ready, s.threads[t].held - {db.id}))
    .(idle := seq(|newIdle|, i requires 0 <= i < |newIdle| => newIdle[i].id), idleCount := |newIdle|,
      currentOpen := newOpen, closed := s.closed + Ids(closedNow))
  }

  /** What `Pool.Release` promises is what the two events of a release lead to, whoever else is in the pool: the
      same stack, counters and closed connections, and but for the sleeper that the signal reaches no other
      thread moves. */
  lemma {:induction false} ReleaseIsARun(cfg: Config, s: State, t: nat, db: Pool.Db, nodeAllocated: bool, sig: Signal,
                                         dbs: seq<Pool.Db>, ok: bool, newIdle: seq<Pool.Db>, newOpen: int,
                                         closedNow: seq<Pool.Db>)
    requires t < |s.threads| && s.threads[t].phase.Ready? && db.id in s.threads[t].held
    requires Matches(s, dbs) && s.idleCount == |s.idle| && CanSignal(cfg, s, sig)
    requires Pool.Returns(cfg, dbs, s.currentOpen, db, nodeAllocated, ok, newIdle, newOpen, closedNow)
    ensures Run(cfg, s, [CallRelease(t, db.id), Release(t, nodeAllocated, sig)])
            == Some(Wake(Returned(s, t, db, newIdle, newOpen, closedNow), sig))
  {
    var called := Apply(cfg, s, CallRelease(t, db.id));
    SameSleepers(cfg, s, called, t, sig);
    TwoEvents(cfg, s, CallRelease(t, db.id), Release(t, nodeAllocated, sig));
    ReleasedState(cfg, s, t, db, nodeAllocated, dbs, ok, newIdle, newOpen, closedNow);
  }

  lemma {:induction false} TwoEvents(cfg: Config, s: State, e: Event, f: Event)
    requires Enabled(cfg, s, e) && Enabled(cfg, Apply(cfg, s, e), f)
    ensures Run(cfg, s, [e, f]) == Some(Apply(cfg, Apply(cfg, s, e), f))
  {
    assert [e, f][..1] == [e] && [e][..0] == [];
    assert Run(cfg, s, []) == Some(s);
    assert Run(cfg, s, [e]) == Some(Apply(cfg, s, e));
  }

  lemma {:induction false} SameSleepers(cfg: Config, s: State, u: State, t: nat, sig: Signal)
    requires CanSignal(cfg, s, sig) && |u.threads| == |s.threads| && t < |s.threads|
    requires !s.threads[t].phase.Sleeping? && !u.threads[t].phase.Sleeping?
    requires forall i :: 0 <= i < |s.threads| && i != t ==> u.threads[i] == s.threads[i]
    ensures CanSignal(cfg, u, sig)
  {
    if AnyAsleep(u) {
      var i :| 0 <= i < |u.threads| && u.threads[i].phase.Sleeping?;
      assert s.threads[i].phase.Sleeping?;
    }
  }

  lemma {:induction false} ReleasedState(cfg: Config, s: State, t: nat, db: Pool.Db, nodeAllocated: bool,
                                         dbs: seq<Pool.Db>, ok: bool, newIdle: seq<Pool.Db>, newOpen: int,
                                         closedNow: seq<Pool.Db>)
    requires t < |s.threads| && s.threads[t].phase.Ready? && db.id in s.threads[t].held
    requires Matches(s, dbs) && s.idleCount == |s.idle|
    requires Pool.Returns(cfg, dbs, s.currentOpen, db, nodeAllocated, ok, newIdle, newOpen, closedNow)
    ensures var held := s.threads[t].held - {db.id};
            var called := SetThread(s, t, Thread(Releasing(db.id), held));
            Returned(s, t, db, newIdle, newOpen, closedNow)
            == if (cfg.maxIdle > 0 && s.idleCount >= cfg.maxIdle) || !nodeAllocated
               then SetPhase(called, t, Ready).(closed := s.closed + {db.id}, currentOpen := s.currentOpen - 1)
               else SetPhase(called, t, Ready).(idle := [db.id] + s.idle, idleCount := s.idleCount + 1)
  {
    var ids := seq(|newIdle|, i requires 0 <= i < |newIdle| => newIdle[i].id);
    if (cfg.maxIdle > 0 && s.idleCount >= cfg.maxIdle) || !nodeAllocated {
      assert ids == s.idle && [db][0] == db;
      assert Ids([db]) == {db.id};
    } else {
      assert ids == [db.id] + s.idle && Ids([]) == {};
    }
  }

  /** With room in the idle list, a connection that is released and answers the next ping is the one acquired
      next, and nothing else has changed. */
  lemma {:induction false} ReleasedIsAcquiredNext(cfg: Config, w: Pool.World, idle: seq<Pool.Db>, currentOpen: int,
                                                  db: Pool.Db, newIdle: seq<Pool.Db>, newOpen: int,
                                                  closedNow: seq<Pool.Db>, out: Pool.Outcome, d: nat, attempts: nat)
    requires cfg.maxIdle > 0 ==> |idle| < cfg.maxIdle
    requires Pool.Returns(cfg, idle, currentOpen, db, true, true, newIdle, newOpen, closedNow)
    requires Pool.Good(cfg, w, 0, db) && Pool.Results(cfg, w, newIdle, newOpen, out, d, attempts)
    ensures out == Pool.Acquired(db) && d == 0 && attempts == 0 && closedNow == []
    ensures newIdle[d + 1..] == idle && newOpen - d == currentOpen
  {
    assert newIdle[0] == db;
  }

  /** So a release and an acquire lead back to where they began. */
  lemma {:induction false} ReleaseThenAcquire(cfg: Config, s: State, t: nat, c: Conn)
    requires t < |s.threads| && s.threads[t].phase.Ready? && c in s.threads[t].held && !AnyAsleep(s)
    requires s.idleCount == |s.idle| && (cfg.maxIdle > 0 ==> |s.idle| < cfg.maxIdle)
    ensures var es := [CallRelease(t, c), Release(t, true, Nobody(s)), CallAcquire(t), Pop(t), PingOk(t)];
            Run(cfg, s, es) == Some(s)
  {
    var called, idler := Apply(cfg, s, CallRelease(t, c)), Idling(s, t, c);
    NoneAsleep(s, called, t);
    TwoEvents(cfg, s, CallRelease(t, c), Release(t, true, Nobody(s)));
    IdledAgain(cfg, s, t, c);
    hide Run, Enabled, Apply;
    var es := [CallRelease(t, c), Release(t, true, Nobody(s))];
    OneMore(cfg, s, es, idler, CallAcquire(t));
    OneMore(cfg, s, es + [CallAcquire(t)], SetPhase(idler, t, Entering), Pop(t));
    OneMore(cfg, s, es + [CallAcquire(t)] + [Pop(t)],
            SetThread(s, t, Thread(Pinging(c), s.threads[t].held - {c})), PingOk(t));
    assert es + [CallAcquire(t)] + [Pop(t)] + [PingOk(t)]
           == [CallRelease(t, c), Release(t, true, Nobody(s)), CallAcquire(t), Pop(t), PingOk(t)];
  }

  /** The pool between the release and the acquire. */
  function Idling(s: State, t: nat, c: Conn): State
    requires t < |s.threads|
  {
    SetThread(s, t, Thread(Ready, s.threads[t].held - {c})).(idle := [c] + s.idle, idleCount := s.idleCount + 1)
  }

  lemma {:induction false} IdledAgain(cfg: Config, s: State, t: nat, c: Conn)
    requires t < |s.threads| && s.threads[t].phase.Ready? && c in s.threads[t].held && !AnyAsleep(s)
    requires s.idleCount == |s.idle| && (cfg.maxIdle > 0 ==> |s.idle| < cfg.maxIdle)
    ensures var called := SetThread(s, t, Thread(Releasing(c), s.threads[t].held - {c}));
            CanSignal(cfg, called, Nobody(s)) ==> Apply(cfg, called, Release(t, true, Nobody(s))) == Idling(s, t, c)
    ensures var a := Idling(s, t, c);
            && Enabled(cfg, a, CallAcquire(t)) && Apply(cfg, a, CallAcquire(t)) == SetPhase(a, t, Entering)
    ensures var b := SetPhase(Idling(s, t, c), t, Entering);
            && Enabled(cfg, b, Pop(t))
            && Apply(cfg, b, Pop(t)) == SetThread(s, t, Thread(Pinging(c), s.threads[t].held - {c}))
    ensures var p := SetThread(s, t, Thread(Pinging(c), s.threads[t].held - {c}));
            Enabled(cfg, p, PingOk(t)) && Apply(cfg, p, PingOk(t)) == s
  {
    var p := SetThread(s, t, Thread(Pinging(c), s.threads[t].held - {c}));
    assert s.threads[t].held - {c} + {c} == s.threads[t].held;
    assert Apply(cfg, p, PingOk(t)).threads == s.threads;
  }

  lemma {:induction false} OneMore(cfg: Config, s: State, es: seq<Event>, u: State, e: Event)
    requires Run(cfg, s, es) == Some(u) && Enabled(cfg, u, e)
    ensures Run(cfg, s, es + [e]) == Some(Apply(cfg, u, e))
  {
    assert (es + [e])[..|es|] == es;
  }
}
