/**
 The connection pool as a transition system over any number of threads.

 A thread runs `corm_pool_acquire` or `corm_pool_release`; every section under the pool's mutex is one
 event, and so is every step taken between two such sections (ping, open, close). Waking a sleeper,
 with or without a signal, and the expiry of a timed wait are events of their own.
*/
module PoolProtocol {
  import opened Common

  /** Connections are numbered in the order in which they are opened. */
  type Conn = nat

  /** A limit of zero or less means that there is no limit. */
  datatype Config = Config(maxOpen: int, maxIdle: int, lifetimeMs: int, timeoutMs: int)

  datatype Phase =
    | Ready                     // outside the pool's code
    | Entering                  // about to lock at `retry_acquire`
    | Sleeping                  // blocked on the condition variable
    | Woken                     // the wait returned 0, the lock is not yet retaken
    | TimedOut(consumed: bool)  // the wait expired; `consumed`: a signal was spent on it all the same
    | Pinging(conn: Conn)       // popped, the lock dropped for the ping
    | Discarding(conn: Conn)    // the ping failed, the connection is not yet closed
    | Vacating                  // closed, `current_open` not yet lowered
    | Opening(attempts: nat)    // a slot is reserved, the lock dropped for the open
    | OpenFailed                // three attempts failed, the slot is not yet given back
    | Releasing(conn: Conn)     // in `corm_pool_release`, about to lock

  /** What a thread is doing, and the connections it has acquired and not yet released. */
  datatype Thread = Thread(phase: Phase, held: set<Conn>)

  /** `opens`, `closed` and `lost` are history: how many connections were ever opened, which of them were
      closed, and how many signals ended in a timed-out waiter that gave up. */
  datatype State = State(
    idle: seq<Conn>, idleCount: int, currentOpen: int, threads: seq<Thread>,
    opens: nat, closed: set<Conn>, lost: nat)

  /** The sleeper a `pthread_cond_signal` reaches; `late` when that sleeper's timed wait expires concurrently
      and consumes the signal, which POSIX.1-2017 permits. */
  datatype Signal = Signal(to: nat, late: bool)

  datatype Event =
    | CallAcquire(t: nat)
    | Sleep(t: nat)                                         // the wait loop finds nothing
    | GiveUp(t: nat)                                        // the wait expired and the idle list is empty
    | Pop(t: nat)                                           // an idle connection, not expired
    | PopExpired(t: nat, sig: Signal)                       // an idle connection past its lifetime
    | Reserve(t: nat)                                       // no idle connection, but a free slot
    | PingOk(t: nat)
    | PingFail(t: nat)
    | CloseDiscarded(t: nat)
    | Vacate(t: nat, sig: Signal)
    | OpenOk(t: nat)
    | OpenFail(t: nat)
    | RollBack(t: nat, sig: Signal)
    | CallRelease(t: nat, conn: Conn)
    | Release(t: nat, nodeAllocated: bool, sig: Signal)
    | WakeSpuriously(t: nat)
    | Expire(t: nat)

  // ----- The events

  /** The guard of the wait loop. */
  predicate Exhausted(cfg: Config, s: State) {
    s.idle == [] && cfg.maxOpen > 0 && s.currentOpen >= cfg.maxOpen
  }

  predicate AnyAsleep(s: State) {
    exists i :: 0 <= i < |s.threads| && s.threads[i].phase.Sleeping?
  }

  /** A signal reaches a sleeper whenever there is one; only a timed wait can be late. */
  predicate CanSignal(cfg: Config, s: State, sig: Signal) {
    && (AnyAsleep(s) ==> sig.to < |s.threads| && s.threads[sig.to].phase.Sleeping?)
    && (sig.late ==> cfg.timeoutMs > 0)
  }

  predicate Enabled(cfg: Config, s: State, e: Event) {
    && e.t < |s.threads|
    && var th := s.threads[e.t];
       match e
       case CallAcquire(_) => th.phase.Ready?
       case Sleep(_) => (th.phase.Entering? || th.phase.Woken?) && Exhausted(cfg, s)
       case GiveUp(_) => th.phase.TimedOut? && s.idle == []
       case Pop(_) => (th.phase.Entering? || th.phase.Woken? || th.phase.TimedOut?) && s.idle != []
       case PopExpired(_, sig) =>
         && (th.phase.Entering? || th.phase.Woken? || th.phase.TimedOut?)
         && s.idle != [] && cfg.lifetimeMs > 0 && CanSignal(cfg, s, sig)
       case Reserve(_) => (th.phase.Entering? || th.phase.Woken?) && s.idle == [] && !Exhausted(cfg, s)
       case PingOk(_) => th.phase.Pinging?
       case PingFail(_) => th.phase.Pinging?
       case CloseDiscarded(_) => th.phase.Discarding?
       case Vacate(_, sig) => th.phase.Vacating? && CanSignal(cfg, s, sig)
       case OpenOk(_) => th.phase.Opening?
       case OpenFail(_) => th.phase.Opening?
       case RollBack(_, sig) => th.phase.OpenFailed? && CanSignal(cfg, s, sig)
       case CallRelease(_, c) => th.phase.Ready? && c in th.held
       case Release(_, _, sig) => th.phase.Releasing? && CanSignal(cfg, s, sig)
       case WakeSpuriously(_) => th.phase.Sleeping?
       case Expire(_) => th.phase.Sleeping? && cfg.timeoutMs > 0
  }

  function SetThread(s: State, t: nat, th: Thread): State
    requires t < |s.threads|
  {
    s.(threads := s.threads[t := th])
  }

  function SetPhase(s: State, t: nat, p: Phase): State
    requires t < |s.threads|
  {
    SetThread(s, t, s.threads[t].(phase := p))
  }

  /** `pthread_cond_signal`: without a sleeper the signal is gone. */
  function Wake(s: State, sig: Signal): State {
    if sig.to < |s.threads| && s.threads[sig.to].phase.Sleeping? then
      SetPhase(s, sig.to, if sig.late then TimedOut(true) else Woken)
    else s
  }

  function Apply(cfg: Config, s: State, e: Event): State
    requires Enabled(cfg, s, e)
  {
    var th := s.threads[e.t];
    match e
    case CallAcquire(t) => SetPhase(s, t, Entering)
    case Sleep(t) => SetPhase(s, t, Sleeping)
    case GiveUp(t) => SetPhase(s, t, Ready).(lost := if th.phase.consumed then s.lost + 1 else s.lost)
    case Pop(t) =>
      SetPhase(s, t, Pinging(s.idle[0])).(idle := s.idle[1..], idleCount := s.idleCount - 1)
    case PopExpired(t, sig) =>
      Wake(SetPhase(s, t, Entering).(idle := s.idle[1..], idleCount := s.idleCount - 1,
                                     closed := s.closed + {s.idle[0]}, currentOpen := s.currentOpen - 1), sig)
    case Reserve(t) => SetPhase(s, t, Opening(0)).(currentOpen := s.currentOpen + 1)
    case PingOk(t) => SetThread(s, t, Thread(Ready, th.held + {th.phase.conn}))
    case PingFail(t) => SetPhase(s, t, Discarding(th.phase.conn))
    case CloseDiscarded(t) => SetPhase(s, t, Vacating).(closed := s.closed + {th.phase.conn})
    case Vacate(t, sig) => Wake(SetPhase(s, t, Entering).(currentOpen := s.currentOpen - 1), sig)
    case OpenOk(t) => SetThread(s, t, Thread(Ready, th.held + {s.opens})).(opens := s.opens + 1)
    case OpenFail(t) =>
      SetPhase(s, t, if th.phase.attempts < 2 then Opening(th.phase.attempts + 1) else OpenFailed)
    case RollBack(t, sig) => Wake(SetPhase(s, t, Ready).(currentOpen := s.currentOpen - 1), sig)
    case CallRelease(t, c) => SetThread(s, t, Thread(Releasing(c), th.held - {c}))
    case Release(t, nodeAllocated, sig) =>
      var c := th.phase.conn;
      if (cfg.maxIdle > 0 && s.idleCount >= cfg.maxIdle) || !nodeAllocated then
        Wake(SetPhase(s, t, Ready).(closed := s.closed + {c}, currentOpen := s.currentOpen - 1), sig)
      else
        Wake(SetPhase(s, t, Ready).(idle := [c] + s.idle, idleCount := s.idleCount + 1), sig)
    case WakeSpuriously(t) => SetPhase(s, t, Woken)
    case Expire(t) => SetPhase(s, t, TimedOut(false))
  }

  /** A new pool and `n` threads that have not called it yet. */
  function Start(n: nat): State {
    State([], 0, 0, seq(n, _ => Thread(Ready, {})), 0, {}, 0)
  }

  /** The state after the events `es`, unless one of them was not enabled. */
  function Run(cfg: Config, s: State, es: seq<Event>): Option<State> {
    if es == [] then Some(s)
    else
      var last := |es| - 1;
      match Run(cfg, s, es[..last])
      case None => None
      case Some(u) => if Enabled(cfg, u, es[last]) then Some(Apply(cfg, u, es[last])) else None
  }

  ghost predicate Reachable(cfg: Config, n: nat, s: State) {
    exists es :: Run(cfg, Start(n), es) == Some(s)
  }

  // ----- Counting threads and collecting connections

  /** What a thread can be counted for. */
  datatype Kind = Asleep | Awake | Swallowed | Borrowed | Popped | Reserved | Has(conn: Conn)

  /** The connection is in the thread's hands, but not borrowed by its client. */
  predicate InFlight(p: Phase, c: Conn) {
    p == Pinging(c) || p == Discarding(c) || p == Releasing(c)
  }

  function Weight(th: Thread, k: Kind): nat {
    match k
    case Asleep => if th.phase.Sleeping? then 1 else 0
    case Awake => if th.phase.Woken? then 1 else 0
    case Swallowed => if th.phase == TimedOut(true) then 1 else 0
    case Borrowed => |th.held| + if th.phase.Releasing? then 1 else 0
    case Popped => if th.phase.Pinging? || th.phase.Discarding? || th.phase.Vacating? then 1 else 0
    case Reserved => if th.phase.Opening? || th.phase.OpenFailed? then 1 else 0
    case Has(c) => (if c in th.held then 1 else 0) + if InFlight(th.phase, c) then 1 else 0
  }

  function Tally(ts: seq<Thread>, k: Kind): nat {
    if ts == [] then 0 else Weight(ts[0], k) + Tally(ts[1..], k)
  }

  /** In how many places connection `c` is: idle entries and threads' hands. */
  function Places(s: State, c: Conn): nat {
    multiset(s.idle)[c] + Tally(s.threads, Has(c))
  }

  function Listed(idle: seq<Conn>): set<Conn> {
    set c | c in idle
  }

  function Available(cfg: Config, s: State): int {
    |s.idle| + cfg.maxOpen - s.currentOpen
  }

  lemma {:induction false} TallyUpdate(ts: seq<Thread>, t: nat, th: Thread, k: Kind)
    requires t < |ts|
    ensures Tally(ts[t := th], k) == Tally(ts, k) - Weight(ts[t], k) + Weight(th, k)
  {
    if t == 0 {
      assert ts[t := th][1..] == ts[1..];
    } else {
      TallyUpdate(ts[1..], t - 1, th, k);
      assert ts[t := th][1..] == ts[1..][t - 1 := th];
    }
  }

  /** A count is positive exactly when some thread is counted. */
  lemma {:induction false} TallyPositive(ts: seq<Thread>, k: Kind)
    ensures Tally(ts, k) > 0 <==> exists i :: 0 <= i < |ts| && Weight(ts[i], k) > 0
  {
    if ts != [] {
      TallyPositive(ts[1..], k);
      assert forall i :: 0 <= i < |ts[1..]| ==> ts[1..][i] == ts[i + 1];
      assert forall i :: 0 < i < |ts| ==> ts[i] == ts[1..][i - 1];
    }
  }
}
