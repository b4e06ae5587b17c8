/**
 The lease heartbeat as a timed state machine: a ticker, renews bounded by a budget and a
 watchdog, in one select loop. Local work takes no time; a ready select branch is taken
 before time passes; everything else about timing is free. Times are nanoseconds.
*/
module Heartbeat {
  type Time = int

  const SECOND: Time := 1_000_000_000

  datatype Timing = Timing(ttl: Time, heartbeat: Time, budget: Time)

  const DEFAULTS := Timing(45 * SECOND, 15 * SECOND, 8 * SECOND)

  /** The package variables, and the one call that re-derives them. */
  class LockTiming {
    var runLockTTL: Time
    var runLockHeartbeat: Time
    var renewBudget: Time
    var reconcileStaleAfter: Time

    constructor ()
      ensures View() == DEFAULTS == Timing(45_000_000_000, 15_000_000_000, 8_000_000_000)
      ensures reconcileStaleAfter == 105_000_000_000
    {
      runLockTTL, runLockHeartbeat, renewBudget := 45 * SECOND, 15 * SECOND, 8 * SECOND;
      reconcileStaleAfter := 45 * SECOND + 60 * SECOND;
    }

    function View(): Timing
      reads this
    {
      Timing(runLockTTL, runLockHeartbeat, renewBudget)
    }

    method SetRunLockTiming(ttl: Time)
      modifies this
      ensures View() == Derived(ttl) && Sound(View())
      ensures runLockTTL == if ttl < 10_000_000_000 then 10_000_000_000 else ttl
      ensures runLockHeartbeat == runLockTTL / 3 && renewBudget == runLockTTL / 6
      ensures reconcileStaleAfter == runLockTTL + 60_000_000_000
    {
      var t := ttl;
      if t < 10 * SECOND { t := 10 * SECOND; }
      runLockTTL := t;
      runLockHeartbeat := t / 3;
      renewBudget := t / 6;
      reconcileStaleAfter := t + 60 * SECOND;
      DerivedIsSound(ttl);
    }
  }

  function Derived(ttl: Time): Timing {
    var t := if ttl < 10 * SECOND then 10 * SECOND else ttl;
    Timing(t, t / 3, t / 6)
  }

  /** The coarse condition: two budgets fit in one heartbeat. */
  predicate Coarse(c: Timing) { 2 * c.budget <= c.heartbeat }

  /** The condition that uses the phase of the ticks. */
  predicate Phase(c: Timing) { 3 * c.heartbeat <= c.ttl && c.ttl + c.budget < 4 * c.heartbeat }

  predicate Sound(c: Timing) { 0 < c.budget <= c.heartbeat < c.ttl && Coarse(c) && Phase(c) }

  /** Every TTL handed to setRunLockTiming yields values that satisfy both conditions. */
  lemma DerivedIsSound(ttl: Time)
    ensures Sound(Derived(ttl))
  {
    var t := Derived(ttl).ttl;
    assert t == 3 * (t / 3) + t % 3 && t == 6 * (t / 6) + t % 6;
  }

  // ------------------------------------------------------------ one tick's decision

  datatype Reply = Renewed | NotMine | StoreError

  datatype Action = Continue | Refreshed | Cancel

  function HeartbeatDecision(c: Timing, reply: Reply, sinceLastRenew: Time): Action {
    match reply
    case Renewed => Refreshed
    case NotMine => Cancel
    case StoreError => if sinceLastRenew >= c.ttl - c.heartbeat then Cancel else Continue
  }

  // ------------------------------------------------------------ the loop

  /** Where the goroutine is; `stamp` is when the renew in flight stamped its record, if it has. */
  datatype Mode = Idle | Renewing(began: Time, stamp: Time, stamped: bool) | Over

  datatype Loop = Loop(
    now: Time,
    mode: Mode,
    tickReady: bool,   // the ticker channel holds a tick
    nextTick: Time,
    lastRenew: Time,
    due: Time,         // when the watchdog fires
    stamped: Time,     // when the record the store holds was stamped
    anchor: Time       // when the last successful renew began, or the loop
  )

  datatype Event =
    | Pass(elapsed: nat)
    | TickOnTime
    | TickAnyTime      // only without the phase: jitter of any size
    | BeginRenew
    | StampRecord
    | Return(reply: Reply)
    | WatchdogFires
    | Stop

  function SafeWindow(c: Timing): Time { c.ttl - c.heartbeat }

  /** The loop begins `trip` after the acquire stamped its record. */
  function Begin(c: Timing, now: Time, trip: nat): Loop {
    Loop(now, Idle, false, now + c.heartbeat, now, now + SafeWindow(c), now - trip, now)
  }

  predicate Enabled(c: Timing, phased: bool, l: Loop, e: Event) {
    match e
    case Pass(d) =>
      && (l.mode.Idle? ==> !l.tickReady && l.now + d <= l.due)
      && (l.mode.Renewing? ==> l.now + d <= l.mode.began + c.budget)
      && !l.mode.Over?
      && (phased ==> l.now + d <= l.nextTick)
    case TickOnTime => phased && l.now == l.nextTick && !l.mode.Over?
    case TickAnyTime => !phased && !l.mode.Over?
    case BeginRenew => l.mode.Idle? && l.tickReady
    case StampRecord => l.mode.Renewing? && !l.mode.stamped
    case Return(reply) => l.mode.Renewing? && (reply.Renewed? ==> l.mode.stamped)
    case WatchdogFires => l.mode.Idle? && l.now >= l.due
    case Stop => !l.mode.Over?
  }

  function Apply(c: Timing, phased: bool, l: Loop, e: Event): Loop
    requires Enabled(c, phased, l, e)
  {
    match e
    case Pass(d) => l.(now := l.now + d)
    case TickOnTime => l.(tickReady := true, nextTick := l.nextTick + c.heartbeat)
    case TickAnyTime => l.(tickReady := true)
    case BeginRenew => l.(tickReady := false, mode := Renewing(l.now, 0, false))
    case StampRecord => l.(mode := Renewing(l.mode.began, l.now, true))
    case Return(reply) =>
      (match HeartbeatDecision(c, reply, l.now - l.lastRenew)
       case Refreshed =>
         l.(mode := Idle, lastRenew := l.now, due := l.now + SafeWindow(c),
            stamped := l.mode.stamp, anchor := l.mode.began)
       case Continue => l.(mode := Idle)
       case Cancel => l.(mode := Over))
    case WatchdogFires => l.(mode := Over)
    case Stop => l.(mode := Over)
  }

  ghost predicate Reaches(c: Timing, phased: bool, l: Loop, es: seq<Event>, m: Loop)
    decreases |es|
  {
    if es == [] then l == m
    else Enabled(c, phased, l, es[0]) && Reaches(c, phased, Apply(c, phased, l, es[0]), es[1..], m)
  }

  /** The run may still be writing: the loop neither cancelled nor was stopped. */
  predicate Running(l: Loop) { !l.mode.Over? }

  /**
   What the answer of a renew does: a lease that is not ours any more ends the run at once; a success
   starts the safe window anew; an error of the store is tolerated exactly while less than the TTL
   without a heartbeat has passed since the last success.
  */
  lemma ReplyDecides(c: Timing, phased: bool, l: Loop, reply: Reply)
    requires Enabled(c, phased, l, Return(reply))
    ensures var m := Apply(c, phased, l, Return(reply));
      && m.now == l.now && m.nextTick == l.nextTick && m.tickReady == l.tickReady
      && (reply.NotMine? ==> m.mode.Over?)
      && (reply.Renewed? ==>
            && m.mode.Idle? && m.lastRenew == l.now && m.due == l.now + c.ttl - c.heartbeat
            && m.stamped == l.mode.stamp && m.anchor == l.mode.began)
      && (reply.StoreError? ==>
            && (m.mode.Over? <==> l.now - l.lastRenew >= c.ttl - c.heartbeat)
            && (!m.mode.Over? ==> m.mode.Idle?)
            && m.lastRenew == l.lastRenew && m.due == l.due && m.stamped == l.stamped && m.anchor == l.anchor)
  {
  }

  /** The loop begins with a whole safe window, and its watchdog ends the run only when that is used up. */
  lemma WatchdogWaits(c: Timing, phased: bool, now: Time, trip: nat, l: Loop)
    ensures Begin(c, now, trip).due == now + c.ttl - c.heartbeat && Begin(c, now, trip).nextTick == now + c.heartbeat
    ensures Enabled(c, phased, l, WatchdogFires) <==> l.mode.Idle? && l.now >= l.due
  {
  }

  // ------------------------------------------------------------ the coarse bound

  /** slack is how far a successful renew, or the acquire, may have ended after its stamp. */
  predicate CoarseInv(c: Timing, slack: Time, l: Loop) {
    && l.lastRenew <= l.stamped + slack && l.due == l.lastRenew + SafeWindow(c)
    && l.lastRenew <= l.now
    && (l.mode.Idle? ==> l.now <= l.due)
    && (l.mode.Renewing? ==> l.mode.began <= l.due && l.mode.began <= l.now <= l.mode.began + c.budget)
    && (l.mode.Renewing? && l.mode.stamped ==> l.mode.began <= l.mode.stamp <= l.now)
  }

  lemma {:induction false} CoarseRun(c: Timing, slack: Time, phased: bool, l: Loop, es: seq<Event>, m: Loop)
    requires 0 <= c.budget <= slack && c.heartbeat <= c.ttl && CoarseInv(c, slack, l) && Reaches(c, phased, l, es, m)
    ensures CoarseInv(c, slack, m)
    decreases |es|
  {
    if es == [] {
    } else {
      CoarseRun(c, slack, phased, Apply(c, phased, l, es[0]), es[1..], m);
    }
  }

  /**
   Whatever the ticks do, the loop renews again or cancels no later than one TTL after the
   stamp of its last renew. The bound reaches back to acquire when its trip leaves a budget
   within the heartbeat.
  */
  lemma DeadlineAnyTicks(c: Timing, phased: bool, now: Time, trip: nat, es: seq<Event>, m: Loop)
    requires 0 <= c.budget && c.heartbeat <= c.ttl && Coarse(c) && trip <= c.heartbeat - c.budget
    requires Reaches(c, phased, Begin(c, now, trip), es, m) && Running(m)
    ensures m.now <= m.stamped + c.ttl
  {
    CoarseRun(c, c.heartbeat - c.budget, phased, Begin(c, now, trip), es, m);
  }

  /** With this acquire trip, no run of the loop outlasts its last stamp by more than the TTL. */
  ghost predicate TripKept(c: Timing, trip: nat) {
    forall es, m :: Reaches(c, false, Begin(c, 0, trip), es, m) && Running(m) ==> m.now <= m.stamped + c.ttl
  }

  /** A tick at the very moment the watchdog falls due, and a renew that uses up its budget. */
  lemma LateTick(c: Timing, l: Loop, es: seq<Event>, m: Loop) returns (n: Loop, fs: seq<Event>)
    requires 0 <= c.budget && c.heartbeat <= c.ttl && Reaches(c, false, l, es, m)
    requires m.mode.Idle? && !m.tickReady && m.now == m.lastRenew && m.due == m.now + SafeWindow(c)
    ensures Reaches(c, false, l, fs, n) && Running(n)
    ensures n.now == m.due + c.budget && n.stamped == m.stamped
  {
    n, fs := Go(c, false, l, es, m, Pass(SafeWindow(c)));
    n, fs := Go(c, false, l, fs, n, TickAnyTime);
    n, fs := Go(c, false, l, fs, n, BeginRenew);
    n, fs := Go(c, false, l, fs, n, Pass(c.budget));
  }

  /** A renew that stamps at once and returns at the end of its budget. */
  lemma SlowRenew(c: Timing, l: Loop) returns (n: Loop, fs: seq<Event>)
    requires 0 <= c.budget && c.heartbeat <= c.ttl && l == Begin(c, 0, 0)
    ensures Reaches(c, false, l, fs, n) && n.mode.Idle? && !n.tickReady
    ensures n.now == n.lastRenew == c.budget && n.stamped == 0 && n.due == n.now + SafeWindow(c)
  {
    n, fs := Go(c, false, l, [], l, TickAnyTime);
    n, fs := Go(c, false, l, fs, n, BeginRenew);
    n, fs := Go(c, false, l, fs, n, StampRecord);
    n, fs := Go(c, false, l, fs, n, Pass(c.budget));
    n, fs := Go(c, false, l, fs, n, Return(Renewed));
  }

  /** For arbitrary ticks the bound is exact, trip by trip. */
  lemma DeadlineTripIff(c: Timing, trip: nat)
    requires 0 <= c.budget && c.heartbeat <= c.ttl && Coarse(c)
    ensures TripKept(c, trip) <==> trip <= c.heartbeat - c.budget
  {
    if trip <= c.heartbeat - c.budget {
      forall es, m | Reaches(c, false, Begin(c, 0, trip), es, m) && Running(m) ensures m.now <= m.stamped + c.ttl {
        DeadlineAnyTicks(c, false, 0, trip, es, m);
      }
    } else {
      var l := Begin(c, 0, trip);
      var m, es := LateTick(c, l, [], l);
      assert !(m.now <= m.stamped + c.ttl);
    }
  }

  /** No trip at all keeps it unless two budgets fit in a heartbeat. */
  lemma DeadlineAnyTicksIff(c: Timing)
    requires 0 <= c.budget && c.heartbeat <= c.ttl
    ensures TripKept(c, 0) <==> Coarse(c)
    ensures (forall trip: nat :: trip <= c.budget ==> TripKept(c, trip)) <==> Coarse(c)
  {
    if Coarse(c) {
      forall trip: nat | trip <= c.budget ensures TripKept(c, trip) { DeadlineTripIff(c, trip); }
    } else {
      var l := Begin(c, 0, 0);
      var n, fs := SlowRenew(c, l);
      var m, es := LateTick(c, l, fs, n);
      assert !(m.now <= m.stamped + c.ttl);
      assert !TripKept(c, 0);
    }
  }

  /** The values in force before any setRunLockTiming miss the coarse condition by a second. */
  lemma DefaultsNeedThePhase()
    ensures !TripKept(DEFAULTS, 0) && Phase(DEFAULTS)
  {
    DeadlineAnyTicksIff(DEFAULTS);
  }

  // ------------------------------------------------------------ the bound from the phase

  predicate PhaseInv(c: Timing, slack: Time, l: Loop) {
    && CoarseInv(c, slack, l)
    && l.now <= l.nextTick
    && (l.nextTick == l.anchor + c.heartbeat || l.nextTick == l.anchor + 2 * c.heartbeat
        || l.nextTick == l.anchor + 3 * c.heartbeat)
    && l.anchor <= l.lastRenew <= l.anchor + c.budget
    && (l.tickReady ==> l.mode.Idle? && l.now == l.nextTick - c.heartbeat && l.now <= l.due)
    && (l.mode.Renewing? ==> l.mode.began == l.nextTick - c.heartbeat)
  }

  lemma PhaseStep(c: Timing, slack: Time, l: Loop, e: Event)
    requires 0 < c.budget < c.heartbeat < c.ttl && c.budget <= slack && Phase(c)
    requires Running(l) && PhaseInv(c, slack, l) && Enabled(c, true, l, e)
    ensures Running(Apply(c, true, l, e)) ==> PhaseInv(c, slack, Apply(c, true, l, e))
  {
  }

  lemma {:induction false} PhaseRun(c: Timing, slack: Time, l: Loop, es: seq<Event>, m: Loop)
    requires 0 < c.budget < c.heartbeat < c.ttl && c.budget <= slack && Phase(c)
    requires Running(l) ==> PhaseInv(c, slack, l)
    requires Reaches(c, true, l, es, m) && Running(m)
    ensures PhaseInv(c, slack, m)
    decreases |es|
  {
    hide PhaseInv, Phase, Apply;
    if es == [] {
    } else {
      PhaseStep(c, slack, l, es[0]);
      PhaseRun(c, slack, Apply(c, true, l, es[0]), es[1..], m);
    }
  }

  function Larger(a: Time, b: Time): Time { if a < b then b else a }

  /**
   On a ticker that keeps its phase, the loop ends at most a budget past the safe window of the tick it
   last renewed on.
  */
  lemma DeadlineOnPhase(c: Timing, now: Time, trip: nat, es: seq<Event>, m: Loop)
    requires 0 < c.budget < c.heartbeat < c.ttl && Phase(c)
    requires Reaches(c, true, Begin(c, now, trip), es, m) && Running(m)
    ensures m.now <= m.anchor + SafeWindow(c) + c.budget
  {
    PhaseRun(c, Larger(c.budget, trip), Begin(c, now, trip), es, m);
  }

  /** Until the first renew the stamp is the acquire's; after it, never before the tick. */
  predicate StampKnown(l: Loop, now: Time, trip: nat) {
    l.anchor <= l.stamped || (l.anchor == now && l.stamped == now - trip)
  }

  lemma {:induction false} StampRun(c: Timing, slack: Time, now: Time, trip: nat, l: Loop, es: seq<Event>, m: Loop)
    requires 0 < c.budget < c.heartbeat < c.ttl && c.budget <= slack && CoarseInv(c, slack, l)
    requires StampKnown(l, now, trip) && Reaches(c, true, l, es, m)
    ensures StampKnown(m, now, trip)
    decreases |es|
  {
    if es == [] {
    } else {
      StampRun(c, slack, now, trip, Apply(c, true, l, es[0]), es[1..], m);
    }
  }

  ghost predicate DefaultsKept(trip: nat) {
    forall es, m :: Reaches(DEFAULTS, true, Begin(DEFAULTS, 0, trip), es, m) && Running(m) ==>
      m.now <= m.stamped + DEFAULTS.ttl
  }

  /**
   With the default values every renew is in time; the stretch from acquire is exactly when its trip took at most 7 s.
  */
  lemma DefaultsKeepDeadline(trip: nat)
    ensures DefaultsKept(trip) <==> trip <= 7 * SECOND
    ensures forall es, m ::
              Reaches(DEFAULTS, true, Begin(DEFAULTS, 0, trip), es, m) && Running(m) && m.anchor <= m.stamped ==>
              m.now <= m.stamped + DEFAULTS.ttl
  {
    forall es, m | Reaches(DEFAULTS, true, Begin(DEFAULTS, 0, trip), es, m) && Running(m)
      ensures m.anchor <= m.stamped || trip <= 7 * SECOND ==> m.now <= m.stamped + DEFAULTS.ttl
    {
      DeadlineOnPhase(DEFAULTS, 0, trip, es, m);
      StampRun(DEFAULTS, Larger(DEFAULTS.budget, trip), 0, trip, Begin(DEFAULTS, 0, trip), es, m);
    }
    if trip > 7 * SECOND {
      LateRun(trip);
    }
  }

  lemma {:induction false} Snoc(c: Timing, phased: bool, l: Loop, es: seq<Event>, m: Loop, e: Event)
    requires Reaches(c, phased, l, es, m) && Enabled(c, phased, m, e)
    ensures Reaches(c, phased, l, es + [e], Apply(c, phased, m, e))
    decreases |es|
  {
    if es == [] {
      assert [e][1..] == [];
    } else {
      Snoc(c, phased, Apply(c, phased, l, es[0]), es[1..], m, e);
      assert (es + [e])[1..] == es[1..] + [e];
    }
  }

  lemma Go(c: Timing, phased: bool, l: Loop, es: seq<Event>, m: Loop, e: Event) returns (n: Loop, fs: seq<Event>)
    requires Reaches(c, phased, l, es, m) && Enabled(c, phased, m, e)
    ensures n == Apply(c, phased, m, e) && Reaches(c, phased, l, fs, n)
  {
    Snoc(c, phased, l, es, m, e);
    n, fs := Apply(c, phased, m, e), es + [e];
  }

  /** A failed renew on the first tick, and on the second one that is still in flight when the watchdog falls due. */
  lemma LateRun(trip: nat)
    requires trip > 7 * SECOND
    ensures !DefaultsKept(trip)
  {
    var c, l := DEFAULTS, Begin(DEFAULTS, 0, trip);
    var m, es := Go(c, true, l, [], l, Pass(c.heartbeat));
    m, es := Go(c, true, l, es, m, TickOnTime);
    m, es := Go(c, true, l, es, m, BeginRenew);
    m, es := Go(c, true, l, es, m, Return(StoreError));
    m, es := Go(c, true, l, es, m, Pass(c.heartbeat));
    m, es := Go(c, true, l, es, m, TickOnTime);
    m, es := Go(c, true, l, es, m, BeginRenew);
    m, es := Go(c, true, l, es, m, Pass(c.budget));
    assert m.now > m.stamped + c.ttl;
  }

  /** The machine never stops time: while the run goes on, some event is always possible. */
  lemma NoTimelock(c: Timing, l: Loop)
    requires 0 < c.budget < c.heartbeat < c.ttl && PhaseInv(c, c.budget, l) && Running(l)
    ensures Enabled(c, true, l, Pass(1)) || Enabled(c, true, l, TickOnTime) || Enabled(c, true, l, BeginRenew)
            || Enabled(c, true, l, WatchdogFires) || Enabled(c, true, l, Return(StoreError))
  {
  }
}
