/**
 heartbeatLock as it runs (internal/mcpserver/runs.go): the select loop with its own lastRenew and
 watchdog, against a clock, a ticker and a store that do as they like within the timed machine.
*/
module HeartbeatRun {
  import opened Heartbeat

  datatype End = Stopped | Canceled | GoingOn

  /** The loop's surroundings: the clock, the ticker, the watchdog timer and the record in the store. */
  class World {
    const c: Timing
    const phased: bool
    var l: Loop
    ghost var lost: bool     // a renew was answered that the lease is not ours
    ghost var ticks: nat     // rounds of the loop that found a tick waiting
    ghost var renews: nat    // renews made

    /** What every step keeps. */
    predicate Kept()
      reads this
    {
      Sound(c) && CoarseInv(c, c.heartbeat - c.budget, l)
    }

    constructor (c: Timing, phased: bool, now: Time, trip: nat)
      requires Sound(c) && trip <= c.heartbeat - c.budget
      ensures this.c == c && this.phased == phased && Kept() && l == Begin(c, now, trip) && !lost
          && ticks == renews == 0
    {
      this.c, this.phased, this.l, lost := c, phased, Begin(c, now, trip), false;
      ticks, renews := 0, 0;
    }

    /** Time passes, ticks arrive and a renew in flight stamps its record; the loop itself does not move. */
    method Elapse()
      requires Kept() && !l.mode.Over?
      modifies this`l
      ensures Kept() && old(l.now) <= l.now && SameLoop(old(l), l)
    {
      var steps: nat := *;
      while steps > 0
        invariant Kept() && old(l.now) <= l.now && SameLoop(old(l), l)
      {
        var e: Event := *;
        if Outside(e) && Enabled(c, phased, l, e) {
          Passes(c, phased, l, e);
          l := Apply(c, phased, l, e);
        }
        steps := steps - 1;
      }
    }

    /** The loop waits in its select; a tick may be waiting when it goes on. */
    method Await()
      requires Kept() && !l.mode.Over?
      modifies this`l, this`ticks
      ensures Kept() && old(l.now) <= l.now && SameLoop(old(l), l)
      ensures ticks == old(ticks) + if l.tickReady then 1 else 0
    {
      Elapse();
      if l.tickReady { ticks := ticks + 1; }
    }

    /** The loop takes a branch of its select, or a renew returns. */
    method Step(e: Event)
      requires Kept() && Enabled(c, phased, l, e) && (e.BeginRenew? || e.Return? || e.WatchdogFires? || e.Stop?)
      modifies this`l
      ensures Kept() && l == Apply(c, phased, old(l), e)
    {
      l := Apply(c, phased, l, e);
    }

    /** A renew, which returns within its budget. */
    method Renew() returns (reply: Reply)
      requires Kept() && l.mode.Idle? && l.tickReady
      modifies this`l, this`lost, this`renews
      ensures Kept() && l.mode.Renewing? && Enabled(c, phased, l, Return(reply))
      ensures l.lastRenew == old(l.lastRenew) && l.due == old(l.due) && l.stamped == old(l.stamped)
      ensures lost == (old(lost) || reply.NotMine?) && renews == old(renews) + 1
    {
      renews := renews + 1;
      Step(BeginRenew);
      Elapse();
      reply := *;
      if reply.Renewed? && !l.mode.stamped { reply := StoreError; }
      lost := lost || reply.NotMine?;
    }
  }

  /** An event that is not a step of the loop itself. */
  predicate Outside(e: Event) { e.Pass? || e.TickOnTime? || e.TickAnyTime? || e.StampRecord? }

  lemma Passes(c: Timing, phased: bool, l: Loop, e: Event)
    requires Sound(c) && CoarseInv(c, c.heartbeat - c.budget, l) && Outside(e) && Enabled(c, phased, l, e)
    ensures var m := Apply(c, phased, l, e); CoarseInv(c, c.heartbeat - c.budget, m) && l.now <= m.now && SameLoop(l, m)
  {
  }

  predicate SameLoop(a: Loop, b: Loop) {
    && a.lastRenew == b.lastRenew && a.due == b.due && a.stamped == b.stamped && a.anchor == b.anchor
    && (a.mode.Idle? ==> b.mode.Idle?)
    && (a.mode.Renewing? ==> b.mode.Renewing? && b.mode.began == a.mode.began)
  }

  /**
   However the select is decided and however long it runs, the loop is over, or still running, no
   later than one TTL after the stamp of its last renew. It cancels the run for a lease that is lost,
   always, or when no renew has succeeded for the TTL without a heartbeat, and for nothing else; it
   stops only when told to (in a round that stops marks), and renews on every tick it finds, but for
   one at which it ends.
  */
  method HeartbeatLock(w: World, rounds: nat, stops: nat -> bool) returns (end: End)
    requires w.Kept() && w.l.mode.Idle? && w.l.lastRenew == w.l.now
    modifies w
    ensures w.l.now <= w.l.stamped + w.c.ttl
    ensures end.GoingOn? <==> !w.l.mode.Over?
    ensures !old(w.lost) ==> (w.lost ==> end == Canceled)
    ensures end == Stopped ==> exists k :: 0 <= k < rounds && stops(k)
    ensures w.renews - old(w.renews) <= w.ticks - old(w.ticks)
    ensures w.ticks - old(w.ticks) <= w.renews - old(w.renews) + (if end.GoingOn? then 0 else 1)
    ensures end == Canceled ==> w.lost || w.l.now - w.l.lastRenew >= w.c.ttl - w.c.heartbeat
  {
    var safeWindow := w.c.ttl - w.c.heartbeat;
    var lastRenew := w.l.now;
    var watchdog := lastRenew + safeWindow;
    var left := rounds;
    while left > 0
      invariant w.Kept() && w.l.mode.Idle? && w.lost == old(w.lost)
      invariant 0 <= left <= rounds && w.renews - old(w.renews) == w.ticks - old(w.ticks)
      invariant lastRenew == w.l.lastRenew && watchdog == w.l.due == lastRenew + safeWindow
    {
      left := left - 1;
      w.Await();
      var first: bool := *;
      if stops(left) {
        w.Step(Stop);
        return Stopped;
      }
      if w.l.now >= watchdog && (first || !w.l.tickReady) {
        w.Step(WatchdogFires);
        return Canceled;
      }
      if w.l.tickReady {
        var reply := w.Renew();
        var action := HeartbeatDecision(w.c, reply, w.l.now - lastRenew);
        w.Step(Return(reply));
        match action {
          case Refreshed =>
            lastRenew := w.l.now;
            watchdog := lastRenew + safeWindow;
          case Continue =>
          case Cancel => return Canceled;
        }
      }
    }
    end := GoingOn;
  }
}
