/**
 From an acquire to the first tick of its renew loop: the lease machine and the loop together, with
 any other calls of any replica in between.
*/
module FirstTick {
  import opened Lease
  import opened LeaseSafety
  import opened Options
  import H = Heartbeat

  // ------------------------------------------------------------ a lease nobody renews

  /** What a call can be about without ever writing the lock key. */
  predicate OnlyReads(op: Op) {
    || op.OwnsLook? || op.OwnsJudge? || op.Checkpoint? || op.Done?
    || (op.Stray? && (op.write.PutFenced? || op.write.PutPlain?))
  }

  /** Acquisition k has landed with this record, and no call of its own is about to rewrite or release it. */
  ghost predicate Left(s: State, k: Token, rec: LockRec) {
    && k != "" && k in s.core.order && k !in s.core.released
    && (Carries(s.core.lock, k) ==> s.core.lock == Some(Record(rec)))
    && forall p :: p in s.ops && TokenOf(s.ops[p]) == Some(k) ==> OnlyReads(s.ops[p])
  }

  predicate Renews(e: Event, k: Token) { (e.BeginRenew? || e.BeginRelease?) && e.h.token == k }

  predicate Unrenewed(es: seq<Event>, k: Token) { forall i :: 0 <= i < |es| ==> !Renews(es[i], k) }

  lemma DrawnBefore(s: State, k: Token)
    requires Inv(s) && k in s.core.order
    ensures k in s.core.used
  {
  }

  /** A write of another acquisition's call leaves no record of k but the one that was there. */
  lemma LandLeaves(s: Core, op: Op, w: Write, k: Token, rec: LockRec)
    requires CoreOk(s) && OpOk(s, op) && (Sends(op) == Some(w) || op == Stray(w))
    requires TokenOf(op) == Some(k) ==> OnlyReads(op)
    requires k != "" && k !in s.released && (Carries(s.lock, k) ==> s.lock == Some(Record(rec)))
    ensures var t := Land(s, w);
      k !in t.released && (Carries(t.lock, k) ==> t.lock == Some(Record(rec)))
  {
    hide CoreOk;
  }

  lemma LeftCore(s: State, e: Event, k: Token, rec: LockRec)
    requires Inv(s) && Enabled(s, e) && Left(s, k, rec)
    ensures var t := NextCore(s, e);
      k !in t.released && (Carries(t.lock, k) ==> t.lock == Some(Record(rec)))
  {
    if (e.Next? && Sends(s.ops[e.pid]).Some?) || e.Late? {
      var op := s.ops[e.pid];
      assert OpOk(s.core, op);
      hide Inv, OpOk, CoreOk, Land, OnlyReads;
      LandLeaves(s.core, op, if e.Next? then Sends(op).value else op.write, k, rec);
    }
  }

  lemma LeftLost(s: Core, op: Op, k: Token)
    requires OpOk(s, op) && AtStore(op) && (TokenOf(op) == Some(k) ==> OnlyReads(op))
    ensures var gone := match Sends(op) case Some(w) => Stray(w) case None => Done(Failed);
      TokenOf(gone) == Some(k) ==> OnlyReads(gone)
  {
    hide CopyHolds, Bounded;
  }

  /** A call that only reads goes on only reading. */
  lemma OnlyReadsOn(s: Core, op: Op, ok: bool)
    requires OnlyReads(op)
    ensures OnlyReads(Local(s, op)) && (Sends(op).Some? ==> OnlyReads(Answered(op, ok)))
  {
  }

  lemma LeftOp(s: State, e: Event, k: Token)
    requires Inv(s) && Enabled(s, e) && !e.Tick? && !Renews(e, k) && k in s.core.used
    requires forall p :: p in s.ops && TokenOf(s.ops[p]) == Some(k) ==> OnlyReads(s.ops[p])
    ensures TokenOf(NextOp(s, e)) == Some(k) ==> OnlyReads(NextOp(s, e))
  {
    if e.Next? || e.Lose? {
      var op := s.ops[e.pid];
      assert OpOk(s.core, op) && CoreOk(s.core);
      hide Inv, OpOk, CoreOk, OnlyReads, TokenOf, Local, Answered;
      if e.Lose? {
        LeftLost(s.core, op, k);
      } else if Sends(op).Some? {
        AnsweredOk(s.core, op, Sends(op).value);
        if OnlyReads(op) { OnlyReadsOn(s.core, op, Accepts(s.core, Sends(op).value)); }
      } else {
        LocalOk(s.core, op);
        if OnlyReads(op) { OnlyReadsOn(s.core, op, true); }
      }
    } else {
      hide Inv, OpOk;
    }
  }

  lemma LeftStep(s: State, e: Event, k: Token, rec: LockRec)
    requires Inv(s) && Enabled(s, e) && Left(s, k, rec) && !Renews(e, k)
    ensures Left(Apply(s, e), k, rec)
  {
    ApplyKeeps(s, e);
    LeftCore(s, e, k, rec);
    DrawnBefore(s, k);
    if !e.Tick? { LeftOp(s, e, k); }
    hide Inv, OnlyReads, NextOp, NextCore, KeepsOrLapsed;
  }

  lemma {:induction false} LeftRun(s: State, es: seq<Event>, t: State, k: Token, rec: LockRec)
    requires Inv(s) && Reaches(s, es, t) && Left(s, k, rec) && Unrenewed(es, k)
    ensures Left(t, k, rec)
    decreases |es|
  {
    hide Inv, Left, Enabled, Apply;
    if es == [] {
    } else {
      assert !Renews(es[0], k);
      ApplyKeeps(s, es[0]);
      LeftStep(s, es[0], k, rec);
      LeftRun(Apply(s, es[0]), es[1..], t, k, rec);
    }
  }

  // ------------------------------------------------------------ from the win on

  /** An acquire is about to report success. */
  predicate Wins(s: State, pid: nat) {
    pid in s.ops && s.ops[pid].Confirm? && Local(s.core, s.ops[pid]).Done?
  }

  lemma WonIsLeft(s: State, pid: nat)
    requires Inv(s) && Wins(s, pid)
    ensures var op := s.ops[pid];
      && Left(Apply(s, Next(pid)), op.h.token, op.rec) && Apply(s, Next(pid)).core == s.core
      && op.h.token in s.core.order && CopyHolds(s.core, op.rec) && op.rec.token == op.h.token
          && op.rec.holder == op.h.replica
      && op.rec.expires <= s.core.clock + s.core.ttl
  {
    assert OpOk(s.core, s.ops[pid]);
    assert Exclusive(s.ops[pid]) == Some(s.ops[pid].h.token);
    hide CoreOk, Extends;
  }

  /** Until it renews or releases, the handle owns the lease exactly while the record it stamped is fresh. */
  lemma OwnsWhileFresh(s: State, pid: nat, es: seq<Event>, t: State)
    requires Reachable(s) && Wins(s, pid) && Reaches(Apply(s, Next(pid)), es, t) && Unrenewed(es, s.ops[pid].h.token)
    ensures Owner(t.core, s.ops[pid].h) <==> Fresh(s.ops[pid].rec, t.core.clock)
  {
    hide Inv, Reachable, Reaches, Left, Enabled, Apply;
    ReachableOk(s);
    var h, rec := s.ops[pid].h, s.ops[pid].rec;
    CanMove(s, pid);
    var u := Apply(s, Next(pid));
    WonIsLeft(s, pid);
    ApplyKeeps(s, Next(pid));
    LeftRun(u, es, t, h.token, rec);
    RunKeeps(u, es, t);
    OwnsLeft(u.core, t, h, rec);
  }

  lemma CanMove(s: State, pid: nat)
    requires Wins(s, pid)
    ensures Enabled(s, Next(pid))
  {
  }

  lemma OwnsLeft(u: Core, t: State, h: Handle, rec: LockRec)
    requires Inv(t) && Left(t, h.token, rec) && Extends(u, t.core) && CopyHolds(u, rec)
    requires rec.token == h.token && rec.holder == h.replica && h.token in u.order
    ensures Owner(t.core, h) <==> Fresh(rec, t.core.clock)
  {
  }

  // ------------------------------------------------------------ the first tick

  /** The loop renews nothing before a tick falls due. */
  lemma {:induction false} NoRenewBeforeTick(c: H.Timing, l: H.Loop, es: seq<H.Event>, m: H.Loop)
    requires H.Reaches(c, true, l, es, m) && l.mode.Idle? && !l.tickReady && m.now < l.nextTick
    ensures forall i :: 0 <= i < |es| ==> !es[i].BeginRenew?
    ensures m.now >= l.now
    decreases |es|
  {
    if es == [] {
    } else if es[0].Stop? || es[0].WatchdogFires? {
      NothingAfter(c, H.Apply(c, true, l, es[0]), es[1..], m);
    } else {
      var l1 := H.Apply(c, true, l, es[0]);
      if es[0].TickOnTime? { TimeGoesOn(c, l1, es[1..], m); }
      NoRenewBeforeTick(c, l1, es[1..], m);
    }
  }

  lemma {:induction false} TimeGoesOn(c: H.Timing, l: H.Loop, es: seq<H.Event>, m: H.Loop)
    requires H.Reaches(c, true, l, es, m)
    ensures m.now >= l.now
    decreases |es|
  {
    if es == [] {
    } else {
      TimeGoesOn(c, H.Apply(c, true, l, es[0]), es[1..], m);
    }
  }

  lemma NothingAfter(c: H.Timing, l: H.Loop, es: seq<H.Event>, m: H.Loop)
    requires H.Reaches(c, true, l, es, m) && l.mode.Over?
    ensures es == [] && m == l
  {
  }

  /**
   The loop begins at m, some time after the acquire, and its first tick falls due at t. By then the
   handle still owns the lease exactly when the trip, from the stamp to the loop, was shorter than
   the TTL without a heartbeat; whatever other calls did meanwhile.
  */
  lemma FirstTickIff(c: H.Timing, s: State, pid: nat, es: seq<Event>, m: State, fs: seq<Event>, t: State, trip: nat)
    requires Reachable(s) && Wins(s, pid) && c.ttl == s.core.ttl
    requires Reaches(Apply(s, Next(pid)), es, m) && Reaches(m, fs, t) && Unrenewed(es + fs, s.ops[pid].h.token)
    requires trip == m.core.clock - (s.ops[pid].rec.expires - c.ttl)
    requires t.core.clock == H.Begin(c, m.core.clock, trip).nextTick
    ensures Owner(t.core, s.ops[pid].h) <==> trip < c.ttl - c.heartbeat
  {
    hide Reachable, Enabled, Apply;
    CanMove(s, pid);
    RunsJoin(Apply(s, Next(pid)), es, m, fs, t);
    OwnsWhileFresh(s, pid, es + fs, t);
  }

  lemma {:induction false} RunsJoin(s: State, es: seq<Event>, m: State, fs: seq<Event>, t: State)
    requires Reaches(s, es, m) && Reaches(m, fs, t)
    ensures Reaches(s, es + fs, t)
    decreases |es|
  {
    hide Enabled, Apply;
    if es == [] {
      assert es + fs == fs;
    } else {
      RunsJoin(Apply(s, es[0]), es[1..], m, fs, t);
      assert (es + fs)[1..] == es[1..] + fs;
    }
  }

  // ------------------------------------------------------------ the margin is too small for it

  /** A replica stamps its record, starts the stopwatch, and waits this long for the store ... */
  lemma SlowAcquire(ttl: nat, trip: nat) returns (s: State)
    requires 0 < ttl && trip < ttl - ttl / 4
    ensures Reachable(s) && Wins(s, 0) && s.core.ttl == ttl && s.core.clock == trip
    ensures s.ops[0] == Confirm(HA, LockRec("a", "ka", ttl), 0)
  {
    var start := State(Core(ttl, false, {}, 0, None, {}, [], {}, []), map[]);
    assert Reaches(start, [], start);
    hide Reachable, Reaches, Init;
    s := ReachableStep(start, BeginAcquire(0, "a", "ka"));
    s := ReachableStep(s, Next(0));
    s := ReachableStep(s, Tick(trip));
    s := ReachableStep(s, Next(0));
  }

  /**
   For every TTL acquire lets some such wait pass, and, with nobody else around, its lease has expired
   when the first tick of a loop begun at once falls due.
  */
  lemma MarginEndsBeforeFirstTick(ttl: H.Time)
    ensures var c := H.Derived(ttl);
      exists s: State, t: State :: Reachable(s) && Reachable(t) && Wins(s, 0) && s.core.ttl == c.ttl
        && t == Apply(Apply(s, Next(0)), Tick(c.heartbeat)) && !Owner(t.core, s.ops[0].h)
  {
    H.DerivedIsSound(ttl);
    var c := H.Derived(ttl);
    var trip: nat := c.ttl - c.ttl / 4 - 1;
    var s := SlowAcquire(c.ttl, trip);
    hide Reachable, Owner;
    var m := ReachableStep(s, Next(0));
    var t := ReachableStep(m, Tick(c.heartbeat));
    var es := [Tick(c.heartbeat)];
    assert es[1..] == [] && Reaches(t, [], t) && Reaches(m, es, t) && Reaches(m, [], m) && [] + es == es;
    FirstTickIff(c, s, 0, [], m, es, t, trip);
  }
}
