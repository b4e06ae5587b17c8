/**
 The lease and fence operations as they run (internal/mcpserver/runlock.go and extstore.go), each
 with its store calls in order and other replicas acting before every one of them. A call only ever
 moves along its own program points of the Lease machine, so every theorem about the machine's
 histories is one about these methods.
*/
module RunLock {
  import opened Lease
  import opened LeaseSafety
  import opened Options

  /** The call an event moves. */
  function PidOf(e: Event): Option<nat> {
    match e
    case Tick(_) => None
    case BeginAcquire(pid, _, _) => Some(pid)
    case BeginRenew(pid, _) => Some(pid)
    case BeginRelease(pid, _) => Some(pid)
    case BeginOwns(pid, _) => Some(pid)
    case BeginSave(pid, _, _) => Some(pid)
    case Next(pid) => Some(pid)
    case Lose(pid) => Some(pid)
    case Late(pid) => Some(pid)
  }

  /** A point in a history: the state, and every step taken so far. */
  datatype Moment = Moment(st: State, trace: seq<Event>)

  /** From m to n the machine took exactly the steps by which the trace grew. */
  ghost predicate Progress(m: Moment, n: Moment) {
    && m.trace <= n.trace && Reaches(m.st, n.trace[|m.trace|..], n.st)
    && Extends(m.st.core, n.st.core)
  }

  lemma NoProgress(m: Moment)
    ensures Progress(m, m)
  {
    ExtendsRefl(m.st.core);
  }

  lemma {:induction false} Joined(s: State, es: seq<Event>, t: State, fs: seq<Event>, u: State)
    requires Reaches(s, es, t) && Reaches(t, fs, u)
    ensures Reaches(s, es + fs, u)
    decreases |es|
  {
    hide Enabled, Apply;
    if es == [] {
      assert es + fs == fs;
    } else {
      Joined(Apply(s, es[0]), es[1..], t, fs, u);
      assert (es + fs)[1..] == es[1..] + fs;
    }
  }

  lemma Onward(m: Moment, n: Moment, o: Moment)
    requires Progress(m, n) && Progress(n, o)
    ensures Progress(m, o)
  {
    hide Reaches, Extends;
    Joined(m.st, n.trace[|m.trace|..], n.st, o.trace[|n.trace|..], o.st);
    assert o.trace[|m.trace|..] == n.trace[|m.trace|..] + o.trace[|n.trace|..];
    ExtendsTransitive(m.st.core, n.st.core, o.st.core);
  }

  lemma OneStep(m: Moment, e: Event)
    requires Inv(m.st) && Enabled(m.st, e)
    ensures Inv(Apply(m.st, e)) && Progress(m, Moment(Apply(m.st, e), m.trace + [e]))
  {
    hide Inv, Extends;
    ApplyKeeps(m.st, e);
    hide Enabled, Apply;
    var es := (m.trace + [e])[|m.trace|..];
    assert es == [e] && es[1..] == [];
    assert Reaches(Apply(m.st, e), [], Apply(m.st, e));
  }

  /** So what holds in every reachable state of the machine holds after any of these methods. */
  lemma StaysReachable(m: Moment, n: Moment)
    requires Reachable(m.st) && Progress(m, n)
    ensures Reachable(n.st)
  {
    hide Reaches, Enabled, Apply, Extends;
    var s0: State, es :| Init(s0) && Reaches(s0, es, m.st);
    Joined(s0, es, m.st, n.trace[|m.trace|..], n.st);
  }

  /** The lock key, the checkpoint keys and the clock that all replicas share. */
  class Shared {
    var st: State
    ghost var trace: seq<Event>
    ghost var errors: nat       // store calls of this class that returned an error

    /** Call pid has begun; between its store calls any other call may move. */
    ghost predicate Running(pid: nat)
      reads this
    {
      Inv(st) && pid in st.ops
    }

    ghost function Here(): Moment
      reads this
    {
      Moment(st, trace)
    }

    constructor (st: State)
      ensures this.st == st && trace == [] && errors == 0
    {
      this.st := st;
      trace, errors := [], 0;
    }

    /** Takes one step of the machine. */
    method Take(e: Event)
      requires Inv(st) && Enabled(st, e)
      modifies this`st, this`trace
      ensures Inv(st) && st == Apply(old(st), e) && trace == old(trace) + [e]
      ensures Progress(old(Here()), Here())
    {
      hide Inv, Progress;
      OneStep(Here(), e);
      st := Apply(st, e);
      trace := trace + [e];
    }

    /** Any steps of any other calls, and the passing of time. */
    method Others(pid: nat)
      requires Running(pid)
      modifies this`st, this`trace
      ensures Running(pid) && st.ops[pid] == old(st.ops[pid]) && Progress(old(Here()), Here())
    {
      hide Inv, Progress;
      NoProgress(Here());
      var steps: nat := *;
      while steps > 0
        invariant Running(pid) && st.ops[pid] == old(st.ops[pid]) && Progress(old(Here()), Here())
      {
        var e: Event := *;
        if Enabled(st, e) && PidOf(e) != Some(pid) {
          ghost var was := Here();
          Take(e);
          Onward(old(Here()), was, Here());
        }
        steps := steps - 1;
      }
    }

    /** A new call enters the machine. */
    method Begin(e: Event)
      requires Inv(st) && Enabled(st, e)
      requires e.BeginAcquire? || e.BeginRenew? || e.BeginRelease? || e.BeginOwns? || e.BeginSave?
      modifies this`st, this`trace
      ensures Running(e.pid) && st == Apply(old(st), e) && Progress(old(Here()), Here())
    {
      hide Inv, Progress;
      Take(e);
    }

    /** Reads the clock, on which the call's next program point depends. */
    method Now(pid: nat) returns (now: Time)
      requires Running(pid) && Sends(st.ops[pid]).None?
      requires !AtStore(st.ops[pid]) && !st.ops[pid].Done? && !st.ops[pid].Stray?
      modifies this`st, this`trace
      ensures Running(pid) && st.ops[pid] == Local(st.core, old(st.ops[pid])) && now == st.core.clock
      ensures OpOk(st.core, old(st.ops[pid])) && CoreOk(st.core)
      ensures Progress(old(Here()), Here())
    {
      hide Progress;
      Others(pid);
      ghost var mid := Here();
      assert OpOk(mid.st.core, mid.st.ops[pid]) && CoreOk(mid.st.core);
      hide Inv, OpOk, CoreOk;
      now := st.core.clock;
      Take(Next(pid));
      Onward(old(Here()), mid, Here());
    }

    /** A read: raw is what the key holds at this moment. */
    method Get(pid: nat) returns (raw: Option<Raw>, err: bool)
      requires Running(pid) && Sends(st.ops[pid]).None? && AtStore(st.ops[pid])
      modifies this
      ensures Running(pid) && Progress(old(Here()), Here())
      ensures errors == old(errors) + if err then 1 else 0
      ensures if err then st.ops[pid] == Done(Failed)
              else raw == st.core.lock && st.ops[pid] == Local(st.core, old(st.ops[pid]))
    {
      hide Inv, Progress;
      Others(pid);
      ghost var mid := Here();
      raw := st.core.lock;
      err := *;
      if err { errors := errors + 1; }
      Take(if err then Lose(pid) else Next(pid));
      Onward(old(Here()), mid, Here());
    }

    /**
     A write: it landed exactly if the store accepted it at the moment it arrived, and changed
     nothing otherwise; after an error it may still land later.
    */
    method Send(pid: nat, w: Write) returns (ok: bool, err: bool, ghost at: Moment)
      requires Running(pid) && Sends(st.ops[pid]) == Some(w)
      modifies this
      ensures Running(pid) && Progress(old(Here()), at) && Progress(at, Here())
      ensures errors == old(errors) + if err then 1 else 0
      ensures if err then st.ops[pid] == Stray(w) else st.ops[pid] == Answered(old(st.ops[pid]), ok)
      ensures st.core == if err then at.st.core else Land(at.st.core, w)
      ensures ok == Accepts(at.st.core, w)
    {
      hide Inv, Progress;
      Others(pid);
      at := Here();
      ok := Accepts(st.core, w);
      err := *;
      if err { errors := errors + 1; }
      Take(if err then Lose(pid) else Next(pid));
    }
  }

  /** How a call that began at pid came out: its answer, or an error after which a write may be under way. */
  ghost predicate CameOut(s: State, pid: nat, a: Answer) {
    pid in s.ops && (s.ops[pid] == Done(a) || (a == Failed && s.ops[pid].Stray?))
  }

  /** The lock key names this handle's record, and it has not expired by now. */
  predicate Holds(lock: Option<Raw>, h: Handle, now: Time) {
    Names(lock, h) && Fresh(lock.value.rec, now)
  }

  /** The store after a checkpoint write of this token landed, and nothing else. */
  function WithSave(s: Core, token: Token, value: Option<string>): Core {
    s.(saves := s.saves + [Landed(token, value, |s.order|)])
  }

  /** The store after rec was installed as the newest acquisition. */
  function Installed(s: Core, rec: LockRec): Core {
    s.(lock := Some(Record(rec)), order := s.order + [rec.token])
  }

  /** The store after the handle's own record became a tombstone, expired a second ago or more. */
  ghost predicate GivenUp(s: Core, t: Core, h: Handle) {
    exists tomb: LockRec :: tomb.expires <= s.clock - 1_000_000_000 && tomb.holder == "" && tomb.token == ""
      && t == s.(lock := Some(Record(tomb)), released := s.released + {h.token})
  }

  /** What a release comes to: its own record gone if the key still held what was read (look), else nothing. */
  ghost predicate Undone(look: Moment, at: Moment, now: Moment, h: Handle) {
    && Progress(look, at) && Progress(at, now)
    && if Names(look.st.core.lock, h) && at.st.core.lock == look.st.core.lock
       then GivenUp(at.st.core, now.st.core, h)
       else now.st.core == at.st.core
  }

  /**
   What became of an acquire whose record landed: when the stopwatch was started, when it was read,
   and the release that followed if that was too late.
  */
  datatype Trip = Trip(start: Time, now: Time, look: Moment, at: Moment)

  /** Soon enough: less than three quarters of the TTL, in the whole nanoseconds of the source. */
  predicate InTime(t: Trip, ttl: Time) { t.now - t.start < ttl - ttl / 4 }

  /**
   A refusal names the holder of a record that is fresh at this moment, or this replica when
   the lock key changed between its read and its write.
  */
  ghost predicate RefusedFor(look: Core, at: Core, replica: Replica, holder: Replica) {
    || (look.lock.Some? && look.lock.value.Record? && look.lock.value.rec.holder == holder
        && Fresh(look.lock.value.rec, at.clock))
    || (holder == replica && look.lock != at.lock)
  }

  class Lock {
    const replica: Replica
    const kv: Shared

    constructor (replica: Replica, kv: Shared)
      ensures this.replica == replica && this.kv == kv
    {
      this.replica, this.kv := replica, kv;
    }

    /**
     Won exactly if this replica's record landed, over nothing live (at), and the stopwatch showed less
     than the TTL without its quarter; then the handle owns the lease unless the record it stamped has
     expired already. If it showed more the lease is given back. Refused for the record it read (look)
     or for losing the race; failed otherwise only for an error of the store.
    */
    method Acquire(pid: nat, token: Token)
        returns (a: Answer, ghost rec: LockRec, ghost look: Moment, ghost at: Moment, ghost trip: Option<Trip>)
      requires Inv(kv.st) && Enabled(kv.st, BeginAcquire(pid, replica, token))
      modifies kv
      ensures kv.Running(pid) && Progress(old(kv.Here()), kv.Here()) && CameOut(kv.st, pid, a)
      ensures a.Won? || a.Refused? || a.Failed?
      ensures rec == LockRec(replica, token, old(kv.st.core.clock) + old(kv.st.core.ttl))
      ensures trip.Some? || a.Refused? ==>
                Progress(old(kv.Here()), look) && Progress(look, at) && Progress(at, kv.Here())
      ensures a.Refused? ==> kv.st.core == at.st.core && RefusedFor(look.st.core, at.st.core, replica, a.holder)
      ensures a.Failed? ==> kv.errors > old(kv.errors) || trip.Some?
      ensures trip.Some? ==> at.st.core.lock.None? || Lapsed(at.st.core.lock.value, at.st.core.clock)
      ensures trip.Some? ==> Extends(Installed(at.st.core, rec), kv.st.core)
      ensures trip.Some? ==>
                old(kv.st.core.clock) <= trip.value.start <= at.st.core.clock <= trip.value.now <= kv.st.core.clock
      ensures a.Won? <==> trip.Some? && InTime(trip.value, old(kv.st.core.ttl))
      ensures a.Won? ==> a.h == Handle(replica, token) && (Owner(kv.st.core, a.h) <==> Fresh(rec, kv.st.core.clock))
      ensures a.Failed? && trip.Some? && kv.errors == old(kv.errors) ==>
                Progress(at, trip.value.look)
                    && Undone(trip.value.look, trip.value.at, kv.Here(), Handle(replica, token))
    {
      hide Inv, Progress, Extends, Owner, OpOk, CoreOk, Undone, RefusedFor;
      var mine := Handle(replica, token);
      var r := LeaseRec(kv.st.core, mine);
      rec, trip := r, None;
      kv.Begin(BeginAcquire(pid, replica, token));
      ghost var m0 := kv.Here();
      var start := kv.Now(pid);
      look := kv.Here();
      Later(old(kv.Here()), m0);
      Later(m0, look);
      Onward(old(kv.Here()), m0, look);
      var ok, err;
      ok, err, at := kv.Send(pid, PutIfAbsent(r));
      ghost var m1 := kv.Here();
      Later(look, at);
      Later(at, m1);
      Chain(old(kv.Here()), look, at, m1);
      if err { return Failed, rec, look, at, trip; }
      if ok {
        ghost var t;
        a, t := ConfirmFresh(pid, mine, r, start, at.st.core);
        trip := Some(t);
        Onward(at, m1, kv.Here());
        if a.Failed? && kv.errors == old(kv.errors) { Onward(at, m1, t.look); }
        Chain(old(kv.Here()), look, at, kv.Here());
        return;
      }
      a, look, at, trip := TakeOver(pid, mine, r, start);
      Onward(old(kv.Here()), m1, kv.Here());
      if trip.Some? || a.Refused? { Onward(old(kv.Here()), m1, look); }
    }

    /** What acquire does once its first write found a record: it takes over nothing but a lapsed one. */
    method TakeOver(pid: nat, mine: Handle, r: LockRec, start: Time)
        returns (a: Answer, ghost look: Moment, ghost at: Moment, ghost trip: Option<Trip>)
      requires kv.Running(pid) && kv.st.ops[pid] == Look(mine, r, start) && mine.replica == replica
      requires start <= kv.st.core.clock
      modifies kv
      ensures kv.Running(pid) && Progress(old(kv.Here()), kv.Here()) && CameOut(kv.st, pid, a)
      ensures a == Won(mine) || a.Refused? || a.Failed?
      ensures trip.Some? || a.Refused? ==>
                Progress(old(kv.Here()), look) && Progress(look, at) && Progress(at, kv.Here())
      ensures a.Refused? ==> kv.st.core == at.st.core && RefusedFor(look.st.core, at.st.core, replica, a.holder)
      ensures a.Failed? ==> kv.errors > old(kv.errors) || trip.Some?
      ensures trip.Some? ==> at.st.core.lock.None? || Lapsed(at.st.core.lock.value, at.st.core.clock)
      ensures trip.Some? ==> Extends(Installed(at.st.core, r), kv.st.core)
      ensures trip.Some? ==>
                trip.value.start == start && start <= at.st.core.clock <= trip.value.now <= kv.st.core.clock
      ensures a.Won? <==> trip.Some? && InTime(trip.value, old(kv.st.core.ttl))
      ensures a.Won? ==> (Owner(kv.st.core, mine) <==> Fresh(r, kv.st.core.clock))
      ensures a.Failed? && trip.Some? && kv.errors == old(kv.errors) ==>
                Progress(at, trip.value.look) && Undone(trip.value.look, trip.value.at, kv.Here(), mine)
    {
      hide Inv, Progress, Extends, Owner, OpOk, CoreOk, Undone;
      trip := None;
      ghost var m := kv.Here();
      var raw, gErr := kv.Get(pid);
      look := kv.Here();
      at := look;
      if gErr { return Failed, look, at, trip; }
      Later(m, look);
      ghost var from := look;
      if raw.None? {
        a, at, trip := Install(pid, mine, r, start, PutIfAbsent(r));
      } else if raw.value.Garbage? {
        a, at, trip := Install(pid, mine, r, start, Swap(Takeover, raw.value, r));
      } else {
        var cur := raw.value.rec;
        var now := kv.Now(pid);
        from := kv.Here();
        if Fresh(cur, now) {
          at := from;
          NoProgress(at);
          Onward(old(kv.Here()), look, at);
          return Refused(cur.holder), look, at, trip;
        }
        Later(look, from);
        a, at, trip := Install(pid, mine, r, start, Swap(Takeover, raw.value, r));
        Onward(look, from, kv.Here());
        if trip.Some? || a.Refused? { Onward(look, from, at); }
      }
      Onward(old(kv.Here()), look, kv.Here());
    }

    /** The write of acquire that is answered for good: over an absent record, or over one that has lapsed. */
    method Install(pid: nat, mine: Handle, r: LockRec, start: Time, w: Write)
        returns (a: Answer, ghost at: Moment, ghost trip: Option<Trip>)
      requires kv.Running(pid) && mine.replica == replica && start <= kv.st.core.clock
      requires if !w.Swap? then kv.st.ops[pid] == Put(mine, r, start, true)
               else kv.st.ops[pid] == Take(mine, r, start, w.expected) && Lapsed(w.expected, kv.st.core.clock)
      requires Sends(kv.st.ops[pid]) == Some(w)
      modifies kv
      ensures kv.Running(pid) && Progress(old(kv.Here()), kv.Here()) && CameOut(kv.st, pid, a)
      ensures a == Won(mine) || a == Refused(replica) || a.Failed?
      ensures trip.Some? || a.Refused? ==> Progress(old(kv.Here()), at) && Progress(at, kv.Here())
      ensures a.Refused? ==> kv.st.core == at.st.core && !Accepts(at.st.core, w)
      ensures a.Failed? ==> kv.errors > old(kv.errors) || trip.Some?
      ensures trip.Some? ==> at.st.core.lock.None? || Lapsed(at.st.core.lock.value, at.st.core.clock)
      ensures trip.Some? ==> Extends(Installed(at.st.core, r), kv.st.core)
      ensures trip.Some? ==>
                trip.value.start == start && start <= at.st.core.clock <= trip.value.now <= kv.st.core.clock
      ensures a.Won? <==> trip.Some? && InTime(trip.value, old(kv.st.core.ttl))
      ensures a.Won? ==> (Owner(kv.st.core, mine) <==> Fresh(r, kv.st.core.clock))
      ensures a.Failed? && trip.Some? && kv.errors == old(kv.errors) ==>
                Progress(at, trip.value.look) && Undone(trip.value.look, trip.value.at, kv.Here(), mine)
    {
      hide Inv, Progress, Extends, Owner, OpOk, CoreOk, Undone;
      trip := None;
      ghost var m := kv.Here();
      var ok, err;
      ok, err, at := kv.Send(pid, w);
      ghost var m1 := kv.Here();
      Later(m, at);
      Onward(m, at, m1);
      if err { return Failed, at, trip; }
      if !ok { return Refused(replica), at, trip; }
      Later(at, m1);
      ghost var t;
      a, t := ConfirmFresh(pid, mine, r, start, at.st.core);
      trip := Some(t);
      Onward(at, m1, kv.Here());
      Onward(m, at, kv.Here());
      if a.Failed? && kv.errors == old(kv.errors) { Onward(at, m1, t.look); }
    }

    /** Keeps a lease just won (over was) exactly if the store calls took less than the TTL without its quarter. */
    method ConfirmFresh(pid: nat, mine: Handle, ghost rec: LockRec, start: Time, ghost was: Core)
        returns (a: Answer, ghost t: Trip)
      requires kv.Running(pid) && kv.st.ops[pid] == Confirm(mine, rec, start) && mine.replica == replica
      requires kv.st.core == Installed(was, rec)
      modifies kv
      ensures kv.Running(pid) && Progress(old(kv.Here()), kv.Here()) && CameOut(kv.st, pid, a)
      ensures t.start == start && old(kv.st.core.clock) <= t.now <= kv.st.core.clock
      ensures Extends(Installed(was, rec), kv.st.core)
      ensures a == if InTime(t, old(kv.st.core.ttl)) then Won(mine) else Failed
      ensures a.Won? ==> kv.errors == old(kv.errors) && (Owner(kv.st.core, mine) <==> Fresh(rec, kv.st.core.clock))
      ensures a.Failed? && kv.errors == old(kv.errors) ==>
                Progress(old(kv.Here()), t.look) && Undone(t.look, t.at, kv.Here(), mine)
    {
      hide Inv, Progress, Extends, Undone;
      var now := kv.Now(pid);
      ghost var m := kv.Here();
      t := Trip(start, now, m, m);
      Later(old(kv.Here()), m);
      if now - start >= kv.st.core.ttl - ConfirmMargin(kv.st.core.ttl) {
        ghost var look, at;
        var err;
        err, look, at := GiveBack(pid, mine, true);
        t := Trip(start, now, look, at);
        Onward(old(kv.Here()), m, kv.Here());
        Later(m, kv.Here());
        ExtendsTransitive(Installed(was, rec), m.st.core, kv.st.core);
        if !err { Onward(old(kv.Here()), m, look); }
        return Failed, t;
      }
      a := Won(mine);
    }

    /** From the read on; the same steps end an acquire that is not to be trusted. */
    method GiveBack(pid: nat, lease: Handle, backOut: bool) returns (err: bool, ghost look: Moment, ghost at: Moment)
      requires kv.Running(pid) && kv.st.ops[pid] == ReleaseLook(lease, backOut) && lease.replica == replica
      modifies kv
      ensures kv.Running(pid) && Progress(old(kv.Here()), kv.Here())
      ensures CameOut(kv.st, pid, if err || backOut then Failed else Released)
      ensures if err then kv.errors > old(kv.errors) else kv.errors == old(kv.errors)
      ensures !err ==> Progress(old(kv.Here()), look) && Undone(look, at, kv.Here(), lease)
    {
      hide Inv, Progress, OpOk, CoreOk, GivenUp, Fresh, Extends;
      var raw, gErr := kv.Get(pid);
      look := kv.Here();
      at := look;
      NoProgress(look);
      if gErr { return true, look, at; }
      if raw.None? || raw.value.Garbage? || raw.value.rec.holder != replica || raw.value.rec.token != lease.token {
        return false, look, at;
      }
      err, at := Entomb(pid, lease, raw.value.rec, backOut);
      Onward(old(kv.Here()), look, kv.Here());
    }

    /** The swap of release, on the record of this acquisition that was read. */
    method Entomb(pid: nat, lease: Handle, cur: LockRec, backOut: bool) returns (err: bool, ghost at: Moment)
      requires kv.Running(pid) && kv.st.ops[pid] == ReleaseStamp(lease, cur, backOut)
      requires cur.holder == replica && cur.token == lease.token
      modifies kv
      ensures kv.Running(pid) && Progress(old(kv.Here()), kv.Here())
      ensures CameOut(kv.st, pid, if err || backOut then Failed else Released)
      ensures if err then kv.errors > old(kv.errors) else kv.errors == old(kv.errors)
      ensures !err ==> Progress(old(kv.Here()), at) && Progress(at, kv.Here())
      ensures !err ==> if at.st.core.lock == Some(Record(cur)) then GivenUp(at.st.core, kv.st.core, lease)
                       else kv.st.core == at.st.core
    {
      hide Inv, Progress, OpOk, CoreOk, GivenUp, Fresh, Extends, Names;
      ghost var m0 := kv.Here();
      var now := kv.Now(pid);
      ghost var m := kv.Here();
      var ok;
      var tomb := LockRec("", "", now - 1_000_000_000);
      ok, err, at := kv.Send(pid, Swap(Tombstone, Record(cur), tomb));
      Later(m, at);
      Onward(m0, m, at);
      Onward(m0, at, kv.Here());
      if ok && !err { IsGivenUp(at.st.core, kv.st.core, lease, tomb); }
    }

    /** Without an error, it took away exactly its own record, if that was still what its read had found. */
    method Release(pid: nat, lease: Handle) returns (err: bool, ghost look: Moment, ghost at: Moment)
      requires Inv(kv.st) && Enabled(kv.st, BeginRelease(pid, lease)) && lease.replica == replica
      modifies kv
      ensures kv.Running(pid) && Progress(old(kv.Here()), kv.Here())
      ensures CameOut(kv.st, pid, if err then Failed else Released)
      ensures if err then kv.errors > old(kv.errors) else kv.errors == old(kv.errors)
      ensures !err ==> Progress(old(kv.Here()), look) && Undone(look, at, kv.Here(), lease)
    {
      hide Inv, Progress, OpOk, CoreOk, Undone;
      kv.Begin(BeginRelease(pid, lease));
      ghost var m := kv.Here();
      err, look, at := GiveBack(pid, lease, false);
      Onward(old(kv.Here()), m, kv.Here());
      if !err { Onward(old(kv.Here()), m, look); }
    }

    /**
     Without an error, the answer is yes exactly if the read named this acquisition and the key had
     not changed since, and then the key was given the same acquisition with a later expiry, so
     that the handle owns the lease unless that has passed too.
    */
    method Renew(pid: nat, lease: Handle) returns (stillMine: bool, err: bool, ghost look: Moment, ghost at: Moment)
      requires Inv(kv.st) && Enabled(kv.st, BeginRenew(pid, lease)) && lease.replica == replica
      modifies kv
      ensures if err then kv.errors > old(kv.errors) else kv.errors == old(kv.errors)
      ensures kv.Running(pid) && Progress(old(kv.Here()), kv.Here())
      ensures CameOut(kv.st, pid, if err then Failed else StillMine(stillMine))
      ensures !err ==> Progress(old(kv.Here()), look) && Progress(look, at) && Progress(at, kv.Here())
      ensures !err ==> (stillMine <==> Names(look.st.core.lock, lease) && at.st.core.lock == look.st.core.lock)
      ensures !err ==> if stillMine then Renewed(look.st.core, at.st.core, kv.st.core, lease)
                       else kv.st.core == at.st.core
    {
      hide Inv, Progress, OpOk, CoreOk, Owner, Extends, Renewed;
      HandleIsAcquired(kv.st, lease);
      kv.Begin(BeginRenew(pid, lease));
      ghost var m0 := kv.Here();
      var raw, gErr := kv.Get(pid);
      look := kv.Here();
      at := look;
      NoProgress(look);
      Onward(old(kv.Here()), m0, look);
      if gErr { return false, true, look, at; }
      if raw.None? || raw.value.Garbage? || raw.value.rec.holder != replica || raw.value.rec.token != lease.token {
        return false, false, look, at;
      }
      Later(old(kv.Here()), look);
      stillMine, err, at := Prolong(pid, lease, raw.value.rec);
      Onward(old(kv.Here()), look, kv.Here());
    }

    /** The swap of renew, on the record of this acquisition that was read. */
    method Prolong(pid: nat, lease: Handle, cur: LockRec) returns (stillMine: bool, err: bool, ghost at: Moment)
      requires kv.Running(pid) && kv.st.ops[pid] == RenewStamp(lease, cur) && lease.replica == replica
      requires cur.holder == replica && cur.token == lease.token && lease.token in kv.st.core.order
      modifies kv
      ensures if err then kv.errors > old(kv.errors) else kv.errors == old(kv.errors)
      ensures kv.Running(pid) && Progress(old(kv.Here()), kv.Here())
      ensures CameOut(kv.st, pid, if err then Failed else StillMine(stillMine))
      ensures !err ==> Progress(old(kv.Here()), at) && Progress(at, kv.Here())
      ensures !err ==> (stillMine <==> at.st.core.lock == Some(Record(cur)))
      ensures !err ==> if stillMine then Renewed(old(kv.st.core), at.st.core, kv.st.core, lease)
                       else kv.st.core == at.st.core
    {
      hide Inv, Progress, OpOk, CoreOk, Owner, Extends, Renewed, Names;
      ghost var look := kv.Here();
      var now := kv.Now(pid);
      ghost var m := kv.Here();
      var rec := LockRec(replica, lease.token, now + kv.st.core.ttl);
      stillMine, err, at := kv.Send(pid, Swap(Renewal, Record(cur), rec));
      Later(look, m);
      Later(m, at);
      Later(at, kv.Here());
      Onward(look, m, at);
      Onward(look, at, kv.Here());
      if stillMine && !err { RenewedBy(look.st.core, at.st.core, kv.st, lease, rec); }
    }

    /**
     Yes exactly if the record read (look) was this acquisition and is fresh by now; then the handle
     owns the lease now, not only at the read, unless it has given it up itself.
    */
    method OwnsLease(pid: nat, lease: Handle) returns (owns: bool, err: bool, ghost look: Moment)
      requires Inv(kv.st) && Enabled(kv.st, BeginOwns(pid, lease)) && lease.replica == replica
      modifies kv
      ensures if err then kv.errors > old(kv.errors) else kv.errors == old(kv.errors)
      ensures kv.Running(pid) && Progress(old(kv.Here()), kv.Here())
      ensures CameOut(kv.st, pid, if err then Failed else Owns(owns))
      ensures !err ==> Progress(old(kv.Here()), look) && Progress(look, kv.Here())
      ensures !err ==> (owns <==> Holds(look.st.core.lock, lease, kv.st.core.clock))
      ensures owns && !err ==> Owner(kv.st.core, lease) || lease.token in kv.st.core.released
    {
      hide Inv, Progress, Owner, OpOk, CoreOk;
      kv.Begin(BeginOwns(pid, lease));
      ghost var m := kv.Here();
      owns, err, look := Check(pid, lease, None);
      Onward(old(kv.Here()), m, kv.Here());
      if !err { Onward(old(kv.Here()), m, look); }
    }

    /** The read and the verdict of ownsLease, alone or before the checkpoint write save. */
    method Check(pid: nat, lease: Handle, ghost save: Option<Option<string>>)
        returns (owns: bool, err: bool, ghost look: Moment)
      requires kv.Running(pid) && kv.st.ops[pid] == OwnsLook(lease, save) && lease.replica == replica
      modifies kv
      ensures if err then kv.errors > old(kv.errors) else kv.errors == old(kv.errors)
      ensures kv.Running(pid) && Progress(old(kv.Here()), kv.Here())
      ensures !err ==> Progress(old(kv.Here()), look) && Progress(look, kv.Here())
      ensures !err ==> (owns <==> Holds(look.st.core.lock, lease, kv.st.core.clock))
      ensures owns && !err ==> Owner(kv.st.core, lease) || lease.token in kv.st.core.released
      ensures if err then kv.st.ops[pid] == Done(Failed)
              else if save.None? then kv.st.ops[pid] == Done(Owns(owns))
              else kv.st.ops[pid] == if owns then Checkpoint(lease, save.value, false) else Done(Saved(false))
    {
      hide Progress, Inv;
      var raw, gErr := kv.Get(pid);
      look := kv.Here();
      NoProgress(look);
      if gErr { return false, true, look; }
      if raw.None? || raw.value.Garbage? { return false, false, look; }
      var cur := raw.value.rec;
      var now := kv.Now(pid);
      Onward(old(kv.Here()), look, kv.Here());
      owns := cur.holder == replica && cur.token == lease.token && Fresh(cur, now);
      err := false;
    }

    /**
     A checkpoint save, or a clear when there is no value. It is written exactly if the record the
     verdict rests on (look) is this acquisition's and fresh at the verdict (checked); with a fence
     both moments are the write's own, without one the handle owned the lease at the verdict and
     other replicas may act before the write lands.
    */
    method Save(pid: nat, lease: Handle, value: Option<string>)
        returns (written: bool, err: bool, ghost look: Moment, ghost checked: Moment, ghost at: Moment)
      requires Inv(kv.st) && Enabled(kv.st, BeginSave(pid, lease, value)) && lease.replica == replica
      modifies kv
      ensures if err then kv.errors > old(kv.errors) else kv.errors == old(kv.errors)
      ensures kv.Running(pid) && Progress(old(kv.Here()), kv.Here())
      ensures CameOut(kv.st, pid, if err then Failed else Saved(written))
      ensures !err ==> Progress(old(kv.Here()), look) && Progress(look, checked)
      ensures !err ==> Progress(checked, at) && Progress(at, kv.Here())
      ensures !err ==> (written <==> Holds(look.st.core.lock, lease, checked.st.core.clock))
      ensures !err ==> kv.st.core == if written then WithSave(at.st.core, lease.token, value) else at.st.core
      ensures !err && old(kv.st.core.fenceCapable) ==> look == checked == at
      ensures !err && written && !old(kv.st.core.fenceCapable) ==>
                Owner(checked.st.core, lease) || lease.token in checked.st.core.released
    {
      hide Inv, Progress, Owner, OpOk, CoreOk;
      kv.Begin(BeginSave(pid, lease, value));
      ghost var m0 := kv.Here();
      if kv.st.core.fenceCapable {
        written, err, at := kv.Send(pid, PutFenced(lease, value));
        look, checked := at, at;
        NoProgress(at);
        Chain(old(kv.Here()), m0, at, kv.Here());
        Onward(old(kv.Here()), m0, at);
        return;
      }
      var owns, oErr;
      owns, oErr, look := Check(pid, lease, Some(value));
      checked, at := kv.Here(), kv.Here();
      NoProgress(at);
      Onward(old(kv.Here()), m0, at);
      if !oErr { Onward(old(kv.Here()), m0, look); }
      if oErr || !owns { return false, oErr, look, checked, at; }
      written, err, at := kv.Send(pid, PutPlain(lease, value));
      Chain(old(kv.Here()), checked, at, kv.Here());
    }
  }

  /**
   The own record was at the key (look), still was when the write arrived (at), and is now the same with a
   later expiry.
  */
  ghost predicate Renewed(look: Core, at: Core, now: Core, h: Handle) {
    && at.lock.Some? && Names(now.lock, h) && now.lock.value.Record?
    && look.clock + at.ttl <= now.lock.value.rec.expires <= at.clock + at.ttl
    && now == at.(lock := now.lock)
    && (Owner(now, h) <==> Fresh(now.lock.value.rec, now.clock))
  }

  lemma IsGivenUp(at: Core, now: Core, h: Handle, tomb: LockRec)
    requires tomb.expires <= at.clock - 1_000_000_000 && tomb.holder == "" && tomb.token == ""
    requires now == at.(lock := Some(Record(tomb)), released := at.released + {h.token})
    ensures GivenUp(at, now, h)
  {
  }

  lemma RenewedBy(look: Core, at: Core, now: State, h: Handle, rec: LockRec)
    requires Inv(now) && h.token in now.core.order && at.lock.Some?
    requires rec.holder == h.replica && rec.token == h.token && look.clock + at.ttl <= rec.expires <= at.clock + at.ttl
    requires now.core == at.(lock := Some(Record(rec)))
    ensures Renewed(look, at, now.core, h)
  {
    hide Inv, Owner;
    NewestOwns(now, h);
  }

  lemma HandleIsAcquired(s: State, h: Handle)
    requires Inv(s) && IsHandle(s, h)
    ensures h.token in s.core.order
  {
    var p :| p in s.ops && s.ops[p] == Done(Won(h));
    assert OpOk(s.core, s.ops[p]);
  }

  /** The key only ever names the newest acquisition. */
  lemma NewestOwns(s: State, h: Handle)
    requires Inv(s) && Names(s.core.lock, h) && h.token in s.core.order
    ensures Owner(s.core, h) <==> Fresh(s.core.lock.value.rec, s.core.clock)
  {
  }

  /** What the methods use of the time that passed. */
  lemma Later(m: Moment, n: Moment)
    requires Progress(m, n)
    ensures Extends(m.st.core, n.st.core)
    ensures m.st.core.clock <= n.st.core.clock && m.st.core.ttl == n.st.core.ttl && m.st.core.order <= n.st.core.order
  {
    hide Reaches;
  }

  lemma Chain(m: Moment, n: Moment, o: Moment, p: Moment)
    requires Progress(m, n) && Progress(n, o) && Progress(o, p)
    ensures Progress(m, p)
  {
    hide Progress;
    Onward(m, n, o);
    Onward(m, o, p);
  }
}
