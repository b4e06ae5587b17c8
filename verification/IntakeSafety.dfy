/**
 What durable intake guarantees over whole histories: no accepted run is lost, claims
 never outnumber pending writes, reconcile acts on a dead lease, and what it recovers.
*/
module IntakeSafety {
  import opened Intake
  import opened Options

  lemma {:induction false} RunKeeps(s: State, es: seq<Event>, t: State)
    requires Inv(s) && Reaches(s, es, t)
    ensures Inv(t) && s.store.log <= t.store.log
    decreases |es|
  {
    if es == [] {
    } else {
      ApplyKeeps(s, es[0]);
      RunKeeps(Apply(s, es[0]), es[1..], t);
    }
  }

  ghost predicate Reachable(s: State) {
    exists s0: State, es: seq<Event> :: Init(s0) && Reaches(s0, es, s)
  }

  lemma ReachableOk(s: State)
    requires Reachable(s)
    ensures Inv(s)
  {
    var s0: State, es :| Init(s0) && Reaches(s0, es, s);
    RunKeeps(s0, es, s);
  }

  // ------------------------------------------------------------ nothing is lost

  /** Accepted, never ended, and without a record. */
  ghost predicate Lost(s: Store, id: Id) { id in s.accepted && id !in s.statuses && id !in s.ended }

  ghost predicate NoneLost(s: State) { forall id :: !Lost(s.store, id) }

  /** This event is a replica's sweep of a run for which no terminal status was ever written. */
  predicate DropsUnended(s: State, e: Event) {
    e.Drop? && e.pid in s.calls && s.calls[e.pid].Dropping?
    && s.calls[e.pid].id in s.store.accepted && s.calls[e.pid].id !in s.store.ended
  }

  /**
   A run is lost by a replica sweeping its own completed run when the completion was never written, and in no
   other way.
  */
  lemma LostIff(s: State, e: Event, id: Id)
    requires Inv(s) && Enabled(s, e) && !Lost(s.store, id)
    ensures Lost(Apply(s, e).store, id) <==> DropsUnended(s, e) && s.calls[e.pid].id == id
  {
    if e.Remove? { assert CallOk(s.store, s.calls[e.pid]); }
  }

  ghost predicate NeverLost(s: State, es: seq<Event>)
    decreases |es|
  {
    NoneLost(s) && (es != [] && Enabled(s, es[0]) ==> NeverLost(Apply(s, es[0]), es[1..]))
  }

  /** Every such sweep comes after a terminal status of its run was written. */
  ghost predicate EndsBeforeDrops(s: State, es: seq<Event>)
    decreases |es|
  {
    es == [] || (Enabled(s, es[0]) ==> !DropsUnended(s, es[0]) && EndsBeforeDrops(Apply(s, es[0]), es[1..]))
  }

  lemma NoneLostIff(s: State, e: Event)
    requires Inv(s) && Enabled(s, e) && NoneLost(s)
    ensures NoneLost(Apply(s, e)) <==> !DropsUnended(s, e)
  {
    hide Inv, Apply, Enabled, Lost;
    forall id ensures Lost(Apply(s, e).store, id) <==> DropsUnended(s, e) && s.calls[e.pid].id == id {
      LostIff(s, e, id);
    }
    if DropsUnended(s, e) { assert Lost(Apply(s, e).store, s.calls[e.pid].id); }
  }

  /**
   Along a run no accepted run is ever without a record and an end, if and only if its local sweeps come after the end
   was written.
  */
  lemma {:induction false} NeverLostIff(s: State, es: seq<Event>, t: State)
    requires Inv(s) && NoneLost(s) && Reaches(s, es, t)
    ensures NeverLost(s, es) <==> EndsBeforeDrops(s, es)
    decreases |es|
  {
    hide Inv, NoneLost, Apply, Enabled, DropsUnended;
    if es == [] {
    } else {
      ApplyKeeps(s, es[0]);
      NoneLostIff(s, es[0]);
      if !DropsUnended(s, es[0]) { NeverLostIff(Apply(s, es[0]), es[1..], t); }
    }
  }

  lemma {:induction false} NeverLostAtEnd(s: State, es: seq<Event>, t: State)
    requires Reaches(s, es, t) && NeverLost(s, es)
    ensures NoneLost(t)
    decreases |es|
  {
    if es == [] {
    } else {
      NeverLostAtEnd(Apply(s, es[0]), es[1..], t);
    }
  }

  /** Then an accepted run keeps a status record until a terminal one was written for it. */
  lemma NotLost(s0: State, es: seq<Event>, t: State, id: Id)
    requires Init(s0) && Reaches(s0, es, t) && EndsBeforeDrops(s0, es) && id in t.store.accepted
    ensures id in t.store.statuses || id in t.store.ended
  {
    NeverLostIff(s0, es, t);
    NeverLostAtEnd(s0, es, t);
    assert !Lost(t.store, id);
  }

  lemma StoreMoves(s: State, e: Event)
    requires Enabled(s, e)
    ensures Apply(s, e).store == NextStore(s, e)
  {
  }

  /**
   A live record leaves its key exactly when one of the two sweeps is at its removal of that run:
   the shared one, which judged an old terminal record of it, or the one of a replica's own runs,
   which judged its own view alone.
  */
  lemma LiveRemovedIff(s: State, e: Event, id: Id)
    requires Reachable(s) && Enabled(s, e) && id in s.store.statuses && !s.store.statuses[id].state.IsTerminal()
    ensures id !in Apply(s, e).store.statuses <==> (e.Remove? || e.Drop?) && s.calls[e.pid].id == id
    ensures e.Remove? ==> s.calls[e.pid].rec.state.IsTerminal()
    ensures e.Drop? ==> s.calls[e.pid].seen.state.Completed? && !s.calls[e.pid].seen.remote
  {
    ReachableOk(s);
    StoreMoves(s, e);
    if e.Remove? || e.Drop? { assert CallOk(s.store, s.calls[e.pid]); }
    hide Inv, CallOk, Apply, Reachable;
    match Lands(s, e)
    case Some((other, source, after)) => assert other != id ==> id in Write(s.store, other, source, after).statuses;
    case None =>
  }

  /** What the key holds is the record that the shared sweep scanned, or the completion that the local one saw. */
  predicate StillAsJudged(s: State, c: Call)
    requires c.Clearing? || c.Dropping?
  {
    var now := Lookup(s.store.statuses, c.id);
    now.Some? ==> if c.Clearing? then now.value == c.rec
        else now.value.state.Completed? && now.value.updatedAt == c.seen.updated
  }

  /** Each removal finds the record it judged. */
  ghost predicate SweepsFaithful(s: State, es: seq<Event>)
    decreases |es|
  {
    es == [] || (Enabled(s, es[0]) ==>
      && ((es[0].Remove? || es[0].Drop?) ==> StillAsJudged(s, s.calls[es[0].pid]))
      && SweepsFaithful(Apply(s, es[0]), es[1..]))
  }

  ghost predicate OnlyTerminalRemoved(log: seq<Entry>) {
    forall i :: 0 <= i < |log| && log[i].source.Removing? && log[i].before.Some? ==>
        log[i].before.value.state.IsTerminal()
  }

  lemma RemovalStep(s: State, e: Event)
    requires Inv(s) && Enabled(s, e) && OnlyTerminalRemoved(s.store.log)
    requires (e.Remove? || e.Drop?) ==> StillAsJudged(s, s.calls[e.pid])
    ensures OnlyTerminalRemoved(Apply(s, e).store.log)
  {
    StoreMoves(s, e);
    if e.Remove? || e.Drop? { assert CallOk(s.store, s.calls[e.pid]); }
    hide Inv, CallOk, Apply;
  }

  /** Then a live record never leaves its key, also for a run that went on after an earlier end. */
  lemma {:induction false} LiveRecordStays(s: State, es: seq<Event>, t: State)
    requires Inv(s) && Reaches(s, es, t) && SweepsFaithful(s, es) && OnlyTerminalRemoved(s.store.log)
    ensures OnlyTerminalRemoved(t.store.log)
    decreases |es|
  {
    hide Inv, OnlyTerminalRemoved;
    if es == [] {
    } else {
      ApplyKeeps(s, es[0]);
      RemovalStep(s, es[0]);
      LiveRecordStays(Apply(s, es[0]), es[1..], t);
    }
  }

  // ------------------------------------------------------------ when a sweep removes

  /** Along the run, in u, call pid judged this record, by the cut-off taken at this time, to be due for removal. */
  ghost predicate ProbedAt(s: State, es: seq<Event>, n: nat, u: State, pid: nat, at: Time, id: Id, rec: Status) {
    && n < |es| && Reaches(s, es[..n], u) && es[n] == Probe(pid, at) && pid in u.calls
        && u.calls[pid] == Sweeping(id, rec)
    && (rec.state == Completed || rec.state == Failed || rec.state == Canceled)
    && rec.updatedAt != 0 && rec.updatedAt < at - u.terminalTTL && at <= u.clock && id !in u.checkpoints
  }

  lemma ProbeStep(s: State, e: Event, pid: nat)
    requires Enabled(s, e) && pid in Apply(s, e).calls && Apply(s, e).calls[pid].Clearing?
    ensures var c := Apply(s, e).calls[pid];
      || (pid in s.calls && s.calls[pid] == c)
      || (e.Probe? && ProbedAt(s, [e], 0, s, pid, e.at, c.id, c.rec))
  {
    assert Reaches(s, [e][..0], s);
  }

  lemma {:induction false} ProbeBefore(s: State, es: seq<Event>, t: State, pid: nat)
    requires Reaches(s, es, t) && pid in t.calls && t.calls[pid].Clearing?
    ensures (pid in s.calls && s.calls[pid] == t.calls[pid])
            || exists n: nat, u, at :: ProbedAt(s, es, n, u, pid, at, t.calls[pid].id, t.calls[pid].rec)
    decreases |es|
  {
    hide Apply, Enabled;
    if es == [] {
    } else {
      var s1, c := Apply(s, es[0]), t.calls[pid];
      ProbeBefore(s1, es[1..], t, pid);
      if pid in s1.calls && s1.calls[pid] == c {
        ProbeStep(s, es[0], pid);
        if !(pid in s.calls && s.calls[pid] == c) {
          assert es[..0] == [];
          assert ProbedAt(s, es, 0, s, pid, es[0].at, c.id, c.rec);
        }
      } else {
        var n: nat, u, at :| ProbedAt(s1, es[1..], n, u, pid, at, c.id, c.rec);
        Shift(s, es, n, u);
        assert ProbedAt(s, es, n + 1, u, pid, at, c.id, c.rec);
      }
    }
  }

  /**
   A removal by the shared sweep follows a moment at which the scanned record was terminal, past its
   retention by the sweep's cut-off, and its run without a checkpoint.
  */
  lemma RemovalFollowsProbe(s0: State, es: seq<Event>, t: State, pid: nat)
    requires Init(s0) && Reaches(s0, es, t) && Enabled(t, Remove(pid))
    ensures exists n: nat, u, at :: ProbedAt(s0, es, n, u, pid, at, t.calls[pid].id, t.calls[pid].rec)
  {
    InitEmpty(s0);
    hide Init;
    ProbeBefore(s0, es, t, pid);
  }

  /** Along the run, in u, the sweep of replica r saw a run of its own completed and idle for the session TTL. */
  ghost predicate SeenAt(s: State, es: seq<Event>, n: nat, u: State, pid: nat, r: Replica, id: Id, seen: View) {
    && n < |es| && Reaches(s, es[..n], u) && es[n] == LookLocal(pid, r, id) && (r, id) in u.views
        && u.views[(r, id)] == seen
    && seen.state == Completed && !seen.remote && seen.updated < u.clock - u.sessionTTL
  }

  lemma SeenStep(s: State, e: Event, pid: nat)
    requires Enabled(s, e) && pid in Apply(s, e).calls && Apply(s, e).calls[pid].Dropping?
    ensures var c := Apply(s, e).calls[pid];
      || (pid in s.calls && s.calls[pid] == c)
      || (e.LookLocal? && SeenAt(s, [e], 0, s, pid, e.replica, c.id, c.seen))
  {
    assert Reaches(s, [e][..0], s);
  }

  lemma {:induction false} SeenBefore(s: State, es: seq<Event>, t: State, pid: nat)
    requires Reaches(s, es, t) && pid in t.calls && t.calls[pid].Dropping?
    ensures (pid in s.calls && s.calls[pid] == t.calls[pid])
            || exists n: nat, u, r :: SeenAt(s, es, n, u, pid, r, t.calls[pid].id, t.calls[pid].seen)
    decreases |es|
  {
    hide Apply, Enabled;
    if es == [] {
    } else {
      var s1, c := Apply(s, es[0]), t.calls[pid];
      SeenBefore(s1, es[1..], t, pid);
      if pid in s1.calls && s1.calls[pid] == c {
        SeenStep(s, es[0], pid);
        if !(pid in s.calls && s.calls[pid] == c) {
          assert es[..0] == [];
          assert SeenAt(s, es, 0, s, pid, es[0].replica, c.id, c.seen);
        }
      } else {
        var n: nat, u, r :| SeenAt(s1, es[1..], n, u, pid, r, c.id, c.seen);
        Shift(s, es, n, u);
        assert SeenAt(s, es, n + 1, u, pid, r, c.id, c.seen);
      }
    }
  }

  /**
   A removal by a replica's sweep of its own runs follows a moment at which it saw that run completed, its own and
   idle.
  */
  lemma DropFollowsLook(s0: State, es: seq<Event>, t: State, pid: nat)
    requires Init(s0) && Reaches(s0, es, t) && Enabled(t, Drop(pid))
    ensures exists n: nat, u, r :: SeenAt(s0, es, n, u, pid, r, t.calls[pid].id, t.calls[pid].seen)
  {
    InitEmpty(s0);
    hide Init;
    SeenBefore(s0, es, t, pid);
  }

  /**
   And it does happen: a sweep that finds a terminal record past its retention, of a run without a
   checkpoint, and is not disturbed removes the record and everything else kept of the run.
  */
  lemma SweepRemoves(s: State, id: Id, pid: nat) returns (t: State, es: seq<Event>)
    requires Inv(s) && id in s.store.statuses && pid !in s.calls && id !in s.checkpoints
    requires var rec := s.store.statuses[id];
      && (rec.state == Completed || rec.state == Failed || rec.state == Canceled)
      && rec.updatedAt < s.clock - s.terminalTTL
    ensures es == [BeginSweep(pid, id), Probe(pid, s.clock), Remove(pid)] && Reaches(s, es, t)
    ensures id !in t.store.statuses && id !in t.leases && id !in t.checkpoints
    ensures forall other :: other != id ==> Lookup(t.store.statuses, other) == Lookup(s.store.statuses, other)
  {
    es := [BeginSweep(pid, id), Probe(pid, s.clock), Remove(pid)];
    var s2 := SweepJudges(s, id, pid);
    t := Removes(s2, id, pid);
    hide Enabled, Apply;
    assert es[1..][1..] == [es[2]] && [es[2]][1..] == [];
    assert Reaches(t, [], t) && Reaches(s2, [es[2]], t);
    assert Reaches(Apply(s, es[0]), es[1..], t);
  }

  lemma SweepJudges(s: State, id: Id, pid: nat) returns (t: State)
    requires Inv(s) && id in s.store.statuses && pid !in s.calls && id !in s.checkpoints
    requires var rec := s.store.statuses[id];
      && (rec.state == Completed || rec.state == Failed || rec.state == Canceled)
      && rec.updatedAt < s.clock - s.terminalTTL
    ensures Enabled(s, BeginSweep(pid, id)) && Enabled(Apply(s, BeginSweep(pid, id)), Probe(pid, s.clock))
    ensures t == Apply(Apply(s, BeginSweep(pid, id)), Probe(pid, s.clock))
    ensures t == s.(calls := s.calls[pid := Clearing(id, s.store.statuses[id])])
  {
    assert s.store.statuses[id].updatedAt > 0 && s.clock > 0;
    hide Inv;
    t := Apply(Apply(s, BeginSweep(pid, id)), Probe(pid, s.clock));
  }

  lemma Removes(s: State, id: Id, pid: nat) returns (t: State)
    requires pid in s.calls && s.calls[pid].Clearing? && s.calls[pid].id == id
    ensures Enabled(s, Remove(pid)) && t == Apply(s, Remove(pid))
    ensures id !in t.store.statuses && id !in t.leases && id !in t.checkpoints
    ensures forall other :: other != id ==> Lookup(t.store.statuses, other) == Lookup(s.store.statuses, other)
  {
    t := Apply(s, Remove(pid));
  }

  // ------------------------------------------------------------ claiming

  /** The write that left the record a key holds. */
  lemma {:induction false} LastWriter(log: seq<Entry>, id: Id) returns (m: nat)
    requires Current(log, id).Some?
    ensures m < |log| && log[m].id == id && log[m].after == Current(log, id)
    ensures forall k :: m < k < |log| ==> log[k].id != id
    decreases |log|
  {
    if log[|log| - 1].id == id {
      m := |log| - 1;
    } else {
      m := LastWriter(log[..|log| - 1], id);
    }
  }

  /**
   Between two claims of a run lies the write of the very pending record the second one
   took: a pending version has at most one winner.
  */
  lemma ClaimsSeparated(s: State, id: Id, i: nat, j: nat)
    requires Reachable(s) && i < j < |s.store.log| && Claims(s.store.log[i], id) && Claims(s.store.log[j], id)
    ensures exists m :: i < m < j && WritesPending(s.store.log[m], id) && s.store.log[m].after == s.store.log[j].before
              && forall k :: m < k < j ==> s.store.log[k].id != id
  {
    ReachableOk(s);
    var log := s.store.log;
    assert log[j].before == Current(log[..j], id) && EntryOk(log[j]) && EntryOk(log[i]);
    var m := LastWriter(log[..j], id);
    assert forall k :: 0 <= k < j ==> log[..j][k] == log[k];
  }

  function CountPending(log: seq<Entry>, id: Id): nat {
    if log == [] then 0
    else CountPending(log[..|log| - 1], id) + if WritesPending(log[|log| - 1], id) then 1 else 0
  }

  function CountClaims(log: seq<Entry>, id: Id): nat {
    if log == [] then 0
    else CountClaims(log[..|log| - 1], id) + if Claims(log[|log| - 1], id) then 1 else 0
  }

  predicate IsPendingNow(r: Option<Status>) { r.Some? && r.value.state.Pending? }

  lemma {:induction false} ClaimsSpendPending(log: seq<Entry>, id: Id)
    requires LogOk(log)
    ensures CountClaims(log, id) + (if IsPendingNow(Current(log, id)) then 1 else 0) <= CountPending(log, id)
    decreases |log|
  {
    if log == [] {
    } else {
      var n := |log| - 1;
      assert forall i :: 0 <= i < n ==> log[..n][i] == log[i] && log[..n][..i] == log[..i];
      ClaimsSpendPending(log[..n], id);
      assert log[n].before == Current(log[..n], log[n].id) && EntryOk(log[n]);
    }
  }

  /** A run's successful claims never outnumber the times pending was written for it. */
  lemma ClaimsBounded(s: State, id: Id)
    requires Reachable(s)
    ensures CountClaims(s.store.log, id) <= CountPending(s.store.log, id)
  {
    ReachableOk(s);
    ClaimsSpendPending(s.store.log, id);
  }

  // ------------------------------------------------------------ reconcile

  /** Along the run, in `u`, reconcile call `pid` peeked at the lease of `id` and found none alive. */
  ghost predicate PeekedAt(s: State, es: seq<Event>, n: nat, u: State, pid: nat, id: Id) {
    && n < |es| && Reaches(s, es[..n], u) && es[n] == Peek(pid)
    && pid in u.calls && u.calls[pid].Stale? && u.calls[pid].id == id && !LeaseFresh(u, id)
  }

  /** Along the run, in `u`, it then read `raw` at the status key of `id`. */
  ghost predicate ReadAt(s: State, es: seq<Event>, n: nat, u: State, pid: nat, id: Id, raw: Status) {
    && n < |es| && Reaches(s, es[..n], u) && es[n] == Read(pid) && Holds(u.store, id, raw)
    && pid in u.calls && u.calls[pid].LeaseGone? && u.calls[pid].id == id
  }

  lemma Shift(s: State, es: seq<Event>, n: nat, u: State)
    requires es != [] && Enabled(s, es[0]) && n <= |es| - 1 && Reaches(Apply(s, es[0]), es[1..][..n], u)
    ensures Reaches(s, es[..n + 1], u)
  {
    assert es[..n + 1][1..] == es[1..][..n] && es[..n + 1][0] == es[0];
  }

  lemma PeekStep(s: State, e: Event, pid: nat)
    requires Enabled(s, e) && pid in Apply(s, e).calls && Apply(s, e).calls[pid].LeaseGone?
    ensures var c := Apply(s, e).calls[pid];
      || (pid in s.calls && s.calls[pid] == c)
      || (e == Peek(pid) && pid in s.calls && s.calls[pid].Stale? && s.calls[pid].id == c.id && !LeaseFresh(s, c.id))
  {
  }

  lemma ReadStep(s: State, e: Event, pid: nat)
    requires Enabled(s, e) && pid in Apply(s, e).calls && Apply(s, e).calls[pid].Reread?
    ensures var c := Apply(s, e).calls[pid];
      || (pid in s.calls && s.calls[pid] == c)
      || (e == Read(pid) && pid in s.calls && s.calls[pid].LeaseGone? && s.calls[pid].id == c.id
          && Holds(s.store, c.id, c.raw))
  {
  }

  lemma {:induction false} PeekBefore(s: State, es: seq<Event>, t: State, pid: nat)
    requires Reaches(s, es, t) && pid in t.calls && t.calls[pid].LeaseGone?
    ensures (pid in s.calls && s.calls[pid] == t.calls[pid])
            || exists n: nat, u :: PeekedAt(s, es, n, u, pid, t.calls[pid].id)
    decreases |es|
  {
    hide Apply, Enabled;
    if es == [] {
    } else {
      var s1 := Apply(s, es[0]);
      PeekBefore(s1, es[1..], t, pid);
      if pid in s1.calls && s1.calls[pid] == t.calls[pid] {
        PeekStep(s, es[0], pid);
        if !(pid in s.calls && s.calls[pid] == t.calls[pid]) {
          assert es[..0] == [];
          assert PeekedAt(s, es, 0, s, pid, t.calls[pid].id);
        }
      } else {
        var n: nat, u :| PeekedAt(s1, es[1..], n, u, pid, t.calls[pid].id);
        Shift(s, es, n, u);
        assert PeekedAt(s, es, n + 1, u, pid, t.calls[pid].id);
      }
    }
  }

  lemma {:induction false} ReadBefore(s: State, es: seq<Event>, t: State, pid: nat)
    requires Reaches(s, es, t) && pid in t.calls && t.calls[pid].Reread?
    ensures (pid in s.calls && s.calls[pid] == t.calls[pid])
            || exists n: nat, u :: ReadAt(s, es, n, u, pid, t.calls[pid].id, t.calls[pid].raw)
    decreases |es|
  {
    hide Apply, Enabled;
    if es == [] {
    } else {
      var s1 := Apply(s, es[0]);
      ReadBefore(s1, es[1..], t, pid);
      if pid in s1.calls && s1.calls[pid] == t.calls[pid] {
        ReadStep(s, es[0], pid);
        if !(pid in s.calls && s.calls[pid] == t.calls[pid]) {
          assert es[..0] == [];
          assert ReadAt(s, es, 0, s, pid, t.calls[pid].id, t.calls[pid].raw);
        }
      } else {
        var n: nat, u :| ReadAt(s1, es[1..], n, u, pid, t.calls[pid].id, t.calls[pid].raw);
        Shift(s, es, n, u);
        assert ReadAt(s, es, n + 1, u, pid, t.calls[pid].id, t.calls[pid].raw);
      }
    }
  }

  lemma SwapBackIs(t: State, pid: nat, at: Time)
    requires Enabled(t, SwapBack(pid, at)) && Lands(t, SwapBack(pid, at)).Some?
    ensures pid in t.calls && t.calls[pid].Reread? && Holds(t.store, t.calls[pid].id, t.calls[pid].raw)
  {
  }

  lemma InitEmpty(s: State)
    requires Init(s)
    ensures s.calls == map[]
  {
  }

  /**
   Every swap back to pending comes after a peek that found the lease absent or expired,
   and lands on the bytes read after that peek.
  */
  lemma SwapBackFollowsPeek(s0: State, es: seq<Event>, t: State, pid: nat, at: Time)
    requires Init(s0) && Reaches(s0, es, t) && Enabled(t, SwapBack(pid, at)) && Lands(t, SwapBack(pid, at)).Some?
    ensures exists n: nat, u, m: nat, v :: n < m
              && PeekedAt(s0, es, n, u, pid, t.calls[pid].id)
              && ReadAt(s0, es, m, v, pid, t.calls[pid].id, t.calls[pid].raw)
    ensures Holds(t.store, t.calls[pid].id, t.calls[pid].raw)
  {
    SwapBackIs(t, pid, at);
    InitEmpty(s0);
    hide Apply, Enabled, Init, Lands;
    ReadBefore(s0, es, t, pid);
    var id, raw := t.calls[pid].id, t.calls[pid].raw;
    var m: nat, v :| ReadAt(s0, es, m, v, pid, id, raw);
    PeekBefore(s0, es[..m], v, pid);
    var n: nat, u :| PeekedAt(s0, es[..m], n, u, pid, id);
    assert es[..m][..n] == es[..n];
    assert PeekedAt(s0, es, n, u, pid, id);
  }

  /** A put of a run whose state is pending: run/start's own, or a publish. */
  predicate PutsPending(e: Event) { (e.Accept? || e.Publish?) && e.state.Pending? }

  /**
   A terminal record turns back into a pending one exactly when a reconcile swaps on terminal
   bytes, which then differ from the record its scan judged, or when a put of a run whose state
   was pending when the put was prepared lands after the run was ended.
  */
  lemma TerminalReturnsIff(s: State, e: Event, id: Id)
    requires Reachable(s) && Enabled(s, e)
    requires id in s.store.statuses && s.store.statuses[id].state.IsTerminal()
    ensures (id in Apply(s, e).store.statuses && Apply(s, e).store.statuses[id].state.Pending?)
            <==> (e.SwapBack? && s.calls[e.pid].id == id && s.calls[e.pid].raw == s.store.statuses[id])
                 || (PutsPending(e) && e.id == id)
    ensures e.SwapBack? && s.calls[e.pid].raw == s.store.statuses[id] ==> s.calls[e.pid].raw != s.calls[e.pid].rec
  {
    ReachableOk(s);
    StoreMoves(s, e);
    if e.SwapBack? || e.TryClaim? { assert CallOk(s.store, s.calls[e.pid]); }
    hide Inv, CallOk, Reachable, Apply;
  }

  /** The swap finds the record the scan judged, and a put of pending finds no record. */
  predicate ReturnFaithful(s: State, e: Event)
    requires Enabled(s, e)
  {
    && (e.SwapBack? && Lands(s, e).Some? ==> s.calls[e.pid].raw == s.calls[e.pid].rec)
    && (PutsPending(e) ==> e.id !in s.store.statuses)
  }

  /** Every step of the run is so. */
  ghost predicate ReconcilesFaithful(s: State, es: seq<Event>)
    decreases |es|
  {
    es == [] || (Enabled(s, es[0]) ==> ReturnFaithful(s, es[0]) && ReconcilesFaithful(Apply(s, es[0]), es[1..]))
  }

  ghost predicate NoTerminalReturn(log: seq<Entry>) {
    forall i :: 0 <= i < |log| && log[i].before.Some? && log[i].before.value.state.IsTerminal() ==>
      !(log[i].after.Some? && log[i].after.value.state.Pending?)
  }

  lemma FaithfulStep(s: State, e: Event)
    requires Inv(s) && Enabled(s, e) && NoTerminalReturn(s.store.log)
    requires ReturnFaithful(s, e)
    ensures NoTerminalReturn(Apply(s, e).store.log)
  {
    StoreMoves(s, e);
    if e.SwapBack? || e.TryClaim? { assert CallOk(s.store, s.calls[e.pid]); }
    hide Inv, CallOk, Apply;
  }

  /**
   When the bytes swapped on are the record the scan judged, and pending is put only where no record
   is, no terminal run returns to pending.
  */
  lemma {:induction false} FaithfulReconcileKeepsEnds(s: State, es: seq<Event>, t: State)
    requires Inv(s) && Reaches(s, es, t) && ReconcilesFaithful(s, es) && NoTerminalReturn(s.store.log)
    ensures NoTerminalReturn(t.store.log)
    decreases |es|
  {
    hide Inv, NoTerminalReturn;
    if es == [] {
    } else {
      ApplyKeeps(s, es[0]);
      FaithfulStep(s, es[0]);
      FaithfulReconcileKeepsEnds(Apply(s, es[0]), es[1..], t);
    }
  }

  // ------------------------------------------------------------ recovery

  /** What the replicas still alive do on their own: no publish, no new lease. */
  predicate Maintenance(e: Event) {
    !e.Register? && !e.Moves? && !e.Accept? && !e.Publish? && !e.LeaseSet? && !e.LeaseDrop? && !e.Checkpoint?
  }

  ghost predicate OnlyMaintenance(es: seq<Event>) { forall i :: 0 <= i < |es| ==> Maintenance(es[i]) }

  /** `t` is reached from `s` by maintenance alone. */
  ghost predicate Maintained(s: State, t: State) {
    exists es :: Reaches(s, es, t) && OnlyMaintenance(es)
  }

  /** Maintenance alone lets `replica` claim the run anew. */
  ghost predicate CanBeClaimed(s: State, id: Id, replica: Replica) {
    exists t :: Maintained(s, t) && id in t.store.statuses
      && t.store.statuses[id].state.Claimed? && t.store.statuses[id].holder == replica
      && exists i :: |s.store.log| <= i < |t.store.log| && Claims(t.store.log[i], id)
  }

  lemma {:induction false} Snoc(s: State, es: seq<Event>, t: State, e: Event)
    requires Reaches(s, es, t) && Enabled(t, e)
    ensures Reaches(s, es + [e], Apply(t, e))
    decreases |es|
  {
    if es == [] {
      assert [e][1..] == [];
    } else {
      Snoc(Apply(s, es[0]), es[1..], t, e);
      assert (es + [e])[1..] == es[1..] + [e];
    }
  }

  lemma Maintain(s: State, t: State, e: Event) returns (u: State)
    requires Maintained(s, t) && Enabled(t, e) && Maintenance(e)
    ensures u == Apply(t, e) && Maintained(s, u)
  {
    var es :| Reaches(s, es, t) && OnlyMaintenance(es);
    Snoc(s, es, t, e);
    u := Apply(t, e);
    assert OnlyMaintenance(es + [e]);
  }

  /** A pending record can be claimed at once. */
  lemma ClaimPending(s: State, t: State, id: Id, q: nat, replica: Replica) returns (u: State)
    requires Maintained(s, t) && id in t.store.statuses && t.store.statuses[id].state.Pending? && q !in t.calls
        && t.clock > 0
    ensures Maintained(s, u)
    ensures id in u.store.statuses && u.store.statuses[id] == ClaimedBy(t.store.statuses[id], replica, t.clock)
    ensures |u.store.log| == |t.store.log| + 1 && Claims(u.store.log[|t.store.log|], id)
  {
    hide Maintained, Reaches;
    u := Maintain(s, t, BeginClaim(q, replica));
    u := Maintain(s, u, Collect(q, id));
    assert u.calls[q].found == [Candidate(id, t.store.statuses[id])];
    u := Maintain(s, u, TryClaim(q, Candidate(id, t.store.statuses[id]), t.clock));
  }

  /** Reconcile judges a stale record and finds no live lease. */
  lemma JudgeStale(s: State, t: State, id: Id, p: nat) returns (u: State)
    requires Maintained(s, t)
    requires id in t.store.statuses && Reconcilable(t.store.statuses[id].state) && p !in t.calls
    requires IsStale(t, t.clock, t.store.statuses[id]) && !LeaseFresh(t, id) && t.clock > 0
    ensures Maintained(s, u) && u == t.(calls := t.calls[p := LeaseGone(id, t.store.statuses[id])])
  {
    hide Maintained, Reaches;
    u := Maintain(s, t, BeginReconcile(p, id));
    u := Maintain(s, u, Judge(p, t.clock));
    u := Maintain(s, u, Peek(p));
  }

  /** A stale claimed, working or paused record without a live lease goes back to pending. */
  lemma ReturnStale(s: State, t: State, id: Id, p: nat) returns (u: State)
    requires Maintained(s, t)
    requires id in t.store.statuses && Reconcilable(t.store.statuses[id].state) && p !in t.calls
    requires IsStale(t, t.clock, t.store.statuses[id]) && !LeaseFresh(t, id) && t.clock > 0
    ensures Maintained(s, u)
    ensures id in u.store.statuses && u.store.statuses[id] == BackToPending(t.store.statuses[id], t.clock)
    ensures u.calls == t.calls[p := Finished] && |u.store.log| == |t.store.log| + 1 && u.clock == t.clock
  {
    hide Maintained, Reaches;
    u := JudgeStale(s, t, id, p);
    u := Maintain(s, u, Read(p));
    u := Maintain(s, u, SwapBack(p, t.clock));
  }

  function Max(a: int, b: int): int { if a < b then b else a }

  /** Letting the clock advance makes reconcile, and then a claim, possible. */
  lemma Recover(s: State, id: Id, p: nat, q: nat, replica: Replica)
    requires Inv(s) && s.staleAfter >= 0 && id in s.store.statuses && p !in s.calls && q !in s.calls && p != q
    requires s.store.statuses[id].state.Pending? || Reconcilable(s.store.statuses[id].state)
    ensures CanBeClaimed(s, id, replica)
  {
    var rec := s.store.statuses[id];
    assert Reaches(s, [], s) && OnlyMaintenance([]);
    if rec.state.Pending? {
      var t := ClaimPending(s, s, id, q, replica);
    } else {
      var until := Max(rec.updatedAt + s.staleAfter, if id in s.leases then s.leases[id] else s.clock);
      var t := Maintain(s, s, Tick(Max(until - s.clock, 0)));
      t := ReturnStale(s, t, id, p);
      t := ClaimPending(s, t, id, q, replica);
    }
  }

  /** Nothing in flight is about to act on this run on the strength of an earlier record. */
  ghost predicate Quiet(c: Call, id: Id, rec: Status) {
    match c
    case Collecting(_, found) => forall i :: 0 <= i < |found| ==> found[i].id != id
    case Scanned(i, r) => i == id ==> r == rec
    case Stale(i, _) => i != id
    case LeaseGone(i, _) => i != id
    case Reread(i, _, _) => i != id
    case Sweeping(i, r) => i == id ==> r == rec
    case Clearing(i, _) => i != id
    case Dropping(i, _) => i != id
    case Finished => true
  }

  ghost predicate AllQuiet(s: State, id: Id, rec: Status) {
    && (forall p :: p in s.calls ==> Quiet(s.calls[p], id, rec))
    && (forall v :: v in s.views && v.1 == id ==> !s.views[v].state.Completed? || s.views[v].remote)
  }

  lemma QueuedStep(s: State, e: Event, id: Id, rec: Status)
    requires Enabled(s, e) && Maintenance(e) && AllQuiet(s, id, rec)
    requires Holds(s.store, id, rec) && rec.state.Queued?
    ensures Holds(Apply(s, e).store, id, rec)
  {
    if e.TryClaim? || e.SwapBack? || e.Remove? || e.Drop? { assert Quiet(s.calls[e.pid], id, rec); }
  }

  lemma QuietStep(s: State, e: Event, id: Id, rec: Status)
    requires Enabled(s, e) && Maintenance(e) && AllQuiet(s, id, rec)
    requires Holds(s.store, id, rec) && rec.state.Queued?
    ensures AllQuiet(Apply(s, e), id, rec)
  {
    hide Write;
    var t := Apply(s, e);
    assert t.views == s.views;
    forall p | p in t.calls ensures Quiet(t.calls[p], id, rec) {
      if p in s.calls { assert Quiet(s.calls[p], id, rec); }
    }
  }

  /** A queued record is outside reconcile's reach: maintenance leaves it as it is for ever. */
  lemma {:induction false} QueuedStays(s: State, es: seq<Event>, t: State, id: Id, rec: Status)
    requires Reaches(s, es, t) && OnlyMaintenance(es) && AllQuiet(s, id, rec)
    requires Holds(s.store, id, rec) && rec.state.Queued?
    ensures Holds(t.store, id, rec)
    decreases |es|
  {
    hide AllQuiet, Holds, Apply, Enabled;
    if es == [] {
    } else {
      assert Maintenance(es[0]);
      QueuedStep(s, es[0], id, rec);
      QuietStep(s, es[0], id, rec);
      QueuedStays(Apply(s, es[0]), es[1..], t, id, rec);
    }
  }

  /** A live run whose holder has stopped can be taken up again exactly when it is not queued. */
  lemma RecoverableIff(s: State, id: Id, p: nat, q: nat, replica: Replica)
    requires Inv(s) && s.staleAfter >= 0 && id in s.store.statuses && p !in s.calls && q !in s.calls && p != q
    requires !s.store.statuses[id].state.IsTerminal() && AllQuiet(s, id, s.store.statuses[id])
    ensures CanBeClaimed(s, id, replica) <==> !s.store.statuses[id].state.Queued?
  {
    if s.store.statuses[id].state.Queued? {
      forall t | Maintained(s, t) ensures Holds(t.store, id, s.store.statuses[id]) {
        var es :| Reaches(s, es, t) && OnlyMaintenance(es);
        QueuedStays(s, es, t, id, s.store.statuses[id]);
      }
    } else {
      Recover(s, id, p, q, replica);
    }
  }

  // ------------------------------------------------------------ witness runs

  lemma ReachableStep(s: State, e: Event) returns (t: State)
    requires Reachable(s) && Enabled(s, e)
    ensures t == Apply(s, e) && Reachable(t)
  {
    hide Enabled, Apply;
    var s0: State, es :| Init(s0) && Reaches(s0, es, s);
    Snoc(s0, es, s, e);
    t := Apply(s, e);
  }

  const START := State(1, 10, 5, 3, map[], {}, map[], Store(map[], {}, {}, {}, []), map[])

  /** A run that run/start has just accepted. */
  lemma NewRun() returns (s: State)
    ensures Reachable(s)
        && s == START.(store := Store(map["x" := Status(Pending, "", 1, 1, "")], {"x"}, {"x"}, {}, s.store.log))
  {
    assert Reaches(START, [], START);
    hide Reachable, Reaches, Init;
    s := ReachableStep(START, Register("x"));
    s := ReachableStep(s, Accept("x", Pending, 1, ""));
  }

  /** A run in this state on replica r, its last status 20 ago. */
  lemma OldRun(state: RunState) returns (s: State)
    requires !state.Pending?
    ensures Reachable(s) && s.clock == 21 && s.staleAfter == 10 && s.terminalTTL == 5 && s.sessionTTL == 3
    ensures s.leases == map[] && s.checkpoints == {} && s.calls == map[] && s.views == map[]
    ensures s.store.accepted == {"x"} && s.store.known == {"x"}
    ensures s.store.statuses == map["x" := Status(state, "r", 1, 1, "")]
        && (!state.IsTerminal() ==> s.store.ended == {})
  {
    hide Reachable, Reaches, Init;
    s := NewRun();
    s := ReachableStep(s, Publish("x", state, "r", 1, 1, ""));
    s := ReachableStep(s, Tick(20));
  }

  /** Reconcile has judged this working run and found its lease gone. */
  lemma WorkingRunJudged(s: State) returns (t: State)
    requires Reachable(s) && s.clock == 21 && s.staleAfter == 10 && s.leases == map[] && s.calls == map[]
    requires s.store.statuses == map["x" := Status(Working, "r", 1, 1, "")]
    ensures Reachable(t) && t == s.(calls := map[0 := LeaseGone("x", Status(Working, "r", 1, 1, ""))])
  {
    hide Reachable, Reaches, Init;
    t := ReachableStep(s, BeginReconcile(0, "x"));
    t := ReachableStep(t, Judge(0, 21));
    t := ReachableStep(t, Peek(0));
  }

  const OLD := Status(Working, "r", 1, 1, "")

  /** The swap puts the record back that was judged. */
  lemma GoesBack(s: State) returns (t: State)
    requires Reachable(s) && s.clock > 0 && s.calls == map[0 := LeaseGone("x", OLD)] && Holds(s.store, "x", OLD)
    ensures Reachable(t)
    ensures t == s.(calls := map[0 := Finished],
        store := Write(s.store, "x", Reconciling, Some(BackToPending(OLD, s.clock))))
  {
    hide Reachable, Reaches, Init, Write;
    t := ReachableStep(s, Read(0));
    t := ReachableStep(t, SwapBack(0, s.clock));
  }

  lemma IsFound(s: State, pid: nat, replica: Replica, rec: Status) returns (t: State)
    requires Reachable(s) && pid !in s.calls && Holds(s.store, "x", rec) && rec.state.Pending?
    ensures Reachable(t) && t == s.(calls := s.calls[pid := Collecting(replica, [Candidate("x", rec)])])
  {
    hide Reachable, Reaches, Init, Write;
    t := ReachableStep(s, BeginClaim(pid, replica));
    t := ReachableStep(t, Collect(pid, "x"));
    assert t.calls[pid].found == [Candidate("x", rec)];
  }

  /** A replica finds this pending record and claims it. */
  lemma IsClaimed(s: State, pid: nat, replica: Replica, rec: Status) returns (t: State)
    requires Reachable(s) && s.clock > 0 && pid !in s.calls && Holds(s.store, "x", rec) && rec.state.Pending?
    ensures Reachable(t)
    ensures t == s.(calls := s.calls[pid := Finished],
                    store := Write(s.store, "x", Claiming(replica), Some(ClaimedBy(rec, replica, s.clock))))
  {
    hide Reachable, Reaches, Init, Write;
    t := IsFound(s, pid, replica, rec);
    t := ReachableStep(t, TryClaim(pid, Candidate("x", rec), s.clock));
  }

  const DONE := Status(Completed, "r", 1, 21, "")

  /** By now the run has completed. */
  lemma CompletedSince() returns (s: State)
    ensures Reachable(s) && s.clock == 21 && s.calls == map[0 := LeaseGone("x", Status(Working, "r", 1, 1, ""))]
    ensures s.store.statuses == map["x" := DONE]
  {
    hide Reachable, Reaches, Init;
    s := OldRun(Working);
    s := WorkingRunJudged(s);
    s := ReachableStep(s, Publish("x", Completed, "r", 1, 21, ""));
  }

  /** Without the faithful condition a completed run is put back to pending. */
  lemma CompletedReturnsToPending()
    ensures exists s: State :: Reachable(s) && !NoTerminalReturn(s.store.log)
  {
    hide Reachable, Reaches, Init;
    var s := CompletedSince();
    s := ReachableStep(s, Read(0));
    s := ReachableStep(s, SwapBack(0, s.clock));
    var e := s.store.log[|s.store.log| - 1];
    assert e.before == Some(DONE) && e.after.value.state.Pending?;
  }

  /** Nor is reconcile needed: a cancel published while run/start writes intake is overwritten by its pending record. */
  lemma CanceledReturnsToPending()
    ensures exists s: State ::
      var e := Accept("x", Pending, 1, "");
      && Reachable(s) && s.calls == map[] && Enabled(s, e)
      && "x" in s.store.statuses && s.store.statuses["x"].state.Canceled?
      && Apply(s, e).store.statuses["x"].state.Pending?
  {
    assert Reaches(START, [], START);
    hide Reachable, Reaches, Init;
    var s := ReachableStep(START, Register("x"));
    s := ReachableStep(s, Publish("x", Canceled, "r", 1, 1, ""));
    var t := Apply(s, Accept("x", Pending, 1, ""));
  }

  const ASKED := Status(Pending, "", 1, 1, "")
  const FAILED := Status(Failed, "b", 1, 1, "")

  /**
   A run/cancel sets the run to canceled, run/start sets it to pending before the cancel prepares its
   put, and puts its own record ...
  */
  lemma CanceledAndAccepted() returns (s: State)
    ensures Reachable(s) && s.clock == 1 && s.views == map[("a", "x") := View(Pending, 1, false)] && s.calls == map[]
    ensures s.store.statuses == map["x" := ASKED] && s.store.accepted == {"x"} && s.store.known == {"x"}
    ensures s.store.log == [Entry("x", Accepting, None, Some(ASKED))]
  {
    assert Reaches(START, [], START);
    hide Reachable, Reaches, Init;
    s := ReachableStep(START, Register("x"));
    s := ReachableStep(s, Moves("a", "x", View(Canceled, 1, false)));
    s := ReachableStep(s, Moves("a", "x", View(Pending, 1, false)));
    s := ReachableStep(s, Accept("x", Pending, 1, ""));
  }

  /** ... another replica claims the run ... */
  lemma ClaimedMeanwhile() returns (s: State)
    ensures Reachable(s) && s.clock == 1 && s.views == map[("a", "x") := View(Pending, 1, false)]
    ensures s.store.statuses == map["x" := ClaimedBy(ASKED, "b", 1)] && s.store.known == {"x"}
        && s.store.accepted == {"x"}
    ensures s.store.log == [Entry("x", Accepting, None, Some(ASKED)),
                            Entry("x", Claiming("b"), Some(ASKED), Some(ClaimedBy(ASKED, "b", 1)))]
  {
    hide Reachable, Reaches, Init;
    s := CanceledAndAccepted();
    s := IsClaimed(s, 0, "b", ASKED);
  }

  /** No reconcile has written a record, and run/start's put found none. */
  predicate NoOtherReturn(log: seq<Entry>) {
    forall i :: 0 <= i < |log| ==> !log[i].source.Reconciling? && (log[i].source.Accepting? ==> log[i].before.None?)
  }

  /**
   ... and fails it, before the cancel's put lands, which carries pending: the failed run is pending
   again, without a reconcile, and though run/start's own put found no record.
  */
  lemma FailedReturnsToPending()
    ensures exists s: State ::
      var e := Publish("x", Pending, "", 1, 1, "");
      && Reachable(s) && NoOtherReturn(s.store.log) && Enabled(s, e) && ("a", "x") in s.views
      && s.views[("a", "x")].state.Pending?
      && "x" in s.store.statuses && s.store.statuses["x"] == FAILED
      && Apply(s, e).store.statuses["x"].state.Pending?
  {
    hide Reachable, Reaches, Init;
    var s := ClaimedMeanwhile();
    s := ReachableStep(s, Publish("x", Failed, "b", 1, 1, ""));
    assert s.store.log[2] == Entry("x", Publishing, Some(ClaimedBy(ASKED, "b", 1)), Some(FAILED));
    var t := Apply(s, Publish("x", Pending, "", 1, 1, ""));
  }

  /** A run whose worker was taken for dead is put back to pending, while r resumes it; ... */
  lemma ReturnedOnce() returns (s: State)
    ensures Reachable(s) && s.clock == 21 && s.calls == map[0 := Finished] && s.views == map[]
    ensures s.store.statuses == map["x" := Status(Pending, "", 1, 21, "")] && s.store.known == {"x"}
  {
    hide Reachable, Reaches, Init;
    s := OldRun(Working);
    s := WorkingRunJudged(s);
    s := GoesBack(s);
  }

  /** ... a poll on r, where the run is still marked as another replica's, copies that into r's view ... */
  lemma PendingCopied() returns (s: State)
    ensures Reachable(s) && s.clock == 21 && s.calls == map[0 := Finished]
    ensures s.views == map[("r", "x") := View(Pending, 21, true)]
    ensures s.store.statuses == map["x" := Status(Pending, "", 1, 21, "")] && s.store.known == {"x"}
  {
    hide Reachable, Reaches, Init;
    s := ReturnedOnce();
    s := ReachableStep(s, Moves("r", "x", View(Pending, 21, true)));
  }

  /** ... so that the next step of r publishes pending over the completion another replica has written since. */
  lemma CompletedReturnsByPublish()
    ensures exists s: State ::
      var e := Publish("x", Pending, "", 1, 21, "");
      && Reachable(s) && Enabled(s, e) && ("r", "x") in s.views && s.views[("r", "x")] == View(Pending, 21, true)
      && "x" in s.store.statuses && s.store.statuses["x"] == Status(Completed, "b", 1, 21, "")
      && Apply(s, e).store.statuses["x"].state.Pending?
  {
    hide Reachable, Reaches, Init;
    var s := PendingCopied();
    s := IsClaimed(s, 1, "b", Status(Pending, "", 1, 21, ""));
    s := ReachableStep(s, Publish("x", Completed, "b", 1, 21, ""));
    var t := Apply(s, Publish("x", Pending, "", 1, 21, ""));
  }

  /** The shared sweep has judged an old failed record of a run that has no checkpoint. */
  lemma FailedRunJudged() returns (s: State)
    ensures Reachable(s) && s.clock == 21 && s.store.known == {"x"} && "x" in s.store.statuses
    ensures s.calls == map[0 := Clearing("x", Status(Failed, "r", 1, 1, ""))]
  {
    hide Reachable, Reaches, Init;
    s := OldRun(Failed);
    s := ReachableStep(s, BeginSweep(0, "x"));
    s := ReachableStep(s, Probe(0, 21));
  }

  /** Without the faithful condition it removes the record of the run that is working again by now. */
  lemma LiveRecordRemoved()
    ensures exists s: State :: Reachable(s) && !OnlyTerminalRemoved(s.store.log)
  {
    hide Reachable, Reaches, Init;
    var s := FailedRunJudged();
    s := ReachableStep(s, Publish("x", Working, "r", 1, s.clock, ""));
    var live := s.store.statuses["x"];
    s := ReachableStep(s, Remove(0));
    var e := s.store.log[|s.store.log| - 1];
    assert e.source.Removing? && e.before == Some(live);
  }

  /**
   The run has completed on r, but its completion could not be published, and reconcile has judged the old record ...
  */
  lemma UnpublishedJudged() returns (s: State)
    ensures Reachable(s) && s.clock == 21 && s.sessionTTL == 3
    ensures s.calls == map[0 := LeaseGone("x", Status(Working, "r", 1, 1, ""))]
    ensures s.leases == map[] && s.checkpoints == {} && s.views == map[("r", "x") := View(Completed, 21, false)]
    ensures s.store.accepted == {"x"} && s.store.known == {"x"} && s.store.ended == {}
    ensures s.store.statuses == map["x" := Status(Working, "r", 1, 1, "")]
  {
    hide Reachable, Reaches, Init;
    s := OldRun(Working);
    s := ReachableStep(s, Moves("r", "x", View(Completed, 21, false)));
    s := WorkingRunJudged(s);
  }

  /** ... it goes back to pending ... */
  lemma UnpublishedReturns() returns (s: State)
    ensures Reachable(s) && s.clock == 21 && s.sessionTTL == 3 && s.calls == map[0 := Finished]
    ensures s.leases == map[] && s.checkpoints == {} && s.views == map[("r", "x") := View(Completed, 21, false)]
    ensures s.store.accepted == {"x"} && s.store.known == {"x"} && s.store.ended == {}
    ensures s.store.statuses == map["x" := Status(Pending, "", 1, 21, "")]
  {
    hide Reachable, Reaches, Init;
    s := UnpublishedJudged();
    s := GoesBack(s);
  }

  /** ... another replica claims it ... */
  lemma ClaimedElsewhere() returns (s: State)
    ensures Reachable(s) && s.clock == 21 && s.sessionTTL == 3
    ensures s.calls == map[0 := Finished, 1 := Finished] && s.views == map[("r", "x") := View(Completed, 21, false)]
    ensures s.leases == map[] && s.checkpoints == {}
    ensures s.store.accepted == {"x"} && s.store.known == {"x"} && s.store.ended == {}
    ensures s.store.statuses == map["x" := Status(Claimed, "b", 1, 21, "")]
  {
    hide Reachable, Reaches, Init;
    s := UnpublishedReturns();
    s := IsClaimed(s, 1, "b", Status(Pending, "", 1, 21, ""));
  }

  /** ... and works on it, with a lease and a checkpoint. */
  lemma TakenUp() returns (s: State)
    ensures Reachable(s) && s.clock == 31 && s.sessionTTL == 3
    ensures s.calls == map[0 := Finished, 1 := Finished] && s.views == map[("r", "x") := View(Completed, 21, false)]
    ensures s.leases == map["x" := 1000] && s.checkpoints == {"x"}
    ensures s.store.accepted == {"x"} && s.store.ended == {}
    ensures s.store.statuses == map["x" := Status(Working, "b", 1, 21, "")]
  {
    hide Reachable, Reaches, Init;
    s := ClaimedElsewhere();
    s := ReachableStep(s, Publish("x", Working, "b", 1, 21, ""));
    s := ReachableStep(s, LeaseSet("x", 1000));
    s := ReachableStep(s, Checkpoint("x", true));
    s := ReachableStep(s, Tick(10));
  }

  /** By then r's sweep has found its own completed run, idle for the session TTL ... */
  lemma OwnRunSeen() returns (s: State)
    ensures Reachable(s) && 2 in s.calls && s.calls[2] == Dropping("x", View(Completed, 21, false))
    ensures s.leases == map["x" := 1000] && s.checkpoints == {"x"}
    ensures s.store.accepted == {"x"} && s.store.ended == {}
    ensures s.store.statuses == map["x" := Status(Working, "b", 1, 21, "")]
  {
    hide Reachable, Reaches, Init;
    s := TakenUp();
    s := ReachableStep(s, LookLocal(2, "r", "x"));
  }

  /**
   ... and removes the record, the lease and the checkpoint of a run that works on another replica,
   and for which no terminal status was ever written.
  */
  lemma LostByOwnSweep()
    ensures exists s: State, t: State ::
      && Reachable(s) && Reachable(t) && "x" in s.store.statuses && s.store.statuses["x"].state.Working?
      && Lost(t.store, "x") && "x" in s.leases && "x" !in t.leases && "x" in s.checkpoints && "x" !in t.checkpoints
  {
    hide Reachable, Reaches, Init;
    var s := OwnRunSeen();
    var t := ReachableStep(s, Drop(2));
  }
}
