/**
 Durable intake: the status records that run/start, the claim loop, reconcile, the running
 replica and both sweeps share through the store, as a state machine over single store
 operations of any number of replicas, with each replica's own view of its runs. The lease key
 is only read and removed here (Lease has the rest).
*/
module Intake {
  type Time = int
  type Id = string
  type Replica = string

  import opened Options

  datatype RunState = Pending | Claimed | Queued | Working | Paused | Completed | Failed | Canceled
  {
    predicate IsTerminal() { Completed? || Failed? || Canceled? }
  }

  /** The JSON value at run/<id>/status; `rest` is everything the protocol only carries along. */
  datatype Status = Status(state: RunState, holder: Replica, startedAt: Time, updatedAt: Time, rest: string)

  datatype Candidate = Candidate(id: Id, rec: Status)

  /** A replica's in-memory run: its state, when it changed last, and whether it only mirrors another replica's. */
  datatype View = View(state: RunState, updated: Time, remote: bool)

  datatype Source = Accepting | Publishing | Claiming(holder: Replica) | Reconciling | Removing

  /** A write of one status key that reached the store. */
  datatype Entry = Entry(id: Id, source: Source, before: Option<Status>, after: Option<Status>)

  /**
   The program point of one claim, reconcile or sweep in flight; Dropping is a sweep of a replica's own completed run.
  */
  datatype Call =
    | Collecting(holder: Replica, found: seq<Candidate>)
    | Scanned(id: Id, rec: Status)
    | Stale(id: Id, rec: Status)
    | LeaseGone(id: Id, rec: Status)
    | Reread(id: Id, rec: Status, raw: Status)
    | Sweeping(id: Id, rec: Status)
    | Clearing(id: Id, rec: Status)
    | Dropping(id: Id, seen: View)
    | Finished

  /** The status keys, with the history the theorems speak about. */
  datatype Store = Store(
    statuses: map<Id, Status>,
    known: set<Id>,             // runs that run/start has registered
    accepted: set<Id>,          // runs whose record run/start has put
    ended: set<Id>,             // runs for which a terminal status was written
    log: seq<Entry>             // every status write, in the order they landed
  )

  datatype State = State(
    clock: Time,
    staleAfter: Time,
    terminalTTL: Time,
    sessionTTL: Time,
    leases: map<Id, Time>,      // expiry of the lease record; absent: no record
    checkpoints: set<Id>,
    views: map<(Replica, Id), View>,
    store: Store,
    calls: map<nat, Call>
  )

  datatype Event =
    | Tick(elapsed: nat)
    | Register(id: Id)
    | Moves(replica: Replica, id: Id, seen: View)   // a replica's own view of a run changes
    // a publish that fails is one that is not in the run
    // times a record carries were read from the clock some time before its write lands
    // run/start's own put and every later publish write the state the run has by then, pending included
    | Accept(id: Id, state: RunState, at: Time, rest: string)
    | Publish(id: Id, state: RunState, holder: Replica, started: Time, at: Time, rest: string)
    | LeaseSet(id: Id, expires: Time)
    | LeaseDrop(id: Id)
    | Checkpoint(id: Id, present: bool)
    // claimNextCAS
    | BeginClaim(pid: nat, replica: Replica)
    | Collect(pid: nat, id: Id)
    | TryClaim(pid: nat, cand: Candidate, at: Time)
    // reconcileRuns, for one record of its scan
    | BeginReconcile(pid: nat, id: Id)
    | Judge(pid: nat, at: Time)
    | Peek(pid: nat)
    | Read(pid: nat)
    | SwapBack(pid: nat, at: Time)
    // sweepRuns, for one record of its scan
    | BeginSweep(pid: nat, id: Id)
    | Probe(pid: nat, at: Time)
    | Remove(pid: nat)
    // sweepRuns, for one run of the replica's registry
    | LookLocal(pid: nat, replica: Replica, id: Id)
    | Drop(pid: nat)
    // a store call fails: reads find nothing out, a write may have applied first
    | StoreError(pid: nat)

  function Lookup(statuses: map<Id, Status>, id: Id): Option<Status> {
    if id in statuses then Some(statuses[id]) else None
  }

  function Write(s: Store, id: Id, source: Source, after: Option<Status>): Store {
    Store(
      if after.Some? then s.statuses[id := after.value] else s.statuses - {id},
      s.known + {id},
      if source.Accepting? then s.accepted + {id} else s.accepted,
      if after.Some? && after.value.state.IsTerminal() then s.ended + {id} else s.ended,
      s.log + [Entry(id, source, Lookup(s.statuses, id), after)])
  }

  /** Only a record that can still be helped is reconciled; queued is not among them. */
  predicate Reconcilable(st: RunState) { st.Claimed? || st.Working? || st.Paused? }

  /** By the cut-off taken at this time. */
  predicate IsStale(s: State, at: Time, rec: Status) {
    rec.updatedAt != 0 && rec.updatedAt <= at - s.staleAfter
  }

  /** A reading of the clock, now or earlier. */
  predicate Reading(s: State, at: Time) { 0 < at <= s.clock }

  predicate LeaseFresh(s: State, id: Id) { id in s.leases && s.clock < s.leases[id] }

  function ClaimedBy(rec: Status, replica: Replica, now: Time): Status {
    rec.(state := Claimed, holder := replica, updatedAt := now)
  }

  function BackToPending(rec: Status, now: Time): Status {
    rec.(state := Pending, holder := "", updatedAt := now)
  }

  predicate Enabled(s: State, e: Event) {
    match e
    case Tick(_) => true
    case Register(id) => id !in s.store.known
    case Moves(_, id, seen) => id in s.store.known && Reading(s, seen.updated)
    case Accept(id, _, at, _) => id in s.store.known && id !in s.store.accepted && Reading(s, at)
    case Publish(id, _, _, _, at, _) => id in s.store.known && Reading(s, at)
    case LeaseSet(_, _) => true
    case LeaseDrop(_) => true
    case Checkpoint(_, _) => true
    case BeginClaim(pid, _) => pid !in s.calls
    case Collect(pid, _) => pid in s.calls && s.calls[pid].Collecting?
    case TryClaim(pid, cand, at) =>
      pid in s.calls && s.calls[pid].Collecting? && cand in s.calls[pid].found && Reading(s, at)
    case BeginReconcile(pid, id) => pid !in s.calls && id in s.store.statuses
    case Judge(pid, at) => pid in s.calls && s.calls[pid].Scanned? && Reading(s, at)
    case Peek(pid) => pid in s.calls && s.calls[pid].Stale?
    case Read(pid) => pid in s.calls && s.calls[pid].LeaseGone?
    case SwapBack(pid, at) => pid in s.calls && s.calls[pid].Reread? && Reading(s, at)
    case BeginSweep(pid, id) => pid !in s.calls && id in s.store.statuses
    case Probe(pid, at) => pid in s.calls && s.calls[pid].Sweeping? && Reading(s, at)
    case Remove(pid) => pid in s.calls && s.calls[pid].Clearing?
    case LookLocal(pid, replica, id) => pid !in s.calls && (replica, id) in s.views
    case Drop(pid) => pid in s.calls && s.calls[pid].Dropping?
    case StoreError(pid) => pid in s.calls && !s.calls[pid].Finished?
  }

  predicate Holds(s: Store, id: Id, raw: Status) { Lookup(s.statuses, id) == Some(raw) }

  /** A terminal record past its retention, by the cut-off taken at this time. */
  predicate Retired(s: State, at: Time, rec: Status) {
    rec.state.IsTerminal() && rec.updatedAt != 0 && rec.updatedAt < at - s.terminalTTL
  }

  /** A completed run of this replica's own, idle for the session TTL. */
  predicate Droppable(s: State, seen: View) {
    seen.state.Completed? && !seen.remote && seen.updated < s.clock - s.sessionTTL
  }

  /** The status write this event lands, if it lands one. */
  function Lands(s: State, e: Event): Option<(Id, Source, Option<Status>)>
    requires Enabled(s, e)
  {
    match e
    case Accept(id, state, at, rest) => Some((id, Accepting, Some(Status(state, "", at, at, rest))))
    case Publish(id, state, holder, started, at, rest) =>
      Some((id, Publishing, Some(Status(state, holder, started, at, rest))))
    case TryClaim(pid, cand, at) =>
      var c := s.calls[pid];
      if Holds(s.store, cand.id, cand.rec)
      then Some((cand.id, Claiming(c.holder), Some(ClaimedBy(cand.rec, c.holder, at)))) else None
    case SwapBack(pid, at) =>
      var c := s.calls[pid];
      if Holds(s.store, c.id, c.raw) then Some((c.id, Reconciling, Some(BackToPending(c.rec, at)))) else None
    case Remove(pid) => Some((s.calls[pid].id, Removing, None))
    case Drop(pid) => Some((s.calls[pid].id, Removing, None))
    case _ => None
  }

  function NextStore(s: State, e: Event): Store
    requires Enabled(s, e)
  {
    match Lands(s, e)
    case Some((id, source, after)) => Write(s.store, id, source, after)
    case None => if e.Register? then s.store.(known := s.store.known + {e.id}) else s.store
  }

  /** A swap that landed ends its call whether or not the reply arrives. */
  function NextCalls(s: State, e: Event): map<nat, Call>
    requires Enabled(s, e)
  {
    var statuses := s.store.statuses;
    match e
    case BeginClaim(pid, replica) => s.calls[pid := Collecting(replica, [])]
    case Collect(pid, id) =>
      if id in statuses && statuses[id].state.Pending?
      then s.calls[pid := s.calls[pid].(found := s.calls[pid].found + [Candidate(id, statuses[id])])]
      else s.calls
    case TryClaim(pid, _, _) => if Lands(s, e).Some? then s.calls[pid := Finished] else s.calls
    case BeginReconcile(pid, id) => s.calls[pid := Scanned(id, statuses[id])]
    case Judge(pid, at) =>
      var c := s.calls[pid];
      s.calls[pid := if Reconcilable(c.rec.state) && IsStale(s, at, c.rec) then Stale(c.id, c.rec) else Finished]
    case Peek(pid) =>
      var c := s.calls[pid];
      s.calls[pid := if LeaseFresh(s, c.id) then Finished else LeaseGone(c.id, c.rec)]
    case Read(pid) =>
      var c := s.calls[pid];
      s.calls[pid := if c.id in statuses then Reread(c.id, c.rec, statuses[c.id]) else Finished]
    case SwapBack(pid, _) => s.calls[pid := Finished]
    case BeginSweep(pid, id) => s.calls[pid := Sweeping(id, statuses[id])]
    case Probe(pid, at) =>
      var c := s.calls[pid];
      s.calls[pid := if Retired(s, at, c.rec) && c.id !in s.checkpoints then Clearing(c.id, c.rec) else Finished]
    case Remove(pid) => s.calls[pid := Finished]
    case LookLocal(pid, replica, id) =>
      var seen := s.views[(replica, id)];
      s.calls[pid := if Droppable(s, seen) then Dropping(id, seen) else Finished]
    case Drop(pid) => s.calls[pid := Finished]
    case StoreError(pid) => s.calls[pid := Finished]
    case _ => s.calls
  }

  function WithoutRun(s: State, id: Id): State {
    s.(leases := s.leases - {id}, checkpoints := s.checkpoints - {id})
  }

  function Apply(s: State, e: Event): State
    requires Enabled(s, e)
  {
    var t := s.(store := NextStore(s, e), calls := NextCalls(s, e));
    match e
    case Tick(d) => t.(clock := s.clock + d)
    case LeaseSet(id, expires) => t.(leases := s.leases[id := expires])
    case LeaseDrop(id) => t.(leases := s.leases - {id})
    case Checkpoint(id, present) =>
      t.(checkpoints := if present then s.checkpoints + {id} else s.checkpoints - {id})
    case Moves(replica, id, seen) => t.(views := s.views[(replica, id) := seen])
    // a removal takes every key of the run
    case Remove(pid) => WithoutRun(t, s.calls[pid].id)
    case Drop(pid) => WithoutRun(t, s.calls[pid].id)
    case _ => t
  }

  ghost predicate Init(s: State) {
    s.clock > 0 && s.store == Store(map[], {}, {}, {}, []) && s.calls == map[] && s.views == map[]
  }

  ghost predicate Reaches(s: State, es: seq<Event>, t: State)
    decreases |es|
  {
    if es == [] then s == t
    else Enabled(s, es[0]) && Reaches(Apply(s, es[0]), es[1..], t)
  }

  // ------------------------------------------------------------ the log

  /** What the log says a key holds. */
  function Current(log: seq<Entry>, id: Id): Option<Status> {
    if log == [] then None
    else if log[|log| - 1].id == id then log[|log| - 1].after
    else Current(log[..|log| - 1], id)
  }

  predicate WritesPending(e: Entry, id: Id) {
    e.id == id && e.after.Some? && e.after.value.state.Pending?
  }

  predicate Claims(e: Entry, id: Id) { e.id == id && e.source.Claiming? }

  ghost predicate EntryOk(e: Entry) {
    e.source.Claiming? ==>
      e.before.Some? && e.before.value.state.Pending? && e.after.Some? && e.after.value.state.Claimed?
  }

  /** Each entry starts from what the earlier ones left. */
  ghost predicate LogOk(log: seq<Entry>) {
    forall i :: 0 <= i < |log| ==> log[i].before == Current(log[..i], log[i].id) && EntryOk(log[i])
  }

  ghost predicate Tracks(s: Store) {
    forall id :: Lookup(s.statuses, id) == Current(s.log, id)
  }

  ghost predicate Accounted(s: Store) {
    && s.accepted <= s.known
    && (forall id :: id in s.statuses ==> s.statuses[id].updatedAt > 0 && id in s.known)
    && (forall id :: id in s.statuses && s.statuses[id].state.IsTerminal() ==> id in s.ended)
  }

  ghost predicate CallOk(s: Store, c: Call) {
    match c
    case Collecting(_, found) => forall i :: 0 <= i < |found| ==> found[i].rec.state.Pending?
    case Stale(_, rec) => Reconcilable(rec.state)
    case LeaseGone(_, rec) => Reconcilable(rec.state)
    case Reread(_, rec, _) => Reconcilable(rec.state)
    case Sweeping(id, rec) => rec.state.IsTerminal() ==> id in s.ended
    case Clearing(id, rec) => rec.state.IsTerminal() && id in s.ended
    case Dropping(id, seen) => seen.state.Completed? && !seen.remote && id in s.known
    case _ => true
  }

  ghost predicate Inv(s: State) {
    && s.clock > 0 && Tracks(s.store) && Accounted(s.store) && LogOk(s.store.log)
    && (forall p :: p in s.calls ==> CallOk(s.store, s.calls[p]))
    && (forall v :: v in s.views ==> v.1 in s.store.known)
  }

  lemma WriteTracks(s: Store, id: Id, source: Source, after: Option<Status>)
    requires Tracks(s) && LogOk(s.log) && EntryOk(Entry(id, source, Lookup(s.statuses, id), after))
    ensures Tracks(Write(s, id, source, after)) && LogOk(Write(s, id, source, after).log)
  {
    var t := Write(s, id, source, after);
    assert t.log[..|s.log|] == s.log;
    forall other ensures Lookup(t.statuses, other) == Current(t.log, other) {
      assert Lookup(s.statuses, other) == Current(s.log, other);
    }
    forall i | 0 <= i < |t.log| ensures t.log[i].before == Current(t.log[..i], t.log[i].id) && EntryOk(t.log[i]) {
      if i < |s.log| { assert t.log[..i] == s.log[..i] && t.log[i] == s.log[i]; }
    }
  }

  lemma LandsOk(s: State, e: Event)
    requires Inv(s) && Enabled(s, e) && Lands(s, e).Some?
    ensures var (id, source, after) := Lands(s, e).value;
      && EntryOk(Entry(id, source, Lookup(s.store.statuses, id), after))
      && (after.Some? ==> after.value.updatedAt > 0) && (source.Accepting? ==> id in s.store.known)
  {
    if e.TryClaim? || e.SwapBack? || e.Remove? || e.Drop? {
      assert CallOk(s.store, s.calls[e.pid]);
    }
  }

  lemma StoreGrows(s: State, e: Event)
    requires Enabled(s, e)
    ensures s.store.ended <= Apply(s, e).store.ended && s.store.known <= Apply(s, e).store.known
  {
  }

  lemma CallStays(s: Store, t: Store, c: Call)
    requires CallOk(s, c) && s.ended <= t.ended && s.known <= t.known
    ensures CallOk(t, c)
  {
  }

  /** The call that moves: where it goes on is right for the store it met. */
  lemma MovedOk(s: State, e: Event, p: nat)
    requires Accounted(s.store) && Enabled(s, e) && p in NextCalls(s, e)
    requires p in s.calls ==> CallOk(s.store, s.calls[p])
    requires forall v :: v in s.views ==> v.1 in s.store.known
    ensures CallOk(s.store, NextCalls(s, e)[p])
  {
    hide Apply, Write, NextStore;
  }

  lemma CallsKeep(s: State, e: Event)
    requires Inv(s) && Enabled(s, e)
    ensures var t := Apply(s, e); forall p :: p in t.calls ==> CallOk(t.store, t.calls[p])
  {
    var t := Apply(s, e);
    StoreGrows(s, e);
    CallsAre(s, e);
    hide Apply, Enabled, CallOk, Tracks, LogOk, Accounted, NextCalls;
    forall p | p in t.calls ensures CallOk(t.store, t.calls[p]) {
      MovedOk(s, e, p);
      CallStays(s.store, t.store, t.calls[p]);
    }
  }

  lemma CallsAre(s: State, e: Event)
    requires Enabled(s, e)
    ensures Apply(s, e).calls == NextCalls(s, e)
  {
  }

  lemma ApplyKeeps(s: State, e: Event)
    requires Inv(s) && Enabled(s, e)
    ensures Inv(Apply(s, e)) && s.store.log <= Apply(s, e).store.log && s.store.accepted <= Apply(s, e).store.accepted
    ensures s.store.ended <= Apply(s, e).store.ended
  {
    CallsKeep(s, e);
    if Lands(s, e).Some? {
      LandsOk(s, e);
      var (id, source, after) := Lands(s, e).value;
      WriteTracks(s.store, id, source, after);
    }
  }
}
