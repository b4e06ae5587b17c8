/**
 The concurrency slots: run/start and run/resume legs, queued legs, the claim drain and
 synchronous calls share one semaphore channel. Every interleaving of their steps and of
 run/cancel is covered. A leg is one launch of a run; a run is resumed only after its
 previous leg has ended.
*/
module Slots {
  import opened Options

  datatype RunState = Queued | Working | Canceled | Stopped

  /** `closes` counts close(done) on the channel the current leg made. */
  datatype Run = Run(state: RunState, closes: nat)

  /** `slot` is the release obligation: None when concurrency is unlimited. */
  datatype Actor =
    | LegWaiting(run: nat)
    | LegChecking(run: nat, slot: Option<nat>)
    | LegDropping(run: nat, slot: Option<nat>)
    | LegClosing(run: nat)
    | LegRunning(run: nat, slot: Option<nat>)
    | LegReleasing(run: nat, slot: Option<nat>)
    | LegEnded(run: nat)
    | DrainIdle
    | DrainClaiming(slot: Option<nat>)
    | DrainOver
    | SyncWaiting
    | SyncRunning(slot: Option<nat>)
    | SyncEnded

  datatype State = State(
    cap: Option<nat>,          // None: h.sem is nil
    tokens: nat,               // len(h.sem)
    next: nat,                 // slots handed out so far
    returned: seq<nat>,        // slots given back, in order
    actors: map<nat, Actor>,
    runs: map<nat, Run>
  )

  datatype Event =
    | Launch(pid: nat, run: nat)
    | WaitTakes(pid: nat)
    | WaitGivesUp(pid: nat)
    | Recheck(pid: nat)
    | Drop(pid: nat)
    | CloseDropped(pid: nat)
    | ExecReturns(pid: nat, state: RunState)
    | Release(pid: nat)
    | Cancel(run: nat)
    | DrainBegins(pid: nat)
    | DrainTakes(pid: nat)
    | DrainStops(pid: nat)             // no free slot, or the context is done
    | ClaimFails(pid: nat)             // a scan error, or nothing to claim
    | ClaimUnusable(pid: nat)          // no intake record, or its tool is not loaded
    | ClaimRuns(pid: nat, leg: nat, run: nat)
    | SyncBegins(pid: nat)
    | SyncTakes(pid: nat)
    | SyncSheds(pid: nat)
    | SyncReturns(pid: nat)

  function SlotOf(a: Actor): Option<nat> {
    match a
    case LegChecking(_, slot) => slot
    case LegDropping(_, slot) => slot
    case LegRunning(_, slot) => slot
    case LegReleasing(_, slot) => slot
    case DrainClaiming(slot) => slot
    case SyncRunning(slot) => slot
    case _ => None
  }

  /** The leg of a run that has not closed its done channel yet. */
  function LiveLeg(a: Actor): Option<nat> {
    match a
    case LegWaiting(run) => Some(run)
    case LegChecking(run, _) => Some(run)
    case LegDropping(run, _) => Some(run)
    case LegClosing(run) => Some(run)
    case LegRunning(run, _) => Some(run)
    case _ => None
  }

  /** Is the run free for a new leg? */
  ghost predicate Free(s: State, run: nat) {
    forall p :: p in s.actors ==> LiveLeg(s.actors[p]) != Some(run)
  }

  predicate HasRoom(s: State) { s.cap.None? || s.tokens < s.cap.value }

  function Take(s: State): State {
    if s.cap.None? then s else s.(tokens := s.tokens + 1, next := s.next + 1)
  }

  function Taken(s: State): Option<nat> {
    if s.cap.None? then None else Some(s.next)
  }

  /** Receiving from the channel blocks while it is empty. */
  predicate CanGive(s: State, slot: Option<nat>) { slot.None? || s.tokens > 0 }

  function Give(s: State, slot: Option<nat>): State
    requires CanGive(s, slot)
  {
    if slot.None? then s else s.(tokens := s.tokens - 1, returned := s.returned + [slot.value])
  }

  function SetActor(s: State, pid: nat, a: Actor): State { s.(actors := s.actors[pid := a]) }

  function SetState(s: State, run: nat, st: RunState): State
    requires run in s.runs
  {
    s.(runs := s.runs[run := s.runs[run].(state := st)])
  }

  function CloseDone(s: State, run: nat): State
    requires run in s.runs
  {
    s.(runs := s.runs[run := s.runs[run].(closes := s.runs[run].closes + 1)])
  }

  ghost predicate Enabled(s: State, e: Event) {
    match e
    case Launch(pid, run) => pid !in s.actors && Free(s, run)
    case WaitTakes(pid) => pid in s.actors && s.actors[pid].LegWaiting? && HasRoom(s)
    case WaitGivesUp(pid) => pid in s.actors && s.actors[pid].LegWaiting? && s.actors[pid].run in s.runs
    case Recheck(pid) => pid in s.actors && s.actors[pid].LegChecking? && s.actors[pid].run in s.runs
    case Drop(pid) => pid in s.actors && s.actors[pid].LegDropping? && CanGive(s, s.actors[pid].slot)
    case CloseDropped(pid) => pid in s.actors && s.actors[pid].LegClosing? && s.actors[pid].run in s.runs
    case ExecReturns(pid, st) =>
      pid in s.actors && s.actors[pid].LegRunning? && s.actors[pid].run in s.runs && (st.Canceled? || st.Stopped?)
    case Release(pid) => pid in s.actors && s.actors[pid].LegReleasing? && CanGive(s, s.actors[pid].slot)
    case Cancel(run) => run in s.runs
    case DrainBegins(pid) => pid !in s.actors
    case DrainTakes(pid) => pid in s.actors && s.actors[pid].DrainIdle? && HasRoom(s)
    case DrainStops(pid) => pid in s.actors && s.actors[pid].DrainIdle?
    case ClaimFails(pid) => pid in s.actors && s.actors[pid].DrainClaiming? && CanGive(s, s.actors[pid].slot)
    case ClaimUnusable(pid) => pid in s.actors && s.actors[pid].DrainClaiming? && CanGive(s, s.actors[pid].slot)
    case ClaimRuns(pid, leg, run) => pid in s.actors && s.actors[pid].DrainClaiming? && leg !in s.actors && Free(s, run)
    case SyncBegins(pid) => pid !in s.actors
    case SyncTakes(pid) => pid in s.actors && s.actors[pid].SyncWaiting? && HasRoom(s)
    case SyncSheds(pid) => pid in s.actors && s.actors[pid].SyncWaiting?
    case SyncReturns(pid) => pid in s.actors && s.actors[pid].SyncRunning? && CanGive(s, s.actors[pid].slot)
  }

  ghost function Apply(s: State, e: Event): State
    requires Enabled(s, e)
  {
    match e
    case Launch(pid, run) =>
      if HasRoom(s)
      then SetActor(Take(s), pid, LegRunning(run, Taken(s))).(runs := s.runs[run := Run(Working, 0)])
      else SetActor(s, pid, LegWaiting(run)).(runs := s.runs[run := Run(Queued, 0)])
    case WaitTakes(pid) => SetActor(Take(s), pid, LegChecking(s.actors[pid].run, Taken(s)))
    case WaitGivesUp(pid) =>
      var run := s.actors[pid].run;
      SetActor(CloseDone(if s.runs[run].state.Queued? then SetState(s, run, Canceled) else s, run), pid, LegEnded(run))
    case Recheck(pid) =>
      var a := s.actors[pid];
      if s.runs[a.run].state.Queued?
      then SetActor(SetState(s, a.run, Working), pid, LegRunning(a.run, a.slot))
      else SetActor(s, pid, LegDropping(a.run, a.slot))
    case Drop(pid) => SetActor(Give(s, s.actors[pid].slot), pid, LegClosing(s.actors[pid].run))
    case CloseDropped(pid) => SetActor(CloseDone(s, s.actors[pid].run), pid, LegEnded(s.actors[pid].run))
    case ExecReturns(pid, st) =>
      var a := s.actors[pid];
      SetActor(CloseDone(SetState(s, a.run, st), a.run), pid, LegReleasing(a.run, a.slot))
    case Release(pid) => SetActor(Give(s, s.actors[pid].slot), pid, LegEnded(s.actors[pid].run))
    case Cancel(run) => if s.runs[run].state.Stopped? then s else SetState(s, run, Canceled)
    case DrainBegins(pid) => SetActor(s, pid, DrainIdle)
    case DrainTakes(pid) => SetActor(Take(s), pid, DrainClaiming(Taken(s)))
    case DrainStops(pid) => SetActor(s, pid, DrainOver)
    case ClaimFails(pid) => SetActor(Give(s, s.actors[pid].slot), pid, DrainOver)
    case ClaimUnusable(pid) => SetActor(Give(s, s.actors[pid].slot), pid, DrainIdle)
    case ClaimRuns(pid, leg, run) =>
      var slot := s.actors[pid].slot;
      SetActor(SetActor(s, pid, DrainIdle), leg, LegRunning(run, slot)).(runs := s.runs[run := Run(Working, 0)])
    case SyncBegins(pid) => SetActor(s, pid, SyncWaiting)
    case SyncTakes(pid) => SetActor(Take(s), pid, SyncRunning(Taken(s)))
    case SyncSheds(pid) => SetActor(s, pid, SyncEnded)
    case SyncReturns(pid) => SetActor(Give(s, s.actors[pid].slot), pid, SyncEnded)
  }

  ghost predicate Init(s: State) {
    s.tokens == 0 && s.next == 0 && s.returned == [] && s.actors == map[] && s.runs == map[]
    && (s.cap.Some? ==> s.cap.value > 0)
  }

  ghost predicate Reaches(s: State, es: seq<Event>, t: State)
    decreases |es|
  {
    if es == [] then s == t
    else Enabled(s, es[0]) && Reaches(Apply(s, es[0]), es[1..], t)
  }

  ghost predicate Reachable(s: State) {
    exists s0: State, es: seq<Event> :: Init(s0) && Reaches(s0, es, s)
  }

  // ------------------------------------------------------------ the invariant

  ghost predicate Holding(actors: map<nat, Actor>, t: nat) {
    exists p :: p in actors && SlotOf(actors[p]) == Some(t)
  }

  /** The actors that still owe a release. */
  ghost function Holders(actors: map<nat, Actor>): set<nat> {
    set p | p in actors && SlotOf(actors[p]).Some?
  }

  /** Every slot handed out is owed by exactly one actor or was given back exactly once. */
  ghost predicate SlotsOk(s: State) {
    && (s.cap.None? ==> s.tokens == 0 && s.next == 0)
    && (s.cap.Some? ==> s.tokens <= s.cap.value)
    && s.tokens == |Holders(s.actors)|
    && (forall p :: p in s.actors && SlotOf(s.actors[p]).Some? ==> SlotOf(s.actors[p]).value < s.next)
    && (forall p, q :: p in s.actors && q in s.actors && p != q && SlotOf(s.actors[p]).Some? ==>
          SlotOf(s.actors[p]) != SlotOf(s.actors[q]))
    && (forall i :: 0 <= i < |s.returned| ==> s.returned[i] < s.next && !Holding(s.actors, s.returned[i]))
    && (forall i, j :: 0 <= i < j < |s.returned| ==> s.returned[i] != s.returned[j])
    && (forall t: nat :: t < s.next ==> Holding(s.actors, t) || t in s.returned)
  }

  /** A run has at most one live leg; its done channel is open exactly while it has one. */
  ghost predicate LegsOk(s: State) {
    && (forall p :: p in s.actors && LiveLeg(s.actors[p]).Some? ==> LiveLeg(s.actors[p]).value in s.runs)
    && (forall p, q :: p in s.actors && q in s.actors && p != q && LiveLeg(s.actors[p]).Some? ==>
          LiveLeg(s.actors[p]) != LiveLeg(s.actors[q]))
    && (forall r :: r in s.runs ==> s.runs[r].closes == if Free(s, r) then 1 else 0)
  }

  function Slot(actors: map<nat, Actor>, pid: nat): Option<nat> {
    if pid in actors then SlotOf(actors[pid]) else None
  }

  function Leg(actors: map<nat, Actor>, pid: nat): Option<nat> {
    if pid in actors then LiveLeg(actors[pid]) else None
  }

  // ------------------------------------------------------------ what a step does to the slots

  /** Slot bookkeeping other than which actor owes which slot. */
  predicate SameCounters(s: State, t: State) {
    t.cap == s.cap && t.tokens == s.tokens && t.next == s.next && t.returned == s.returned
  }

  /** Only `pid` moves and its obligation stays what it was. */
  lemma KeepSlot(s: State, t: State, pid: nat, a: Actor)
    requires SlotsOk(s) && SlotOf(a) == Slot(s.actors, pid)
    requires t.actors == s.actors[pid := a] && SameCounters(s, t)
    ensures SlotsOk(t)
  {
    assert Holders(t.actors) == Holders(s.actors);
    forall k: nat | Holding(s.actors, k) ensures Holding(t.actors, k) {
      var p :| p in s.actors && SlotOf(s.actors[p]) == Some(k);
      assert p in t.actors && SlotOf(t.actors[p]) == Some(k);
    }
    forall k: nat | Holding(t.actors, k) ensures Holding(s.actors, k) {
      var p :| p in t.actors && SlotOf(t.actors[p]) == Some(k);
      assert p in s.actors && SlotOf(s.actors[p]) == Some(k);
    }
  }

  lemma HoldingMore(s: map<nat, Actor>, pid: nat, a: Actor, t: nat)
    requires Slot(s, pid).None? && SlotOf(a) == Some(t)
    ensures forall k: nat :: Holding(s[pid := a], k) == (Holding(s, k) || k == t)
    ensures |Holders(s[pid := a])| == |Holders(s)| + 1
  {
    var u := s[pid := a];
    assert Holders(u) == Holders(s) + {pid};
    assert pid in u && SlotOf(u[pid]) == Some(t);
    forall k: nat | Holding(s, k) ensures Holding(u, k) {
      var p :| p in s && SlotOf(s[p]) == Some(k);
      assert p in u && SlotOf(u[p]) == Some(k);
    }
    forall k: nat | Holding(u, k) && k != t ensures Holding(s, k) {
      var p :| p in u && SlotOf(u[p]) == Some(k);
      assert p in s && SlotOf(s[p]) == Some(k);
    }
  }

  /** `pid` takes a slot. */
  lemma TakeSlot(s: State, t: State, pid: nat, a: Actor)
    requires SlotsOk(s) && HasRoom(s) && Slot(s.actors, pid).None? && SlotOf(a) == Taken(s)
    requires t.actors == s.actors[pid := a]
    requires t.cap == s.cap && t.tokens == Take(s).tokens && t.next == Take(s).next && t.returned == s.returned
    ensures SlotsOk(t)
  {
    if s.cap.None? {
      KeepSlot(s, t, pid, a);
    } else {
      HoldingMore(s.actors, pid, a, s.next);
      hide Holding, Holders;
      forall k: nat | k < t.next ensures Holding(t.actors, k) || k in t.returned {
        assert Holding(s.actors[pid := a], k) == (Holding(s.actors, k) || k == s.next);
        assert k < s.next ==> Holding(s.actors, k) || k in s.returned;
      }
      forall i | 0 <= i < |t.returned| ensures t.returned[i] < t.next && !Holding(t.actors, t.returned[i]) {
        assert t.returned[i] == s.returned[i] && !Holding(s.actors, s.returned[i]);
      }
    }
  }

  lemma HoldingLess(s: map<nat, Actor>, pid: nat, a: Actor, t: nat)
    requires pid in s && SlotOf(s[pid]) == Some(t) && SlotOf(a).None?
    requires forall p, q :: p in s && q in s && p != q && SlotOf(s[p]).Some? ==> SlotOf(s[p]) != SlotOf(s[q])
    ensures Holding(s, t) && forall k: nat :: Holding(s[pid := a], k) == (Holding(s, k) && k != t)
    ensures |Holders(s[pid := a])| == |Holders(s)| - 1
  {
    var u := s[pid := a];
    assert pid in Holders(s);
    assert Holders(u) == Holders(s) - {pid};
    forall k: nat | Holding(s, k) && k != t ensures Holding(u, k) {
      var p :| p in s && SlotOf(s[p]) == Some(k);
      assert SlotOf(u[p]) == Some(k);
    }
    forall k: nat | Holding(u, k) ensures Holding(s, k) && k != t {
      var p :| p in u && SlotOf(u[p]) == Some(k);
      assert p in s && SlotOf(s[p]) == Some(k);
    }
  }

  /** An actor with an obligation never finds the channel empty. */
  lemma HolderCanGive(s: State, pid: nat)
    requires SlotsOk(s) && pid in s.actors
    ensures CanGive(s, SlotOf(s.actors[pid]))
  {
    if SlotOf(s.actors[pid]).Some? { assert pid in Holders(s.actors); }
  }

  /** `pid` gives its slot back. */
  lemma GiveSlot(s: State, t: State, pid: nat, a: Actor)
    requires SlotsOk(s) && pid in s.actors && SlotOf(a).None? && CanGive(s, SlotOf(s.actors[pid]))
    requires t.actors == s.actors[pid := a]
    requires var g := Give(s, SlotOf(s.actors[pid]));
      t.cap == s.cap && t.tokens == g.tokens && t.next == s.next && t.returned == g.returned
    ensures SlotsOk(t)
  {
    var slot := SlotOf(s.actors[pid]);
    if slot.None? {
      KeepSlot(s, t, pid, a);
    } else {
      HoldingLess(s.actors, pid, a, slot.value);
      hide Holding, Holders;
      assert t.returned[|s.returned|] == slot.value;
      forall k: nat | k < t.next ensures Holding(t.actors, k) || k in t.returned {
        assert Holding(s.actors, k) || k in s.returned;
      }
    }
  }

  lemma MovedHolding(s: map<nat, Actor>, t: map<nat, Actor>, pid: nat, leg: nat, a: Actor, b: Actor)
    requires pid in s && leg !in s && SlotOf(a).None? && SlotOf(b) == SlotOf(s[pid]) && t == s[pid := a][leg := b]
    ensures forall k: nat :: Holding(s, k) == Holding(t, k)
    ensures |Holders(t)| == |Holders(s)|
  {
    if SlotOf(b).Some? {
      assert pid in Holders(s);
      assert Holders(t) == Holders(s) - {pid} + {leg};
    } else {
      assert Holders(t) == Holders(s);
    }
    forall k: nat | Holding(s, k) ensures Holding(t, k) {
      var p :| p in s && SlotOf(s[p]) == Some(k);
      var q := if p == pid then leg else p;
      assert q in t && SlotOf(t[q]) == Some(k);
    }
    forall k: nat | Holding(t, k) ensures Holding(s, k) {
      var p :| p in t && SlotOf(t[p]) == Some(k);
      var q := if p == leg then pid else p;
      assert q in s && SlotOf(s[q]) == Some(k);
    }
  }

  /** The claim drain hands its slot to the leg it starts. */
  lemma MoveSlot(s: State, t: State, pid: nat, leg: nat, a: Actor, b: Actor)
    requires SlotsOk(s) && pid in s.actors && leg !in s.actors && SlotOf(a).None? && SlotOf(b) == SlotOf(s.actors[pid])
    requires t.actors == s.actors[pid := a][leg := b] && SameCounters(s, t)
    ensures SlotsOk(t)
  {
    MovedHolding(s.actors, t.actors, pid, leg, a, b);
    forall p, q | p in t.actors && q in t.actors && p != q && SlotOf(t.actors[p]).Some?
      ensures SlotOf(t.actors[p]) != SlotOf(t.actors[q])
    {
      var p0, q0 := if p == leg then pid else p, if q == leg then pid else q;
      if p != pid && q != pid { assert SlotOf(s.actors[p0]) != SlotOf(s.actors[q0]); }
    }
  }

  predicate Takes(e: Event) { e.WaitTakes? || e.DrainTakes? || e.SyncTakes? }

  predicate Gives(e: Event) { e.Drop? || e.Release? || e.ClaimFails? || e.ClaimUnusable? || e.SyncReturns? }

  lemma TakesKeep(s: State, e: Event)
    requires SlotsOk(s) && Enabled(s, e) && Takes(e)
    ensures SlotsOk(Apply(s, e))
  {
    hide SlotsOk;
    TakeSlot(s, Apply(s, e), e.pid, Apply(s, e).actors[e.pid]);
  }

  lemma GivesKeep(s: State, e: Event)
    requires SlotsOk(s) && Enabled(s, e) && Gives(e)
    ensures SlotsOk(Apply(s, e))
  {
    hide SlotsOk;
    GiveSlot(s, Apply(s, e), e.pid, Apply(s, e).actors[e.pid]);
  }

  lemma OthersKeep(s: State, e: Event)
    requires SlotsOk(s) && Enabled(s, e) && !Takes(e) && !Gives(e) && !e.Launch? && !e.ClaimRuns? && !e.Cancel?
    ensures SlotsOk(Apply(s, e))
  {
    hide SlotsOk;
    KeepSlot(s, Apply(s, e), e.pid, Apply(s, e).actors[e.pid]);
  }

  lemma LaunchKeeps(s: State, e: Event)
    requires SlotsOk(s) && Enabled(s, e) && e.Launch?
    ensures SlotsOk(Apply(s, e))
  {
    hide SlotsOk;
    var t := Apply(s, e);
    if HasRoom(s) { TakeSlot(s, t, e.pid, t.actors[e.pid]); } else { KeepSlot(s, t, e.pid, t.actors[e.pid]); }
  }

  lemma ApplyKeepsSlots(s: State, e: Event)
    requires SlotsOk(s) && Enabled(s, e)
    ensures SlotsOk(Apply(s, e))
  {
    if Takes(e) { TakesKeep(s, e); }
    else if Gives(e) { GivesKeep(s, e); }
    else if e.Launch? { LaunchKeeps(s, e); }
    else if e.ClaimRuns? { MoveSlot(s, Apply(s, e), e.pid, e.leg, DrainIdle, LegRunning(e.run, s.actors[e.pid].slot)); }
    else if e.Cancel? { assert Apply(s, e).actors == s.actors; }
    else { OthersKeep(s, e); }
  }

  // ------------------------------------------------------------ what a step does to the legs

  /** Only `pid` moves, on the same live leg or on none, and no channel is closed. */
  lemma KeepLeg(s: State, t: State, pid: nat, a: Actor)
    requires LegsOk(s) && LiveLeg(a) == Leg(s.actors, pid) && t.actors == s.actors[pid := a]
    requires t.runs.Keys == s.runs.Keys && forall r :: r in s.runs ==> t.runs[r].closes == s.runs[r].closes
    ensures LegsOk(t)
  {
    forall r: nat ensures Free(s, r) == Free(t, r) {
      if Free(s, r) {
        forall p | p in t.actors ensures LiveLeg(t.actors[p]) != Some(r) {
          assert p in s.actors ==> LiveLeg(s.actors[p]) != Some(r);
        }
      }
      if Free(t, r) {
        forall p | p in s.actors ensures LiveLeg(s.actors[p]) != Some(r) { assert LiveLeg(t.actors[p]) != Some(r); }
      }
    }
  }

  /** A leg begins on a run that has none. */
  lemma BeginLeg(s: State, t: State, pid: nat, a: Actor, run: nat, st: RunState)
    requires LegsOk(s) && pid !in s.actors && Free(s, run) && LiveLeg(a) == Some(run)
    requires t.actors == s.actors[pid := a] && t.runs == s.runs[run := Run(st, 0)]
    ensures LegsOk(t)
  {
    assert LiveLeg(t.actors[pid]) == Some(run);
    assert !Free(t, run);
    forall r: nat | r != run ensures Free(s, r) == Free(t, r) {
      if Free(t, r) {
        forall p | p in s.actors ensures LiveLeg(s.actors[p]) != Some(r) { assert LiveLeg(t.actors[p]) != Some(r); }
      }
    }
  }

  /** A leg closes its done channel and is no longer live. */
  lemma EndLeg(s: State, t: State, pid: nat, a: Actor, run: nat)
    requires LegsOk(s) && pid in s.actors && LiveLeg(s.actors[pid]) == Some(run) && LiveLeg(a).None?
    requires t.actors == s.actors[pid := a] && t.runs.Keys == s.runs.Keys
    requires forall r :: r in s.runs ==> t.runs[r].closes == s.runs[r].closes + if r == run then 1 else 0
    ensures LegsOk(t)
  {
    assert !Free(s, run);
    assert Free(t, run);
    forall r: nat | r != run ensures Free(s, r) == Free(t, r) {
      if Free(t, r) {
        forall p | p in s.actors ensures LiveLeg(s.actors[p]) != Some(r) {
          assert p != pid ==> LiveLeg(t.actors[p]) != Some(r);
        }
      }
    }
  }

  lemma ClaimRunsKeepsLegs(s: State, e: Event)
    requires LegsOk(s) && Enabled(s, e) && e.ClaimRuns?
    ensures LegsOk(Apply(s, e))
  {
    var u := SetActor(s, e.pid, DrainIdle);
    KeepLeg(s, u, e.pid, DrainIdle);
    forall p | p in u.actors ensures LiveLeg(u.actors[p]) != Some(e.run) {
      assert p in s.actors && (p != e.pid ==> LiveLeg(s.actors[p]) != Some(e.run));
    }
    BeginLeg(u, Apply(s, e), e.leg, LegRunning(e.run, s.actors[e.pid].slot), e.run, Working);
  }

  lemma LaunchKeepsLegs(s: State, e: Event)
    requires LegsOk(s) && Enabled(s, e) && e.Launch?
    ensures LegsOk(Apply(s, e))
  {
    var t := Apply(s, e);
    hide LegsOk;
    BeginLeg(s, t, e.pid, t.actors[e.pid], e.run, if HasRoom(s) then Working else Queued);
  }

  predicate Ends(e: Event) { e.WaitGivesUp? || e.CloseDropped? || e.ExecReturns? }

  lemma EndsKeepLegs(s: State, e: Event)
    requires LegsOk(s) && Enabled(s, e) && Ends(e)
    ensures LegsOk(Apply(s, e))
  {
    var t := Apply(s, e);
    hide LegsOk;
    EndLeg(s, t, e.pid, t.actors[e.pid], s.actors[e.pid].run);
  }

  lemma CancelKeepsLegs(s: State, e: Event)
    requires LegsOk(s) && Enabled(s, e) && e.Cancel?
    ensures LegsOk(Apply(s, e))
  {
    var t := Apply(s, e);
    assert t.actors == s.actors;
    assert forall r: nat :: Free(s, r) == Free(t, r);
  }

  lemma OthersMove(s: State, e: Event)
    requires Enabled(s, e) && !e.Launch? && !e.ClaimRuns? && !e.Cancel? && !Ends(e)
    ensures var t := Apply(s, e);
      && e.pid in t.actors && t.actors == s.actors[e.pid := t.actors[e.pid]]
      && LiveLeg(t.actors[e.pid]) == Leg(s.actors, e.pid)
      && t.runs.Keys == s.runs.Keys && forall r :: r in s.runs ==> t.runs[r].closes == s.runs[r].closes
  {
  }

  lemma OthersKeepLegs(s: State, e: Event)
    requires LegsOk(s) && Enabled(s, e) && !e.Launch? && !e.ClaimRuns? && !e.Cancel? && !Ends(e)
    ensures LegsOk(Apply(s, e))
  {
    var t := Apply(s, e);
    OthersMove(s, e);
    hide LegsOk, Free, Apply, Enabled, LiveLeg, Leg;
    KeepLeg(s, t, e.pid, t.actors[e.pid]);
  }

  lemma ApplyKeepsLegs(s: State, e: Event)
    requires LegsOk(s) && Enabled(s, e)
    ensures LegsOk(Apply(s, e))
  {
    hide LegsOk, Enabled, Apply;
    if e.Launch? { LaunchKeepsLegs(s, e); }
    else if e.ClaimRuns? { ClaimRunsKeepsLegs(s, e); }
    else if e.Cancel? { CancelKeepsLegs(s, e); }
    else if Ends(e) { EndsKeepLegs(s, e); }
    else { OthersKeepLegs(s, e); }
  }

  lemma {:induction false} RunKeeps(s: State, es: seq<Event>, t: State)
    requires SlotsOk(s) && LegsOk(s) && Reaches(s, es, t)
    ensures SlotsOk(t) && LegsOk(t)
    decreases |es|
  {
    if es == [] {
    } else {
      ApplyKeepsSlots(s, es[0]);
      ApplyKeepsLegs(s, es[0]);
      RunKeeps(Apply(s, es[0]), es[1..], t);
    }
  }

  lemma ReachableOk(s: State)
    requires Reachable(s)
    ensures SlotsOk(s) && LegsOk(s)
  {
    var s0: State, es :| Init(s0) && Reaches(s0, es, s);
    assert Holders(s0.actors) == {};
    RunKeeps(s0, es, s);
  }

  // ------------------------------------------------------------ the guarantees

  /** The tokens in the channel are the releases still owed, and never more than the cap. */
  lemma TokensAreObligations(s: State)
    requires Reachable(s)
    ensures s.tokens == |Holders(s.actors)|
    ensures s.cap.Some? ==> s.tokens <= s.cap.value
    ensures s.cap.None? ==> Holders(s.actors) == {}
  {
    ReachableOk(s);
  }

  /** A release never blocks, whichever exit path it is on. */
  lemma ReleaseNeverBlocks(s: State, pid: nat)
    requires Reachable(s) && pid in s.actors
    ensures s.actors[pid].LegDropping? ==> Enabled(s, Drop(pid))
    ensures s.actors[pid].LegReleasing? ==> Enabled(s, Release(pid))
    ensures s.actors[pid].DrainClaiming? ==> Enabled(s, ClaimFails(pid)) && Enabled(s, ClaimUnusable(pid))
    ensures s.actors[pid].SyncRunning? ==> Enabled(s, SyncReturns(pid))
  {
    ReachableOk(s);
    HolderCanGive(s, pid);
  }

  predicate AtRest(a: Actor) { a.LegEnded? || a.DrainIdle? || a.DrainOver? || a.SyncWaiting? || a.SyncEnded? }

  lemma RestHoldsNothing(actors: map<nat, Actor>, t: nat)
    requires forall p :: p in actors ==> AtRest(actors[p])
    ensures Holders(actors) == {} && !Holding(actors, t)
  {
    assert forall p :: p in actors ==> SlotOf(actors[p]).None?;
  }

  lemma SlotAccount(s: State, t: nat)
    requires SlotsOk(s) && t < s.next
    ensures t in s.returned <==> !Holding(s.actors, t)
    ensures s.tokens == |Holders(s.actors)|
    ensures forall i, j :: 0 <= i < j < |s.returned| ==> s.returned[i] != s.returned[j]
  {
    hide SlotOf;
  }

  /** Each slot is given back at most once, and once every actor is at rest exactly once. */
  lemma ReleasedExactlyOnce(s: State, t: nat)
    requires Reachable(s) && t < s.next
    ensures multiset(s.returned)[t] == if Holding(s.actors, t) then 0 else 1
    ensures (forall p :: p in s.actors ==> AtRest(s.actors[p])) ==> multiset(s.returned)[t] == 1 && s.tokens == 0
  {
    hide SlotsOk, LegsOk, AtRest, Holders, Holding;
    ReachableOk(s);
    SlotAccount(s, t);
    CountDistinct(s.returned, t);
    if forall p :: p in s.actors ==> AtRest(s.actors[p]) { RestHoldsNothing(s.actors, t); }
  }

  lemma {:induction false} CountDistinct(xs: seq<nat>, x: nat)
    requires forall i, j :: 0 <= i < j < |xs| ==> xs[i] != xs[j]
    ensures multiset(xs)[x] == if x in xs then 1 else 0
  {
    if xs == [] {
    } else {
      assert xs == [xs[0]] + xs[1..];
      CountDistinct(xs[1..], x);
    }
  }

  /** Whoever waits for a slot can take one exactly if fewer releases are owed than the cap, or there is no cap. */
  lemma SlotFreeIff(s: State, pid: nat)
    requires Reachable(s) && pid in s.actors
    ensures var free := s.cap.None? || |Holders(s.actors)| < s.cap.value;
      && (s.actors[pid].LegWaiting? ==> (Enabled(s, WaitTakes(pid)) <==> free))
      && (s.actors[pid].DrainIdle? ==> (Enabled(s, DrainTakes(pid)) <==> free))
      && (s.actors[pid].SyncWaiting? ==> (Enabled(s, SyncTakes(pid)) <==> free))
  {
    ReachableOk(s);
  }

  /** A launched leg runs at once exactly if a slot is free, and then owes it; otherwise it waits, queued. */
  lemma LaunchRunsIff(s: State, pid: nat, run: nat)
    requires Reachable(s) && Enabled(s, Launch(pid, run))
    ensures var t := Apply(s, Launch(pid, run));
      if s.cap.None? || |Holders(s.actors)| < s.cap.value
      then t.actors[pid].LegRunning? && t.actors[pid].run == run && t.runs[run].state == Working
        && (s.cap.Some? <==> t.actors[pid].slot.Some?) && t.tokens == s.tokens + (if s.cap.Some? then 1 else 0)
      else t.actors[pid] == LegWaiting(run) && t.runs[run].state == Queued && t.tokens == s.tokens
  {
    ReachableOk(s);
  }

  /** A leg that got its slot runs exactly if its run is still queued; a run canceled meanwhile is not started. */
  lemma RecheckRunsIff(s: State, pid: nat)
    requires Enabled(s, Recheck(pid))
    ensures var a, t := s.actors[pid], Apply(s, Recheck(pid));
      && (t.actors[pid].LegRunning? <==> s.runs[a.run].state == Queued)
      && (t.actors[pid].LegRunning? ==> t.actors[pid] == LegRunning(a.run, a.slot) && t.runs[a.run].state == Working)
      && (!t.actors[pid].LegRunning? ==> t.actors[pid] == LegDropping(a.run, a.slot) && t.runs == s.runs)
  {
  }

  /** A leg that gives up waiting leaves its run canceled, unless the run has left the queue by other means. */
  lemma GivingUpCancels(s: State, pid: nat)
    requires Enabled(s, WaitGivesUp(pid))
    ensures var run, t := s.actors[pid].run, Apply(s, WaitGivesUp(pid));
      && t.runs[run].state == (if s.runs[run].state == Queued then Canceled else s.runs[run].state)
      && t.actors[pid] == LegEnded(run) && t.tokens == s.tokens
  {
  }

  /** A run that is executed ends in the state it returned with, and its slot is owed until it is released. */
  lemma ReturnsState(s: State, pid: nat, st: RunState)
    requires Enabled(s, ExecReturns(pid, st))
    ensures var a, t := s.actors[pid], Apply(s, ExecReturns(pid, st));
      t.runs[a.run].state == st && t.actors[pid] == LegReleasing(a.run, a.slot) && t.tokens == s.tokens
  {
  }

  /** A cancel request cancels every run that has not stopped, and touches nothing else. */
  lemma CancelCancels(s: State, run: nat)
    requires Enabled(s, Cancel(run))
    ensures var t := Apply(s, Cancel(run));
      && t.actors == s.actors && t.tokens == s.tokens && t.runs.Keys == s.runs.Keys
      && t.runs[run] == Run(if s.runs[run].state == Stopped then Stopped else Canceled, s.runs[run].closes)
      && forall other :: other in s.runs && other != run ==> t.runs[other] == s.runs[other]
  {
  }

  /** A leg's done channel is open while the leg is live and closed exactly once by its end. */
  lemma DoneClosedOnce(s: State, run: nat)
    requires Reachable(s) && run in s.runs
    ensures s.runs[run].closes == if Free(s, run) then 1 else 0
  {
    ReachableOk(s);
  }
}
