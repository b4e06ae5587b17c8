/**
 reconcileRuns as it runs (internal/mcpserver/claim.go): one scan, one cut-off, and for every stale
 record a peek at its lease, a second read and a swap, with other replicas acting before each store
 call. Record k of the scan is call first + k of the Intake machine and only moves along its steps.
*/
module Reconcile {
  import opened Intake
  import opened IntakeKV
  import opened Options

  function CallAt(scan: seq<Candidate>, j: nat, k: nat, c: Call): Call
    requires j < |scan|
  {
    if j < k then Finished else if j == k then c else Scanned(scan[j].id, scan[j].rec)
  }

  /**
   The records before k are over, record k is at this program point, the later ones wait to be judged, and that is all.
  */
  ghost predicate Acting(mine: map<nat, Call>, first: nat, scan: seq<Candidate>, k: nat, c: Call) {
    && (forall p :: p in mine <==> first <= p < first + |scan|)
    && (forall p :: p in mine ==> mine[p] == CallAt(scan, p - first, k, c))
  }

  /** The first done records are over and the others wait to be judged. */
  ghost predicate Waiting(mine: map<nat, Call>, first: nat, scan: seq<Candidate>, done: nat) {
    Acting(mine, first, scan, done, if done < |scan| then Scanned(scan[done].id, scan[done].rec) else Finished)
  }

  lemma NextFree(s: State, first: nat, scan: seq<Candidate>)
    requires Waiting(Mine(s, first), first, scan, 0)
    ensures first + |scan| !in s.calls
  {
    assert first + |scan| !in Mine(s, first);
  }

  lemma Scans(s: State, t: State, first: nat, scan: seq<Candidate>, c: Candidate)
    requires Waiting(Mine(s, first), first, scan, 0)
    requires t.calls == s.calls[first + |scan| := Scanned(c.id, c.rec)]
    ensures Waiting(Mine(t, first), first, scan + [c], 0)
  {
    var p := first + |scan|;
    assert Mine(t, first) == Mine(s, first)[p := Scanned(c.id, c.rec)];
    assert (scan + [c])[|scan|] == c;
  }

  lemma AllDone(s: State, first: nat, scan: seq<Candidate>)
    requires Waiting(Mine(s, first), first, scan, |scan|)
    ensures forall p :: p in s.calls && p >= first ==> s.calls[p].Finished?
  {
    forall p | p in s.calls && p >= first ensures s.calls[p].Finished? {
      assert p in Mine(s, first) && Mine(s, first)[p] == s.calls[p];
    }
  }

  lemma Stepped(s: State, t: State, first: nat, scan: seq<Candidate>, k: nat, c: Call)
    requires k < |scan| && Acting(Mine(s, first), first, scan, k, c)
    requires first + k in t.calls && t.calls == s.calls[first + k := t.calls[first + k]]
    ensures Acting(Mine(t, first), first, scan, k, t.calls[first + k])
  {
    assert Mine(t, first) == Mine(s, first)[first + k := t.calls[first + k]];
  }

  // ------------------------------------------------------------ what the pass is for

  /**
   Which store calls of the pass fail is not for it to choose; of a failed swap it is not known whether it applied.
  */
  datatype Faults = Faults(list: bool, read: set<Id>, peek: set<Id>, get: set<Id>, swap: set<Id>)

  predicate Spares(f: Faults, id: Id) { id !in f.read && id !in f.peek && id !in f.get && id !in f.swap }

  /** A live run by its record, silent since before the cut-off. */
  predicate Silent(rec: Status, cut: Time, staleAfter: Time) {
    && (rec.state == Claimed || rec.state == Working || rec.state == Paused)
    && rec.updatedAt != 0 && rec.updatedAt <= cut - staleAfter
  }

  /** This write turned the run back: pending, nobody's, stamped no later than now, and otherwise as it was recorded. */
  predicate TurnsBack(e: Entry, id: Id, rec: Status, now: Time) {
    && e.id == id && e.source == Reconciling
    && e.after.Some? && e.after.value == Status(Pending, "", rec.startedAt, e.after.value.updatedAt, rec.rest)
    && 0 < e.after.value.updatedAt <= now
  }

  /** The log says so, since it was this long. */
  ghost predicate Returned(st: State, since: nat, id: Id, rec: Status) {
    exists i :: since <= i < |st.store.log| && TurnsBack(st.store.log[i], id, rec, st.clock)
  }

  /** The steps by which a trace grew. */
  function Steps(a: seq<Event>, b: seq<Event>): seq<Event> { if a <= b then b[|a|..] else [] }

  /** Nobody else writes the run's record along the way, and it never has an unexpired lease. */
  ghost predicate Undisturbed(s: State, es: seq<Event>, first: nat, id: Id) {
    Leaves(s, es, first, false, id) && Unleased(s, es, id)
  }

  lemma UndisturbedParts(s: State, es: seq<Event>, t: State, fs: seq<Event>, first: nat, id: Id)
    requires Reaches(s, es, t) && Undisturbed(s, es + fs, first, id)
    ensures Undisturbed(s, es, first, id) && Undisturbed(t, fs, first, id)
  {
    LeavesJoined(s, es, t, fs, first, false, id);
    UnleasedJoined(s, es, t, fs, id);
  }

  /** The same for the stretches between three points of a trace. */
  lemma UndisturbedSince(
    s: State, t: State, u: State, a: seq<Event>, b: seq<Event>, c: seq<Event>, first: nat, r: Role, q: Role, id: Id)
    requires Progress(s, t, a, b, first, r) && Progress(t, u, b, c, first, q) && Undisturbed(s, Steps(a, c), first, id)
    ensures Undisturbed(s, Steps(a, b), first, id) && Undisturbed(t, Steps(b, c), first, id)
  {
    hide Reaches, Leaves, Undisturbed, Plays;
    assert Steps(a, c) == Steps(a, b) + Steps(b, c);
    UndisturbedParts(s, Steps(a, b), t, Steps(b, c), first, id);
  }

  /** Undisturbed, and not written by us either, the record is what it was and no lease is there. */
  lemma Lasts(s: State, t: State, a: seq<Event>, b: seq<Event>, first: nat, r: Role, id: Id)
    requires Progress(s, t, a, b, first, r) && !Allows(r, id) && Undisturbed(s, Steps(a, b), first, id)
    ensures Lookup(t.store.statuses, id) == Lookup(s.store.statuses, id) && !LeaseFresh(t, id)
  {
    hide Reaches, Leaves, Unleased, Plays;
    KeepsRecord(s, Steps(a, b), t, first, id);
    UnleasedAtEnd(s, Steps(a, b), t, id);
  }

  // ------------------------------------------------------------ the scan

  ghost predicate Distinct(scan: seq<Candidate>) {
    forall i, j :: 0 <= i < j < |scan| ==> scan[i].id != scan[j].id
  }

  /**
   Every run with a record at s that nobody else wrote since is in the scan with that record, or a key still to be
   read.
  */
  ghost predicate Covered(s: State, es: seq<Event>, first: nat, f: Faults, left: set<Id>, scan: seq<Candidate>) {
    forall id :: id in s.store.statuses && id !in f.read && id !in left && Leaves(s, es, first, false, id) ==>
      Candidate(id, s.store.statuses[id]) in scan
  }

  /** Reads every status record, one after the other. */
  method ListStatuses(kv: Shared, first: nat, f: Faults) returns (scan: seq<Candidate>)
    requires Inv(kv.st) && Mine(kv.st, first) == map[] && !f.list
    modifies kv
    ensures Inv(kv.st) && Waiting(Mine(kv.st, first), first, scan, 0) && Distinct(scan)
    ensures Progress(old(kv.st), kv.st, old(kv.trace), kv.trace, first, Scanner)
    ensures Covered(old(kv.st), Steps(old(kv.trace), kv.trace), first, f, {}, scan)
  {
    hide Inv, Progress, Leaves;
    NoProgress(kv.st, kv.trace, first, Scanner);
    scan := [];
    ghost var s, a := kv.st, kv.trace;
    var left := kv.st.store.statuses.Keys;
    hide Mine, Acting;
    while left != {}
      invariant Inv(kv.st) && Waiting(Mine(kv.st, first), first, scan, 0) && Distinct(scan)
      invariant forall c :: c in scan ==> c.id !in left
      invariant Progress(s, kv.st, a, kv.trace, first, Scanner)
      invariant Covered(s, Steps(a, kv.trace), first, f, left, scan)
      decreases left
    {
      ghost var before, s0, a0 := scan, kv.st, kv.trace;
      var id :| id in left;
      kv.Others(first, Scanner);
      ghost var s1, a1 := kv.st, kv.trace;
      Onward(s, s0, s1, a, a0, a1, first, Scanner);
      if id in kv.st.store.statuses && id !in f.read {
        var pid := first + |scan|;
        NextFree(kv.st, first, scan);
        WritesNothing(kv.st, BeginReconcile(pid, id));
        kv.Step(BeginReconcile(pid, id), pid, first, Scanner);
        Onward(s, s1, kv.st, a, a1, kv.trace, first, Scanner);
        Scans(s1, kv.st, first, scan, Candidate(id, kv.st.calls[pid].rec));
        scan := scan + [Candidate(id, kv.st.calls[pid].rec)];
      } else {
        NoProgress(s1, a1, first, Scanner);
      }
      CoveredMore(s, s0, s1, kv.st, a, a0, a1, kv.trace, first, f, left, id, before, scan);
      left := left - {id};
    }
  }

  lemma WritesNothing(s: State, e: Event)
    requires Enabled(s, e)
    requires e.BeginReconcile? || e.Judge? || e.Peek? || e.Read? || e.StoreError?
    ensures forall id :: !WritesTo(s, e, id)
  {
  }

  lemma CoveredMore(
    s: State, s0: State, s1: State, t: State, a: seq<Event>, a0: seq<Event>, a1: seq<Event>, b: seq<Event>,
    first: nat, f: Faults, left: set<Id>, id: Id, before: seq<Candidate>, scan: seq<Candidate>)
    requires Progress(s, s0, a, a0, first, Scanner) && Progress(s, s1, a, a1, first, Scanner)
    requires Progress(s0, s1, a0, a1, first, Scanner) && Progress(s1, t, a1, b, first, Scanner)
    requires Covered(s, Steps(a, a0), first, f, left, before) && id in left
    requires if id in s1.store.statuses && id !in f.read
             then scan == before + [Candidate(id, s1.store.statuses[id])] else scan == before
    ensures Covered(s, Steps(a, b), first, f, left - {id}, scan)
  {
    hide Reaches, Leaves, Plays;
    forall x | x in s.store.statuses && x !in f.read && x !in left - {id} && Leaves(s, Steps(a, b), first, false, x)
      ensures Candidate(x, s.store.statuses[x]) in scan
    {
      assert Steps(a, b) == Steps(a, a1) + Steps(a1, b) && Steps(a, a1) == Steps(a, a0) + Steps(a0, a1);
      LeavesJoined(s, Steps(a, a1), s1, Steps(a1, b), first, false, x);
      LeavesJoined(s, Steps(a, a0), s0, Steps(a0, a1), first, false, x);
      if x == id {
        KeepsRecord(s, Steps(a, a1), s1, first, id);
        assert Candidate(x, s.store.statuses[x]) == scan[|scan| - 1];
      } else {
        assert Candidate(x, s.store.statuses[x]) in before;
      }
    }
  }

  // ------------------------------------------------------------ one record

  lemma ActsNext(s: State, first: nat, scan: seq<Candidate>, k: nat)
    requires k < |scan| && Waiting(Mine(s, first), first, scan, k)
    ensures Acting(Mine(s, first), first, scan, k, Scanned(scan[k].id, scan[k].rec))
    ensures first + k in s.calls && s.calls[first + k] == Scanned(scan[k].id, scan[k].rec)
  {
    assert first + k in Mine(s, first);
  }

  lemma InActing(s: State, first: nat, scan: seq<Candidate>, k: nat, c: Call)
    requires k < |scan| && Acting(Mine(s, first), first, scan, k, c)
    ensures first + k in s.calls && s.calls[first + k] == c
  {
    assert first + k in Mine(s, first);
  }

  lemma IsDone(s: State, first: nat, scan: seq<Candidate>, k: nat)
    requires k < |scan| && Acting(Mine(s, first), first, scan, k, Finished)
    ensures Waiting(Mine(s, first), first, scan, k + 1)
  {
  }

  /** The next step of record k. */
  method TakeStep(kv: Shared, first: nat, ghost scan: seq<Candidate>, k: nat, ghost c: Call, e: Event, ghost role: Role)
    requires Inv(kv.st) && k < |scan| && Acting(Mine(kv.st, first), first, scan, k, c)
    requires Enabled(kv.st, e) && PidOf(e) == Some(first + k) && Plays(role, e)
    requires forall id :: WritesTo(kv.st, e, id) ==> Allows(role, id)
    modifies kv
    ensures Inv(kv.st) && kv.st == Apply(old(kv.st), e) && kv.st.clock == old(kv.st.clock)
    ensures Progress(old(kv.st), kv.st, old(kv.trace), kv.trace, first, role)
    ensures first + k in kv.st.calls && Acting(Mine(kv.st, first), first, scan, k, kv.st.calls[first + k])
  {
    hide Inv, Progress, WritesTo, Allows;
    ghost var s := kv.st;
    kv.Step(e, first + k, first, role);
    Stepped(s, kv.st, first, scan, k, c);
  }

  /** The state and the cut-off of the record that the scan read. */
  method JudgeOne(kv: Shared, first: nat, scan: seq<Candidate>, k: nat, at: Time) returns (stale: bool)
    requires Inv(kv.st) && k < |scan| && Waiting(Mine(kv.st, first), first, scan, k) && Reading(kv.st, at)
    modifies kv
    ensures Inv(kv.st) && Progress(old(kv.st), kv.st, old(kv.trace), kv.trace, first, Reconciler(at, {}))
    ensures stale <==> Silent(scan[k].rec, at, old(kv.st).staleAfter)
    ensures Acting(Mine(kv.st, first), first, scan, k, if stale then Stale(scan[k].id, scan[k].rec) else Finished)
  {
    hide Inv, Acting, Mine, Progress;
    var rec := scan[k].rec;
    ActsNext(kv.st, first, scan, k);
    WritesNothing(kv.st, Judge(first + k, at));
    TakeStep(kv, first, scan, k, Scanned(scan[k].id, rec), Judge(first + k, at), Reconciler(at, {}));
    match rec.state {
      case Claimed => stale := true;
      case Working => stale := true;
      case Paused => stale := true;
      case _ => stale := false;
    }
    if rec.updatedAt == 0 || rec.updatedAt > at - kv.st.staleAfter { stale := false; }
  }

  /** peek: is a lease record there, and unexpired? */
  method PeekOne(kv: Shared, first: nat, scan: seq<Candidate>, k: nat, err: bool, ghost cut: Time) returns (alive: bool)
    requires Inv(kv.st) && k < |scan| && Acting(Mine(kv.st, first), first, scan, k, Stale(scan[k].id, scan[k].rec))
    modifies kv
    ensures Inv(kv.st) && Progress(old(kv.st), kv.st, old(kv.trace), kv.trace, first, Reconciler(cut, {}))
    ensures !err ==> (alive <==> scan[k].id in kv.st.leases && kv.st.clock < kv.st.leases[scan[k].id])
    ensures Acting(Mine(kv.st, first), first, scan, k,
        if err || alive then Finished else LeaseGone(scan[k].id, scan[k].rec))
  {
    hide Inv, Acting, Mine, Progress;
    var c := Stale(scan[k].id, scan[k].rec);
    ghost var role := Reconciler(cut, {});
    kv.Others(first, role);
    ghost var s1, a1 := kv.st, kv.trace;
    InActing(kv.st, first, scan, k, c);
    alive := scan[k].id in kv.st.leases && kv.st.clock < kv.st.leases[scan[k].id];
    var e := if err then StoreError(first + k) else Peek(first + k);
    WritesNothing(kv.st, e);
    TakeStep(kv, first, scan, k, c, e, role);
    Onward(old(kv.st), s1, kv.st, old(kv.trace), a1, kv.trace, first, role);
  }

  /** The second read of the status key. */
  method GetOne(kv: Shared, first: nat, scan: seq<Candidate>, k: nat, err: bool, ghost cut: Time)
      returns (raw: Option<Status>)
    requires Inv(kv.st) && k < |scan| && Acting(Mine(kv.st, first), first, scan, k, LeaseGone(scan[k].id, scan[k].rec))
    modifies kv
    ensures Inv(kv.st) && Progress(old(kv.st), kv.st, old(kv.trace), kv.trace, first, Reconciler(cut, {}))
    ensures !err ==> raw == Lookup(kv.st.store.statuses, scan[k].id)
    ensures Acting(Mine(kv.st, first), first, scan, k,
                   if err || raw.None? then Finished else Reread(scan[k].id, scan[k].rec, raw.value))
  {
    hide Inv, Acting, Mine, Progress;
    var c := LeaseGone(scan[k].id, scan[k].rec);
    ghost var role := Reconciler(cut, {});
    kv.Others(first, role);
    ghost var s1, a1 := kv.st, kv.trace;
    InActing(kv.st, first, scan, k, c);
    raw := Lookup(kv.st.store.statuses, scan[k].id);
    var e := if err then StoreError(first + k) else Read(first + k);
    WritesNothing(kv.st, e);
    TakeStep(kv, first, scan, k, c, e, role);
    Onward(old(kv.st), s1, kv.st, old(kv.trace), a1, kv.trace, first, role);
  }

  /** The log ends with this swap: from exactly these bytes to the scanned record as pending. */
  ghost predicate JustReturned(st: State, c: Candidate, raw: Status) {
    var log := st.store.log;
    log != [] && log[|log| - 1].before == Some(raw) && TurnsBack(log[|log| - 1], c.id, c.rec, st.clock)
  }

  /**
   The swap. It takes effect exactly when the key holds the bytes read and, if the call fails, when
   it applied all the same; otherwise this pass writes nothing here.
  */
  method SwapOne(kv: Shared, first: nat, scan: seq<Candidate>, k: nat, raw: Status, err: bool, ghost cut: Time)
      returns (ok: bool)
    requires Inv(kv.st) && k < |scan|
        && Acting(Mine(kv.st, first), first, scan, k, Reread(scan[k].id, scan[k].rec, raw))
    modifies kv
    ensures Inv(kv.st) && Acting(Mine(kv.st, first), first, scan, k, Finished)
    ensures Progress(old(kv.st), kv.st, old(kv.trace), kv.trace, first,
        Reconciler(cut, if ok then {scan[k].id} else {}))
    ensures ok ==> JustReturned(kv.st, scan[k], raw) && |old(kv.st).store.log| < |kv.st.store.log|
    ensures !ok && !err ==> Lookup(kv.st.store.statuses, scan[k].id) != Some(raw)
  {
    hide Inv, Acting, Mine, Progress;
    var id, c := scan[k].id, Reread(scan[k].id, scan[k].rec, raw);
    var now := kv.st.clock;
    Clock(kv.st);
    var back := scan[k].rec.(state := Pending, holder := "", updatedAt := now);
    ghost var none := Reconciler(cut, {});
    kv.Others(first, none);
    ghost var s1, a1 := kv.st, kv.trace;
    Forward(old(kv.st), s1, old(kv.trace), a1, first, none);
    InActing(kv.st, first, scan, k, c);
    ok := id in kv.st.store.statuses && kv.st.store.statuses[id] == raw;
    var applies: bool := *;
    var lost := err && !applies;
    ok := ok && !lost;
    var e := if lost then StoreError(first + k) else SwapBack(first + k, now);
    ghost var role := Reconciler(cut, if ok then {id} else {});
    SwapWrites(kv.st, e, id, raw);
    TakeStep(kv, first, scan, k, c, e, role);
    if ok { assert kv.st.store.log[|s1.store.log|] == Entry(id, Reconciling, Some(raw), Some(back)); }
    Widen(old(kv.st), s1, old(kv.trace), a1, first, none, role);
    Onward(old(kv.st), s1, kv.st, old(kv.trace), a1, kv.trace, first, role);
  }

  lemma SwapWrites(s: State, e: Event, id: Id, raw: Status)
    requires Enabled(s, e) && (e.StoreError? || (e.SwapBack? && s.calls[e.pid].id == id && s.calls[e.pid].raw == raw))
    ensures forall x :: WritesTo(s, e, x) ==>
        x == id && e.SwapBack? && id in s.store.statuses && s.store.statuses[id] == raw
  {
  }

  lemma Forward(s: State, t: State, a: seq<Event>, b: seq<Event>, first: nat, role: Role)
    requires Progress(s, t, a, b, first, role)
    ensures s.clock <= t.clock && s.store.log <= t.store.log && s.staleAfter == t.staleAfter
    ensures a <= b && Reaches(s, Steps(a, b), t)
  {
    hide Leaves, Plays, Reaches;
  }

  lemma Clock(s: State)
    requires Inv(s)
    ensures s.clock > 0
  {
  }

  lemma IsReturned(st: State, since: nat, c: Candidate, raw: Status)
    requires JustReturned(st, c, raw) && since < |st.store.log|
    ensures Returned(st, since, c.id, c.rec)
  {
  }

  lemma StillReturned(s: State, t: State, since: nat, from: nat, id: Id, rec: Status)
    requires Returned(s, from, id, rec) && since <= from && s.store.log <= t.store.log && s.clock <= t.clock
    ensures Returned(t, since, id, rec)
  {
    var i :| from <= i < |s.store.log| && TurnsBack(s.store.log[i], id, rec, s.clock);
    assert t.store.log[i] == s.store.log[i];
  }

  /** A run that is silent, undisturbed and whose calls succeed goes back. */
  ghost predicate Due(s: State, es: seq<Event>, first: nat, c: Candidate, cut: Time, f: Faults) {
    && Silent(c.rec, cut, s.staleAfter) && Lookup(s.store.statuses, c.id) == Some(c.rec)
    && Undisturbed(s, es, first, c.id) && Spares(f, c.id)
  }

  /** One record of the scan, judged by the cut-off taken at this time. */
  method ReconcileOne(kv: Shared, first: nat, scan: seq<Candidate>, k: nat, at: Time, f: Faults) returns (moved: bool)
    requires Inv(kv.st) && k < |scan| && Waiting(Mine(kv.st, first), first, scan, k) && Reading(kv.st, at)
    modifies kv
    ensures Inv(kv.st) && Waiting(Mine(kv.st, first), first, scan, k + 1)
    ensures Progress(old(kv.st), kv.st, old(kv.trace), kv.trace, first, Reconciler(at, {scan[k].id}))
    ensures moved ==> Returned(kv.st, |old(kv.st).store.log|, scan[k].id, scan[k].rec)
    ensures moved ==> Silent(scan[k].rec, at, old(kv.st).staleAfter)
    ensures Due(old(kv.st), Steps(old(kv.trace), kv.trace), first, scan[k], at, f) ==> moved
  {
    hide Inv, Acting, Mine, Returned, Progress, JustReturned, Undisturbed, Silent;
    var c := scan[k];
    ghost var s0, a0 := kv.st, kv.trace;
    ghost var none, role := Reconciler(at, {}), Reconciler(at, {c.id});
    moved := false;
    var stale := JudgeOne(kv, first, scan, k, at);
    ghost var s1, a1 := kv.st, kv.trace;
    Widen(s0, s1, a0, a1, first, none, role);
    if !stale {
      IsDone(kv.st, first, scan, k);
      return;
    }
    // the lease is the authoritative signal
    var alive := PeekOne(kv, first, scan, k, c.id in f.peek, at);
    ghost var s2, a2 := kv.st, kv.trace;
    Onward(s0, s1, s2, a0, a1, a2, first, none);
    Widen(s0, s2, a0, a2, first, none, role);
    if c.id in f.peek || alive {
      if Undisturbed(s0, Steps(a0, a2), first, c.id) { Lasts(s0, s2, a0, a2, first, none, c.id); }
      IsDone(kv.st, first, scan, k);
      return;
    }
    var raw := GetOne(kv, first, scan, k, c.id in f.get, at);
    ghost var s3, a3 := kv.st, kv.trace;
    Onward(s0, s2, s3, a0, a2, a3, first, none);
    Widen(s0, s3, a0, a3, first, none, role);
    if c.id in f.get || raw.None? {
      if Undisturbed(s0, Steps(a0, a3), first, c.id) { Lasts(s0, s3, a0, a3, first, none, c.id); }
      IsDone(kv.st, first, scan, k);
      return;
    }
    var ok := SwapOne(kv, first, scan, k, raw.value, c.id in f.swap, at);
    moved := ok;
    Forward(s0, s3, a0, a3, first, none);
    Concluded(s0, s3, kv.st, a0, a3, kv.trace, first, c, raw.value, at, f, ok);
    IsDone(kv.st, first, scan, k);
  }

  lemma Concluded(
    s0: State, s3: State, t: State, a0: seq<Event>, a3: seq<Event>, b: seq<Event>, first: nat, c: Candidate,
    raw: Status, at: Time, f: Faults, ok: bool)
    requires Lookup(s3.store.statuses, c.id) == Some(raw)
    requires Progress(s0, s3, a0, a3, first, Reconciler(at, {}))
    requires Progress(s3, t, a3, b, first, Reconciler(at, if ok then {c.id} else {}))
    requires ok ==> JustReturned(t, c, raw) && |s3.store.log| < |t.store.log|
    requires !ok && c.id !in f.swap ==> Lookup(t.store.statuses, c.id) != Some(raw)
    ensures Progress(s0, t, a0, b, first, Reconciler(at, {c.id}))
    ensures ok ==> Returned(t, |s0.store.log|, c.id, c.rec)
    ensures !ok ==> !Due(s0, Steps(a0, b), first, c, at, f)
  {
    hide Returned, Progress, JustReturned, Undisturbed, Silent;
    var none, role := Reconciler(at, {}), Reconciler(at, {c.id});
    Widen(s0, s3, a0, a3, first, none, role);
    Widen(s3, t, a3, b, first, Reconciler(at, if ok then {c.id} else {}), role);
    Onward(s0, s3, t, a0, a3, b, first, role);
    if ok {
      Forward(s0, s3, a0, a3, first, none);
      IsReturned(t, |s0.store.log|, c, raw);
    } else if Due(s0, Steps(a0, b), first, c, at, f) {
      UndisturbedSince(s0, s3, t, a0, a3, b, first, none, none, c.id);
      Lasts(s0, s3, a0, a3, first, none, c.id);
      Lasts(s3, t, a3, b, first, none, c.id);
    }
  }

  // ------------------------------------------------------------ the pass

  function Ids(scan: seq<Candidate>, k: nat): set<Id>
    requires k <= |scan|
  {
    set i | 0 <= i < k :: scan[i].id
  }

  /** Record c was silent and has been turned back. */
  ghost predicate Back(s: State, t: State, c: Candidate, cut: Time) {
    Silent(c.rec, cut, s.staleAfter) && Returned(t, |s.store.log|, c.id, c.rec)
  }

  /** What the records before k have come to. */
  ghost predicate Handled(
    s: State, t: State, es: seq<Event>, first: nat, scan: seq<Candidate>, k: nat, cut: Time, f: Faults, moved: seq<Id>)
    requires k <= |scan|
  {
    && (forall id :: id in moved ==> exists i :: 0 <= i < k && scan[i].id == id && Back(s, t, scan[i], cut))
    && (forall i :: 0 <= i < k && Due(s, es, first, scan[i], cut, f) ==>
        scan[i].id in moved && Back(s, t, scan[i], cut))
  }

  lemma HandledMore(
    s: State, t: State, u: State, a: seq<Event>, b: seq<Event>, c: seq<Event>, first: nat, scan: seq<Candidate>, k: nat,
    cut: Time, f: Faults, moved: seq<Id>, one: bool)
    requires k < |scan| && Distinct(scan) && Handled(s, t, Steps(a, b), first, scan, k, cut, f, moved)
    requires Progress(s, t, a, b, first, Reconciler(cut, Ids(scan, k)))
    requires Progress(t, u, b, c, first, Reconciler(cut, {scan[k].id}))
    requires one ==> Returned(u, |t.store.log|, scan[k].id, scan[k].rec) && Silent(scan[k].rec, cut, t.staleAfter)
    requires Due(t, Steps(b, c), first, scan[k], cut, f) ==> one
    ensures Handled(s, u, Steps(a, c), first, scan, k + 1, cut, f, if one then moved + [scan[k].id] else moved)
    ensures Progress(s, u, a, c, first, Reconciler(cut, Ids(scan, k + 1)))
  {
    hide Returned, Progress, Undisturbed, Silent;
    var before, own := Reconciler(cut, Ids(scan, k)), Reconciler(cut, {scan[k].id});
    var after := Reconciler(cut, Ids(scan, k + 1));
    Widen(s, t, a, b, first, before, after);
    Widen(t, u, b, c, first, own, after);
    Onward(s, t, u, a, b, c, first, after);
    Forward(s, t, a, b, first, before);
    Forward(t, u, b, c, first, own);
    var now := if one then moved + [scan[k].id] else moved;
    if one { StillReturned(u, u, |s.store.log|, |t.store.log|, scan[k].id, scan[k].rec); }
    forall id | id in now ensures exists i :: 0 <= i < k + 1 && scan[i].id == id && Back(s, u, scan[i], cut) {
      if id in moved {
        var i :| 0 <= i < k && scan[i].id == id && Back(s, t, scan[i], cut);
        StillReturned(t, u, |s.store.log|, |s.store.log|, id, scan[i].rec);
        assert Back(s, u, scan[i], cut);
      } else {
        assert Back(s, u, scan[k], cut);
      }
    }
    forall i | 0 <= i < k + 1 && Due(s, Steps(a, c), first, scan[i], cut, f)
      ensures scan[i].id in now && Back(s, u, scan[i], cut)
    {
      UndisturbedSince(s, t, u, a, b, c, first, before, own, scan[i].id);
      if i < k {
        assert Due(s, Steps(a, b), first, scan[i], cut, f);
        StillReturned(t, u, |s.store.log|, |s.store.log|, scan[i].id, scan[i].rec);
      } else {
        Lasts(s, t, a, b, first, before, scan[k].id);
      }
    }
  }

  /** Every moved run was silent by the cut-off and is turned back. */
  ghost predicate Sound(s: State, t: State, cut: Time, moved: seq<Id>) {
    forall id :: id in moved ==> exists rec :: Back(s, t, Candidate(id, rec), cut)
  }

  /** Every run that was due at the start is moved and turned back. */
  ghost predicate Complete(s: State, t: State, es: seq<Event>, first: nat, cut: Time, f: Faults, moved: seq<Id>) {
    forall id :: id in s.store.statuses ==>
      var c := Candidate(id, s.store.statuses[id]);
      Due(s, es, first, c, cut, f) ==> id in moved && Back(s, t, c, cut)
  }

  /**
   The whole pass. What happened is a run of the machine in which our calls took reconcile's steps
   and nothing else, all judged by the one cut-off; every call has come to its end. Every run it
   moved was silent by that cut-off and had its record turned back. And every run it should move it
   did: one whose record at the start was silent, that nobody else wrote and that had no live lease
   during the pass, and whose store calls succeeded.
  */
  method ReconcileRuns(kv: Shared, first: nat, f: Faults) returns (moved: seq<Id>, ghost cut: Time)
    requires Inv(kv.st) && Mine(kv.st, first) == map[]
    modifies kv
    ensures Inv(kv.st)
        && exists ids :: Progress(old(kv.st), kv.st, old(kv.trace), kv.trace, first, Reconciler(cut, ids))
    ensures old(kv.st.clock) <= cut <= kv.st.clock
    ensures forall p :: p in kv.st.calls && p >= first ==> kv.st.calls[p].Finished?
    ensures Sound(old(kv.st), kv.st, cut, moved)
    ensures !f.list ==> Complete(old(kv.st), kv.st, Steps(old(kv.trace), kv.trace), first, cut, f, moved)
  {
    hide Inv, Progress;
    moved := [];
    cut := kv.st.clock;
    ghost var s0, a0 := kv.st, kv.trace;
    if f.list {
      NoProgress(s0, a0, first, Reconciler(cut, {}));
      AllDone(kv.st, first, []);
      return;
    }
    var scan := ListStatuses(kv, first, f);
    var at := kv.st.clock;
    cut := at;
    ghost var s1, a1 := kv.st, kv.trace;
    Forward(s0, s1, a0, a1, first, Scanner);
    Widen(s0, s1, a0, a1, first, Scanner, Reconciler(at, {}));
    NoProgress(s1, a1, first, Reconciler(at, {}));
    Clock(kv.st);
    assert Ids(scan, 0) == {};
    hide Acting, Mine, Returned, Due;
    for k := 0 to |scan|
      invariant Inv(kv.st) && Waiting(Mine(kv.st, first), first, scan, k) && Reading(kv.st, at)
      invariant Progress(s1, kv.st, a1, kv.trace, first, Reconciler(at, Ids(scan, k)))
      invariant Handled(s1, kv.st, Steps(a1, kv.trace), first, scan, k, at, f, moved)
    {
      ghost var s2, a2 := kv.st, kv.trace;
      var one := ReconcileOne(kv, first, scan, k, at, f);
      Forward(s1, s2, a1, a2, first, Reconciler(at, Ids(scan, k)));
      Forward(s2, kv.st, a2, kv.trace, first, Reconciler(at, {scan[k].id}));
      HandledMore(s1, s2, kv.st, a1, a2, kv.trace, first, scan, k, at, f, moved, one);
      if one { moved := moved + [scan[k].id]; }
    }
    Passed(s0, s1, kv.st, a0, a1, kv.trace, first, scan, at, f, moved);
    AllDone(kv.st, first, scan);
  }

  lemma Passed(
    s0: State, s1: State, t: State, a0: seq<Event>, a1: seq<Event>, b: seq<Event>, first: nat, scan: seq<Candidate>,
    cut: Time, f: Faults, moved: seq<Id>)
    requires Progress(s0, s1, a0, a1, first, Scanner)
        && Progress(s1, t, a1, b, first, Reconciler(cut, Ids(scan, |scan|)))
    requires Covered(s0, Steps(a0, a1), first, f, {}, scan)
    requires Handled(s1, t, Steps(a1, b), first, scan, |scan|, cut, f, moved)
    ensures Progress(s0, t, a0, b, first, Reconciler(cut, Ids(scan, |scan|)))
    ensures s1.clock <= t.clock
    ensures Sound(s0, t, cut, moved) && Complete(s0, t, Steps(a0, b), first, cut, f, moved)
  {
    hide Returned, Progress, Undisturbed, Silent;
    var role := Reconciler(cut, Ids(scan, |scan|));
    Widen(s0, s1, a0, a1, first, Scanner, role);
    Onward(s0, s1, t, a0, a1, b, first, role);
    Forward(s0, s1, a0, a1, first, Scanner);
    Forward(s1, t, a1, b, first, role);
    forall id | id in moved ensures exists rec :: Back(s0, t, Candidate(id, rec), cut) {
      var i :| 0 <= i < |scan| && scan[i].id == id && Back(s1, t, scan[i], cut);
      StillReturned(t, t, |s0.store.log|, |s1.store.log|, id, scan[i].rec);
      assert Back(s0, t, Candidate(id, scan[i].rec), cut);
    }
    forall id | id in s0.store.statuses && Due(s0, Steps(a0, b), first, Candidate(id, s0.store.statuses[id]), cut, f)
      ensures id in moved && Back(s0, t, Candidate(id, s0.store.statuses[id]), cut)
    {
      var c := Candidate(id, s0.store.statuses[id]);
      UndisturbedSince(s0, s1, t, a0, a1, b, first, Scanner, role, id);
      Lasts(s0, s1, a0, a1, first, Scanner, id);
      LeftAlone(s0, Steps(a0, a1), first, id);
      var i :| 0 <= i < |scan| && scan[i] == c;
      assert Due(s1, Steps(a1, b), first, scan[i], cut, f);
      StillReturned(t, t, |s0.store.log|, |s1.store.log|, id, c.rec);
    }
  }

  lemma LeftAlone(s: State, es: seq<Event>, first: nat, id: Id)
    requires Undisturbed(s, es, first, id)
    ensures Leaves(s, es, first, false, id)
  {
  }
}
