/**
 claimNextCAS as it runs (internal/mcpserver/claim.go): list, read and keep the pending records, sort
 by age, swap the oldest that still stands. It is call pid of the Intake machine, with other replicas
 acting before each store call.
*/
module ClaimLoop {
  import opened Intake
  import opened IntakeKV
  import opened Options

  /** Which store calls fail is not for the loop to choose; of a failed swap it is not known whether it applied. */
  datatype Faults = Faults(list: bool, read: set<Id>, swap: set<Id>)

  /** One compare-and-swap: what it expected, and whether it took effect. */
  datatype Try = Try(id: Id, expected: Status, landed: bool)

  ghost predicate ByAge(cs: seq<Candidate>) {
    forall i, j :: 0 <= i < j < |cs| ==> cs[i].rec.startedAt <= cs[j].rec.startedAt
  }

  ghost predicate StepsUp(cs: seq<Candidate>) {
    forall i :: 0 < i < |cs| ==> cs[i - 1].rec.startedAt <= cs[i].rec.startedAt
  }

  lemma {:induction false} StepsUpIsByAge(cs: seq<Candidate>, i: nat, j: nat)
    requires StepsUp(cs) && i < j < |cs|
    ensures cs[i].rec.startedAt <= cs[j].rec.startedAt
    decreases j
  {
    if i >= j - 1 {
    } else {
      StepsUpIsByAge(cs, i, j - 1);
    }
  }

  /** Stands for the library sort; the order among equals is one it may choose. */
  function SortByAge(cs: seq<Candidate>): (sorted: seq<Candidate>)
    ensures ByAge(sorted) && multiset(sorted) == multiset(cs)
  {
    var sorted := Insertion(cs);
    assert ByAge(sorted) by {
      forall i, j | 0 <= i < j < |sorted| ensures sorted[i].rec.startedAt <= sorted[j].rec.startedAt {
        StepsUpIsByAge(sorted, i, j);
      }
    }
    sorted
  }

  function Insertion(cs: seq<Candidate>): (sorted: seq<Candidate>)
    ensures StepsUp(sorted) && multiset(sorted) == multiset(cs)
  {
    if cs == [] then [] else
    assert cs == [cs[0]] + cs[1..];
    InsertByAge(Insertion(cs[1..]), cs[0])
  }

  function InsertByAge(cs: seq<Candidate>, c: Candidate): (sorted: seq<Candidate>)
    requires StepsUp(cs)
    ensures StepsUp(sorted) && multiset(sorted) == multiset(cs) + multiset{c}
    ensures sorted != [] && (sorted[0] == c || (cs != [] && sorted[0] == cs[0]))
  {
    if cs == [] || c.rec.startedAt <= cs[0].rec.startedAt then [c] + cs else
    assert cs == [cs[0]] + cs[1..];
    [cs[0]] + InsertByAge(cs[1..], c)
  }

  datatype Outcome = Got(id: Id, rec: Status) | Nothing | StoreFailed

  /** These swaps were made on the first candidates of the list, in its order, and lost. */
  ghost predicate LostInOrder(tries: seq<Try>, cs: seq<Candidate>) {
    |tries| <= |cs| && forall i :: 0 <= i < |tries| ==> tries[i] == Try(cs[i].id, cs[i].rec, false)
  }

  lemma LostMore(tries: seq<Try>, cs: seq<Candidate>)
    requires |tries| < |cs| && LostInOrder(tries, cs)
    ensures var c := cs[|tries|]; LostInOrder(tries + [Try(c.id, c.rec, false)], cs)
  {
  }

  // ------------------------------------------------------------ runs nobody touches meanwhile

  /** No status of this run was written between s and t. */
  ghost predicate Untouched(s: Store, t: Store, id: Id) {
    s.log <= t.log && forall i :: |s.log| <= i < |t.log| ==> t.log[i].id != id
  }

  /** It was pending at s, and nothing was written for it since. */
  ghost predicate PendingAllAlong(s: State, t: State, id: Id) {
    Untouched(s.store, t.store, id) && id in s.store.statuses && s.store.statuses[id].state.Pending?
  }

  /** Every run that was pending all along was collected, unless its read failed. */
  ghost predicate Collected(s: State, t: State, unread: set<Id>, found: seq<Candidate>) {
    forall id :: PendingAllAlong(s, t, id) && id !in unread ==> Candidate(id, s.store.statuses[id]) in found
  }

  lemma {:induction false} CurrentKept(a: seq<Entry>, b: seq<Entry>, id: Id)
    requires a <= b && forall i :: |a| <= i < |b| ==> b[i].id != id
    ensures Current(b, id) == Current(a, id)
  {
    if a == b {
    } else {
      CurrentKept(a, b[..|b| - 1], id);
    }
  }

  /** Then its record is what it was. */
  lemma Kept(s: State, t: State, id: Id)
    requires Inv(s) && Inv(t) && Untouched(s.store, t.store, id)
    ensures Lookup(t.store.statuses, id) == Lookup(s.store.statuses, id)
  {
    assert Lookup(s.store.statuses, id) == Current(s.store.log, id);
    assert Lookup(t.store.statuses, id) == Current(t.store.log, id);
    CurrentKept(s.store.log, t.store.log, id);
  }

  lemma Earlier(s: Store, t: Store, u: Store, id: Id)
    requires s.log <= t.log <= u.log && Untouched(s, u, id)
    ensures Untouched(s, t, id) && Untouched(t, u, id)
  {
    assert forall i :: 0 <= i < |t.log| ==> t.log[i] == u.log[i];
  }

  /** Pending at s, in the list of keys, and read: it was collected. */
  ghost predicate Covered(s: State, t: State, ids: seq<Id>, unread: set<Id>, found: seq<Candidate>) {
    forall id :: id in ids && PendingAllAlong(s, t, id) && id !in unread ==>
        Candidate(id, s.store.statuses[id]) in found
  }

  lemma CoveredOn(s: State, t: State, u: State, ids: seq<Id>, unread: set<Id>, found: seq<Candidate>)
    requires Covered(s, t, ids, unread, found) && s.store.log <= t.store.log <= u.store.log
    ensures Covered(s, u, ids, unread, found)
  {
    forall id | id in ids && PendingAllAlong(s, u, id) && id !in unread
      ensures Candidate(id, s.store.statuses[id]) in found
    {
      Earlier(s.store, t.store, u.store, id);
    }
  }

  /** One more key was read, or its read failed. */
  lemma CoveredMore(s: State, t: State, ids: seq<Id>, id: Id, unread: set<Id>, found: seq<Candidate>, skip: set<Id>,
      more: seq<Candidate>)
    requires Inv(s) && Inv(t) && s.store.log <= t.store.log && Covered(s, t, ids, unread, found)
    requires unread <= skip && forall c :: c in found ==> c in more
    requires id in skip || (forall rec :: Lookup(t.store.statuses, id) == Some(rec) && rec.state.Pending? ==>
        Candidate(id, rec) in more)
    ensures Covered(s, t, ids + [id], skip, more)
  {
    if Untouched(s.store, t.store, id) { Kept(s, t, id); }
  }

  // ------------------------------------------------------------ the loop

  /** Every key there is. */
  method ListKeys(kv: Shared, first: nat, ghost role: Role) returns (ids: seq<Id>)
    requires Inv(kv.st)
    modifies kv
    ensures Inv(kv.st) && Mine(kv.st, first) == old(Mine(kv.st, first))
    ensures Progress(old(kv.st), kv.st, old(kv.trace), kv.trace, first, role)
    ensures forall id :: id in kv.st.store.statuses ==> id in ids
  {
    hide Inv, Mine, Progress;
    kv.Others(first, role);
    ids := [];
    var left := kv.st.store.statuses.Keys;
    while left != {}
      invariant forall id :: id in kv.st.store.statuses ==> id in left || id in ids
      decreases left
    {
      var id :| id in left;
      ids, left := ids + [id], left - {id};
    }
  }

  /** This call, with these candidates, and no later one of ours. */
  ghost predicate Holding(st: State, pid: nat, replica: Replica, found: seq<Candidate>) {
    Mine(st, pid) == map[pid := Collecting(replica, found)]
  }

  lemma HoldingIs(st: State, pid: nat, replica: Replica, found: seq<Candidate>)
    requires Holding(st, pid, replica, found)
    ensures pid in st.calls && st.calls[pid] == Collecting(replica, found)
  {
    assert pid in Mine(st, pid);
  }

  lemma HoldingNext(s: State, t: State, pid: nat, replica: Replica, found: seq<Candidate>, more: seq<Candidate>)
    requires Holding(s, pid, replica, found) && t.calls == s.calls[pid := Collecting(replica, more)]
    ensures Holding(t, pid, replica, more)
  {
    assert Mine(t, pid) == Mine(s, pid)[pid := Collecting(replica, more)];
  }

  /** Reads one key and keeps it when pending. */
  method ReadKey(kv: Shared, pid: nat, replica: Replica, id: Id, found: seq<Candidate>, err: bool)
      returns (more: seq<Candidate>)
    requires Inv(kv.st) && Holding(kv.st, pid, replica, found)
    modifies kv
    ensures Inv(kv.st) && Holding(kv.st, pid, replica, more)
    ensures Progress(old(kv.st), kv.st, old(kv.trace), kv.trace, pid, Claimer(replica))
    ensures err ==> more == found
    ensures !err ==> more == match Lookup(kv.st.store.statuses, id)
                             case Some(rec) => if rec.state.Pending? then found + [Candidate(id, rec)] else found
                             case None => found
  {
    hide Inv, Progress;
    kv.Others(pid, Claimer(replica));
    ghost var s1, a1 := kv.st, kv.trace;
    HoldingIs(kv.st, pid, replica, found);
    hide Mine;
    more := found;
    if err { return; }
    var raw := Lookup(kv.st.store.statuses, id);
    kv.Step(Collect(pid, id), pid, pid, Claimer(replica));
    if raw.Some? && raw.value.state.Pending? { more := found + [Candidate(id, raw.value)]; }
    HoldingNext(s1, kv.st, pid, replica, found, more);
    Onward(old(kv.st), s1, kv.st, old(kv.trace), a1, kv.trace, pid, Claimer(replica));
  }

  /** Swaps one candidate; an error leaves open whether the swap took effect. */
  method TryOne(kv: Shared, pid: nat, replica: Replica, found: seq<Candidate>, c: Candidate, err: bool)
    returns (swapped: bool, claimed: Status, ghost landed: bool)
    requires Inv(kv.st) && Holding(kv.st, pid, replica, found) && c in found
    modifies kv
    ensures Inv(kv.st) && Progress(old(kv.st), kv.st, old(kv.trace), kv.trace, pid, Claimer(replica))
    ensures claimed == Status(Claimed, replica, c.rec.startedAt, claimed.updatedAt, c.rec.rest)
    ensures old(kv.st.clock) <= claimed.updatedAt <= kv.st.clock
    ensures landed ==> c.rec.state == Pending && JustClaimed(kv.st, c.id, replica, c.rec, claimed)
    ensures !err ==> landed == swapped
    ensures !err && !swapped ==>
        Holding(kv.st, pid, replica, found) && Lookup(kv.st.store.statuses, c.id) != Some(c.rec)
  {
    hide Inv, Progress;
    var now := kv.st.clock;
    ClockOk(kv.st);
    claimed := ClaimedBy(c.rec, replica, now);
    kv.Others(pid, Claimer(replica));
    ghost var s1, a1 := kv.st, kv.trace;
    Forth(old(kv.st), s1, old(kv.trace), a1, pid, Claimer(replica));
    HoldingIs(kv.st, pid, replica, found);
    hide Mine;
    StillPending(kv.st, pid, replica, found, c);
    swapped := Holds(kv.st.store, c.id, c.rec);
    var applies: bool := *;
    landed := swapped && (!err || applies);
    kv.Step(if err && !applies then StoreError(pid) else TryClaim(pid, c, now), pid, pid, Claimer(replica));
    Onward(old(kv.st), s1, kv.st, old(kv.trace), a1, kv.trace, pid, Claimer(replica));
    if !err && !swapped { HoldingNext(s1, kv.st, pid, replica, found, found); }
  }

  lemma StillPending(s: State, pid: nat, replica: Replica, found: seq<Candidate>, c: Candidate)
    requires Inv(s) && pid in s.calls && s.calls[pid] == Collecting(replica, found) && c in found
    ensures c.rec.state == Pending
  {
    assert CallOk(s.store, s.calls[pid]);
  }

  lemma ClockOk(s: State)
    requires Inv(s)
    ensures s.clock > 0
  {
  }

  lemma Forth(s: State, t: State, a: seq<Event>, b: seq<Event>, first: nat, role: Role)
    requires Progress(s, t, a, b, first, role)
    ensures s.clock <= t.clock && s.store.log <= t.store.log
  {
  }

  /** The pending records, as they were read. */
  method CollectPending(kv: Shared, pid: nat, replica: Replica, f: Faults) returns (found: seq<Candidate>)
    requires Inv(kv.st) && Mine(kv.st, pid) == map[]
    modifies kv
    ensures Inv(kv.st) && Holding(kv.st, pid, replica, found)
    ensures Progress(old(kv.st), kv.st, old(kv.trace), kv.trace, pid, Claimer(replica))
    ensures !f.list ==> Collected(old(kv.st), kv.st, f.read, found)
  {
    hide Inv, Progress, Covered, Untouched;
    ghost var s0, a0, role := kv.st, kv.trace, Claimer(replica);
    found := [];
    assert pid !in Mine(kv.st, pid);
    kv.Step(BeginClaim(pid, replica), pid, pid, role);
    assert Mine(kv.st, pid) == map[pid := Collecting(replica, [])];
    hide Mine, Holding;
    ghost var s1, a1 := kv.st, kv.trace;
    var ids := ListKeys(kv, pid, role);
    ghost var s2, a2 := kv.st, kv.trace;
    Onward(s0, s1, s2, a0, a1, a2, pid, role);
    SameCalls(s1, s2, pid, replica, found);
    if f.list { return; }
    CoveredStart(s0, s2, f.read);
    NoProgress(s2, a2, pid, role);
    for n := 0 to |ids|
      invariant Inv(kv.st) && Holding(kv.st, pid, replica, found)
      invariant Progress(s0, kv.st, a0, kv.trace, pid, role) && Progress(s2, kv.st, a2, kv.trace, pid, role)
      invariant Covered(s0, kv.st, ids[..n], f.read, found)
    {
      ghost var s3, a3, was := kv.st, kv.trace, found;
      found := ReadKey(kv, pid, replica, ids[n], found, ids[n] in f.read);
      Onward(s0, s3, kv.st, a0, a3, kv.trace, pid, role);
      Onward(s2, s3, kv.st, a2, a3, kv.trace, pid, role);
      Forth(s0, s3, a0, a3, pid, role);
      Forth(s3, kv.st, a3, kv.trace, pid, role);
      CoveredOn(s0, s3, kv.st, ids[..n], f.read, was);
      CoveredMore(s0, kv.st, ids[..n], ids[n], f.read, was, f.read, found);
      assert ids[..n + 1] == ids[..n] + [ids[n]];
    }
    assert ids[..|ids|] == ids;
    Forth(s0, s2, a0, a2, pid, role);
    Forth(s2, kv.st, a2, kv.trace, pid, role);
    forall id | PendingAllAlong(s0, kv.st, id) && id !in f.read
      ensures Candidate(id, s0.store.statuses[id]) in found
    {
      Earlier(s0.store, s2.store, kv.st.store, id);
      Kept(s0, s2, id);
      InCovered(s0, kv.st, ids, f.read, found, id);
    }
  }

  lemma CoveredStart(s: State, t: State, unread: set<Id>)
    ensures Covered(s, t, [], unread, [])
  {
  }

  lemma InCovered(s: State, t: State, ids: seq<Id>, unread: set<Id>, found: seq<Candidate>, id: Id)
    requires Covered(s, t, ids, unread, found) && id in ids && PendingAllAlong(s, t, id) && id !in unread
    ensures Candidate(id, s.store.statuses[id]) in found
  {
  }

  lemma SameCalls(s: State, t: State, pid: nat, replica: Replica, found: seq<Candidate>)
    requires Mine(s, pid) == map[pid := Collecting(replica, found)] && Mine(t, pid) == Mine(s, pid)
    ensures Holding(t, pid, replica, found)
  {
  }

  /** Every candidate before k has been touched since s, or was not what s held. */
  ghost predicate Overtaken(s: State, t: State, cs: seq<Candidate>, k: nat)
    requires k <= |cs|
  {
    forall j :: 0 <= j < k && Untouched(s.store, t.store, cs[j].id) ==>
        Lookup(s.store.statuses, cs[j].id) != Some(cs[j].rec)
  }

  lemma OvertakenMore(s: State, t: State, u: State, cs: seq<Candidate>, k: nat)
    requires Inv(s) && Inv(u) && s.store.log <= t.store.log <= u.store.log && k < |cs| && Overtaken(s, t, cs, k)
    requires Lookup(u.store.statuses, cs[k].id) != Some(cs[k].rec)
    ensures Overtaken(s, u, cs, k + 1)
  {
    forall j | 0 <= j < k + 1 && Untouched(s.store, u.store, cs[j].id)
      ensures Lookup(s.store.statuses, cs[j].id) != Some(cs[j].rec)
    {
      if j < k { Earlier(s.store, t.store, u.store, cs[j].id); } else { Kept(s, u, cs[k].id); }
    }
  }

  /** Of the runs that were pending all along and could be read, none is older than this. */
  ghost predicate NoneOlder(s: State, t: State, unread: set<Id>, started: Time) {
    forall id :: PendingAllAlong(s, t, id) && id !in unread ==> started <= s.store.statuses[id].startedAt
  }

  /**
   The winner is the oldest pending record of the snapshot apart from those whose swap this call
   lost, and it was still pending, with exactly these bytes, when it was claimed. No run that was
   pending all along and could be read is older, and when nothing is claimed there was no such run.
   An error of the store ends the call on the candidate it hit, or with the list.
  */
  method ClaimNextCAS(kv: Shared, pid: nat, replica: Replica, f: Faults)
    returns (out: Outcome, ghost snapshot: seq<Candidate>, ghost tries: seq<Try>)
    requires Inv(kv.st) && Mine(kv.st, pid) == map[]
    modifies kv
    ensures Inv(kv.st) && Progress(old(kv.st), kv.st, old(kv.trace), kv.trace, pid, Claimer(replica))
    ensures ByAge(snapshot)
    ensures match out
      case Got(id, rec) =>
        var k := |tries| - 1;
        && 0 <= k < |snapshot| && LostInOrder(tries[..k], snapshot)
        && tries[k] == Try(snapshot[k].id, snapshot[k].rec, true)
        && id == snapshot[k].id && snapshot[k].rec.state == Pending
        && rec == Status(Claimed, replica, snapshot[k].rec.startedAt, rec.updatedAt, snapshot[k].rec.rest)
        && old(kv.st.clock) <= rec.updatedAt <= kv.st.clock
        && JustClaimed(kv.st, id, replica, snapshot[k].rec, rec)
        && NoneOlder(old(kv.st), kv.st, f.read, rec.startedAt)
      case Nothing => LostInOrder(tries, snapshot) && |tries| == |snapshot|
      case StoreFailed =>
        f.list || (tries != [] && LostInOrder(tries[..|tries| - 1], snapshot) && |tries| <= |snapshot|
                   && tries[|tries| - 1].id == snapshot[|tries| - 1].id && snapshot[|tries| - 1].id in f.swap)
    ensures !f.list ==> Collected(old(kv.st), kv.st, f.read, snapshot)
    ensures out.Nothing? ==> forall id :: PendingAllAlong(old(kv.st), kv.st, id) ==> id in f.read
  {
    hide Inv, Progress, Untouched, PendingAllAlong, Holding, Overtaken, SortByAge, JustClaimed, NoneOlder;
    ghost var s0, a0, role := kv.st, kv.trace, Claimer(replica);
    tries := [];
    var found := CollectPending(kv, pid, replica, f);
    snapshot := [];
    if f.list { return StoreFailed, snapshot, tries; }
    ghost var s1 := kv.st;
    Forth(s0, s1, a0, kv.trace, pid, role);
    var sorted := SortByAge(found);
    snapshot := sorted;
    SameMembers(found, sorted);
    assert Collected(s0, s1, f.read, sorted);
    hide Collected, ByAge, LostInOrder;
    OvertakenNone(s0, s1, sorted);
    NoneLostYet(sorted);
    for k := 0 to |sorted|
      invariant Inv(kv.st) && Holding(kv.st, pid, replica, found) && Progress(s0, kv.st, a0, kv.trace, pid, role)
      invariant s0.store.log <= s1.store.log <= kv.st.store.log
      invariant |tries| == k && LostInOrder(tries, sorted) && Overtaken(s0, kv.st, sorted, k)
    {
      ghost var s2, a2 := kv.st, kv.trace;
      var swapped, claimed;
      ghost var landed;
      assert sorted[k] in found;
      Forth(s0, s2, a0, a2, pid, role);
      var csErr := sorted[k].id in f.swap;
      swapped, claimed, landed := TryOne(kv, pid, replica, found, sorted[k], csErr);
      ghost var before := tries;
      tries := tries + [Try(sorted[k].id, sorted[k].rec, landed)];
      assert tries[..k] == before;
      Forth(s2, kv.st, a2, kv.trace, pid, role);
      Onward(s0, s2, kv.st, a0, a2, kv.trace, pid, role);
      if csErr || swapped {
        StillCollected(s0, s1, kv.st, sorted, f.read);
        if csErr { return StoreFailed, snapshot, tries; }
        OldestLeft(s0, s2, kv.st, sorted, k, f.read);
        return Got(sorted[k].id, claimed), snapshot, tries;
      }
      LostMore(before, sorted);
      OvertakenMore(s0, s2, kv.st, sorted, k);
    }
    StillCollected(s0, s1, kv.st, sorted, f.read);
    AllOvertaken(s0, kv.st, sorted, f.read);
    out := Nothing;
  }

  /** The log ends with this claim of this very record. */
  ghost predicate JustClaimed(st: State, id: Id, replica: Replica, rec: Status, claimed: Status) {
    var log := st.store.log;
    && log != [] && log[|log| - 1] == Entry(id, Claiming(replica), Some(rec), Some(claimed))
    && Lookup(st.store.statuses, id) == Some(claimed)
  }

  /** Those before k in the order of age are overtaken, so none that is left is older than k. */
  lemma OldestLeft(s: State, t: State, u: State, sorted: seq<Candidate>, k: nat, unread: set<Id>)
    requires s.store.log <= t.store.log <= u.store.log && k < |sorted|
    requires ByAge(sorted) && Overtaken(s, t, sorted, k) && Collected(s, u, unread, sorted)
    ensures NoneOlder(s, u, unread, sorted[k].rec.startedAt)
  {
    forall id | PendingAllAlong(s, u, id) && id !in unread
      ensures sorted[k].rec.startedAt <= s.store.statuses[id].startedAt
    {
      var j :| 0 <= j < |sorted| && sorted[j] == Candidate(id, s.store.statuses[id]);
      Earlier(s.store, t.store, u.store, id);
      assert j >= k;
    }
  }

  lemma SameMembers(a: seq<Candidate>, b: seq<Candidate>)
    requires multiset(a) == multiset(b)
    ensures forall c :: c in a <==> c in b
  {
    forall c ensures c in a <==> c in b {
      assert c in multiset(a) <==> c in multiset(b);
    }
  }

  lemma OvertakenNone(s: State, t: State, cs: seq<Candidate>)
    ensures Overtaken(s, t, cs, 0)
  {
  }

  lemma NoneLostYet(cs: seq<Candidate>)
    ensures LostInOrder([], cs)
  {
  }

  lemma StillCollected(s: State, t: State, u: State, found: seq<Candidate>, unread: set<Id>)
    requires s.store.log <= t.store.log <= u.store.log && Collected(s, t, unread, found)
    ensures Collected(s, u, unread, found)
  {
    forall id | PendingAllAlong(s, u, id) ensures PendingAllAlong(s, t, id) {
      Earlier(s.store, t.store, u.store, id);
    }
  }

  lemma AllOvertaken(s: State, t: State, sorted: seq<Candidate>, unread: set<Id>)
    requires Overtaken(s, t, sorted, |sorted|) && Collected(s, t, unread, sorted)
    ensures forall id :: PendingAllAlong(s, t, id) ==> id in unread
  {
    forall id | PendingAllAlong(s, t, id) ensures id in unread {
      assert forall j :: 0 <= j < |sorted| ==> sorted[j] != Candidate(id, s.store.statuses[id]);
    }
  }
}
