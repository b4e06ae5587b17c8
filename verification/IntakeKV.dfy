/**
 The shared store as one running replica meets it: other replicas take any steps of the Intake
 machine before each of its store calls. The trace is what happened, so every run theorem of the
 machine is one about the loops that use it.
*/
module IntakeKV {
  import opened Intake
  import opened IntakeSafety
  import opened Options

  /** The call an event moves. */
  function PidOf(e: Event): Option<nat> {
    match e
    case BeginClaim(pid, _) => Some(pid)
    case Collect(pid, _) => Some(pid)
    case TryClaim(pid, _, _) => Some(pid)
    case BeginReconcile(pid, _) => Some(pid)
    case Judge(pid, _) => Some(pid)
    case Peek(pid) => Some(pid)
    case Read(pid) => Some(pid)
    case SwapBack(pid, _) => Some(pid)
    case BeginSweep(pid, _) => Some(pid)
    case Probe(pid, _) => Some(pid)
    case Remove(pid) => Some(pid)
    case LookLocal(pid, _, _) => Some(pid)
    case Drop(pid) => Some(pid)
    case StoreError(pid) => Some(pid)
    case _ => None
  }

  predicate IsMine(e: Event, first: nat) { PidOf(e).Some? && PidOf(e).value >= first }

  /** What the calls from first on are doing. */
  function Mine(st: State, first: nat): map<nat, Call> {
    map p | p in st.calls && p >= first :: st.calls[p]
  }

  /** What a replica is doing with its calls: scanning, reconciling these runs by one cut-off, or claiming. */
  datatype Role = Scanner | Reconciler(cut: Time, ids: set<Id>) | Claimer(replica: Replica)

  predicate Plays(role: Role, e: Event) {
    match role
    case Scanner => e.BeginReconcile?
    case Reconciler(cut, _) =>
      e.BeginReconcile? || (e.Judge? && e.at == cut) || e.Peek? || e.Read? || e.SwapBack? || e.StoreError?
    case Claimer(replica) => (e.BeginClaim? && e.replica == replica) || e.Collect? || e.TryClaim? || e.StoreError?
  }

  /** May its calls write the status of this run? */
  predicate Allows(role: Role, id: Id) {
    match role
    case Scanner => false
    case Reconciler(_, ids) => id in ids
    case Claimer(_) => true
  }

  predicate WritesTo(s: State, e: Event, id: Id)
    requires Enabled(s, e)
  {
    Lands(s, e).Some? && Lands(s, e).value.0 == id
  }

  // ------------------------------------------------------------ what a stretch of the run leaves alone

  /** No step of our calls (or, if not ours, no step of anybody else) writes the status of this run. */
  ghost predicate Leaves(s: State, es: seq<Event>, first: nat, ours: bool, id: Id)
    decreases |es|
  {
    es == [] || (Enabled(s, es[0]) ==>
      (IsMine(es[0], first) == ours ==> !WritesTo(s, es[0], id)) && Leaves(Apply(s, es[0]), es[1..], first, ours, id))
  }

  /** At no moment of the stretch does the run have an unexpired lease record. */
  ghost predicate Unleased(s: State, es: seq<Event>, id: Id)
    decreases |es|
  {
    && (id in s.leases ==> s.leases[id] <= s.clock)
    && (es == [] || (Enabled(s, es[0]) ==> Unleased(Apply(s, es[0]), es[1..], id)))
  }

  lemma {:induction false} LeavesJoined(
    s: State, es: seq<Event>, t: State, fs: seq<Event>, first: nat, ours: bool, id: Id)
    requires Reaches(s, es, t)
    ensures Leaves(s, es + fs, first, ours, id) <==> Leaves(s, es, first, ours, id) && Leaves(t, fs, first, ours, id)
    decreases |es|
  {
    hide Enabled, Apply, IsMine, WritesTo;
    if es == [] {
      assert es + fs == fs;
    } else {
      assert (es + fs)[0] == es[0] && (es + fs)[1..] == es[1..] + fs;
      LeavesJoined(Apply(s, es[0]), es[1..], t, fs, first, ours, id);
    }
  }

  lemma {:induction false} UnleasedJoined(s: State, es: seq<Event>, t: State, fs: seq<Event>, id: Id)
    requires Reaches(s, es, t)
    ensures Unleased(s, es + fs, id) <==> Unleased(s, es, id) && Unleased(t, fs, id)
    decreases |es|
  {
    hide Enabled, Apply;
    if es == [] {
      assert es + fs == fs;
      UnleasedNow(t, fs, id);
    } else {
      assert (es + fs)[0] == es[0] && (es + fs)[1..] == es[1..] + fs;
      UnleasedJoined(Apply(s, es[0]), es[1..], t, fs, id);
    }
  }

  lemma UnleasedNow(s: State, es: seq<Event>, id: Id)
    ensures Unleased(s, es, id) ==> Unleased(s, [], id)
  {
  }

  /** A run without a lease at the end of the stretch too. */
  lemma {:induction false} UnleasedAtEnd(s: State, es: seq<Event>, t: State, id: Id)
    requires Reaches(s, es, t) && Unleased(s, es, id)
    ensures !LeaseFresh(t, id)
    decreases |es|
  {
    hide Enabled, Apply;
    if es == [] {
    } else {
      UnleasedAtEnd(Apply(s, es[0]), es[1..], t, id);
    }
  }

  lemma StepKeepsRecord(s: State, e: Event, id: Id)
    requires Enabled(s, e) && !WritesTo(s, e, id)
    ensures Lookup(Apply(s, e).store.statuses, id) == Lookup(s.store.statuses, id)
  {
    StoreMoves(s, e);
    hide Apply;
  }

  /** Left alone by us and by everybody else, a record is what it was. */
  lemma {:induction false} KeepsRecord(s: State, es: seq<Event>, t: State, first: nat, id: Id)
    requires Reaches(s, es, t) && Leaves(s, es, first, true, id) && Leaves(s, es, first, false, id)
    ensures Lookup(t.store.statuses, id) == Lookup(s.store.statuses, id)
    decreases |es|
  {
    hide Enabled, Apply, IsMine, WritesTo;
    if es == [] {
    } else {
      assert !WritesTo(s, es[0], id);
      StepKeepsRecord(s, es[0], id);
      KeepsRecord(Apply(s, es[0]), es[1..], t, first, id);
    }
  }

  // ------------------------------------------------------------ progress

  /**
   From s to t the machine took exactly the steps by which the trace grew from a to b, and those of
   our calls are the ones the role takes, on the records it may write; time and the log only grew.
  */
  ghost predicate Progress(s: State, t: State, a: seq<Event>, b: seq<Event>, first: nat, role: Role) {
    && s.clock <= t.clock && s.staleAfter == t.staleAfter && s.store.log <= t.store.log
    && a <= b && Reaches(s, b[|a|..], t)
    && (forall i :: |a| <= i < |b| && IsMine(b[i], first) ==> Plays(role, b[i]))
    && (forall id :: !Allows(role, id) ==> Leaves(s, b[|a|..], first, true, id))
  }

  lemma {:induction false} Joined(s: State, es: seq<Event>, t: State, fs: seq<Event>, u: State)
    requires Reaches(s, es, t) && Reaches(t, fs, u)
    ensures Reaches(s, es + fs, u)
    decreases |es|
  {
    hide Enabled, Apply;
    if es == [] {
      assert es + fs == fs;
    } else {
      Joined(Apply(s, es[0]), es[1..], t, fs, u);
      assert (es + fs)[1..] == es[1..] + fs;
    }
  }

  /** So what holds in every reachable state of the machine holds after any of these loops. */
  lemma StaysReachable(s: State, t: State, a: seq<Event>, b: seq<Event>, first: nat, role: Role)
    requires Reachable(s) && Progress(s, t, a, b, first, role)
    ensures Reachable(t)
  {
    hide Reaches, Enabled, Apply, Leaves, Plays, Allows;
    var s0: State, es :| Init(s0) && Reaches(s0, es, s);
    Joined(s0, es, s, b[|a|..], t);
  }

  lemma NoProgress(s: State, a: seq<Event>, first: nat, role: Role)
    ensures Progress(s, s, a, a, first, role)
  {
    assert a[|a|..] == [];
  }

  lemma Onward(s: State, t: State, u: State, a: seq<Event>, b: seq<Event>, c: seq<Event>, first: nat, role: Role)
    requires Progress(s, t, a, b, first, role) && Progress(t, u, b, c, first, role)
    ensures Progress(s, u, a, c, first, role)
  {
    hide Reaches, Leaves, Plays, Allows, IsMine;
    Joined(s, b[|a|..], t, c[|b|..], u);
    assert c[|a|..] == b[|a|..] + c[|b|..];
    assert forall i :: |a| <= i < |b| ==> c[i] == b[i];
    forall id | !Allows(role, id) ensures Leaves(s, c[|a|..], first, true, id) {
      LeavesJoined(s, b[|a|..], t, c[|b|..], first, true, id);
    }
  }

  /** A role with more freedom. */
  predicate Wider(r: Role, q: Role) {
    q == r || (q.Reconciler? && (r.Scanner? || (r.Reconciler? && r.cut == q.cut && r.ids <= q.ids)))
  }

  lemma Widen(s: State, t: State, a: seq<Event>, b: seq<Event>, first: nat, r: Role, q: Role)
    requires Progress(s, t, a, b, first, r) && Wider(r, q)
    ensures Progress(s, t, a, b, first, q)
  {
    hide Reaches, Leaves;
  }

  lemma Grows(s: State, e: Event)
    requires Inv(s) && Enabled(s, e)
    ensures var t := Apply(s, e);
      Inv(t) && s.clock <= t.clock && s.staleAfter == t.staleAfter && s.store.log <= t.store.log
  {
    ApplyKeeps(s, e);
    hide Inv;
  }

  lemma OneStep(s: State, e: Event, a: seq<Event>, first: nat, role: Role)
    requires Inv(s) && Enabled(s, e) && (IsMine(e, first) ==> Plays(role, e))
    requires IsMine(e, first) ==> forall id :: WritesTo(s, e, id) ==> Allows(role, id)
    ensures Inv(Apply(s, e)) && Progress(s, Apply(s, e), a, a + [e], first, role)
  {
    hide Inv;
    Grows(s, e);
    hide Enabled, Apply, IsMine, Plays, WritesTo, Allows;
    var es := (a + [e])[|a|..];
    assert es == [e] && es[1..] == [];
    assert Reaches(Apply(s, e), [], Apply(s, e));
    forall id | !Allows(role, id) ensures Leaves(s, es, first, true, id) {
      assert Leaves(Apply(s, e), [], first, true, id);
    }
  }

  lemma CallsMove(s: State, e: Event)
    requires Enabled(s, e)
    ensures PidOf(e).None? ==> Apply(s, e).calls == s.calls
    ensures PidOf(e).Some? ==> var pid := PidOf(e).value;
      pid in Apply(s, e).calls && Apply(s, e).calls == s.calls[pid := Apply(s, e).calls[pid]]
          && Apply(s, e).clock == s.clock
  {
  }

  class Shared {
    var st: State
    ghost var trace: seq<Event>

    constructor (st: State)
      ensures this.st == st && trace == []
    {
      this.st := st;
      trace := [];
    }

    /** Any steps of calls below first, of running replicas and of time. */
    method Others(first: nat, ghost role: Role)
      requires Inv(st)
      modifies this
      ensures Inv(st) && Mine(st, first) == old(Mine(st, first))
      ensures Progress(old(st), st, old(trace), trace, first, role)
    {
      hide Inv, Mine, Progress;
      NoProgress(st, trace, first, role);
      var steps: nat := *;
      while steps > 0
        invariant Inv(st) && Mine(st, first) == old(Mine(st, first))
        invariant Progress(old(st), st, old(trace), trace, first, role)
      {
        var e: Event := *;
        if Enabled(st, e) && !IsMine(e, first) {
          OneStep(st, e, trace, first, role);
          NotMine(st, e, first);
          Onward(old(st), st, Apply(st, e), old(trace), trace, trace + [e], first, role);
          st := Apply(st, e);
          trace := trace + [e];
        }
        steps := steps - 1;
      }
    }

    /** One step of a call of ours. */
    method Step(e: Event, pid: nat, first: nat, ghost role: Role)
      requires Inv(st) && Enabled(st, e) && PidOf(e) == Some(pid) && pid >= first && Plays(role, e)
      requires forall id :: WritesTo(st, e, id) ==> Allows(role, id)
      modifies this
      ensures Inv(st) && st == Apply(old(st), e) && trace == old(trace) + [e] && st.clock == old(st.clock)
      ensures pid in st.calls && st.calls == old(st.calls)[pid := st.calls[pid]]
      ensures Progress(old(st), st, old(trace), trace, first, role)
    {
      hide Inv, Progress;
      OneStep(st, e, trace, first, role);
      CallsMove(st, e);
      st := Apply(st, e);
      trace := trace + [e];
    }
  }

  lemma NotMine(s: State, e: Event, first: nat)
    requires Enabled(s, e) && !IsMine(e, first)
    ensures Mine(Apply(s, e), first) == Mine(s, first)
  {
    CallsMove(s, e);
    hide Apply, Enabled;
  }
}
