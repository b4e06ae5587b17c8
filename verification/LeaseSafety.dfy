/**
 What the lease machine guarantees over whole histories: exclusion, no return of a
 superseded acquisition, and the order of fenced checkpoint writes.
*/
module LeaseSafety {
  import opened Lease
  import opened Options

  lemma InitOk(s: State)
    requires Init(s)
    ensures Inv(s)
  {
  }

  /** The invariant and the forward relation hold along every run. */
  lemma {:induction false} RunKeeps(s: State, es: seq<Event>, t: State)
    requires Inv(s) && Reaches(s, es, t)
    ensures Inv(t) && Extends(s.core, t.core)
    decreases |es|
  {
    if es == [] {
      ExtendsRefl(s.core);
    } else {
      ApplyKeeps(s, es[0]);
      RunKeeps(Apply(s, es[0]), es[1..], t);
      ExtendsTransitive(s.core, Apply(s, es[0]).core, t.core);
    }
  }

  lemma ReachableOk(s: State)
    requires Reachable(s)
    ensures Inv(s)
  {
    var s0: State, es :| Init(s0) && Reaches(s0, es, s);
    InitOk(s0);
    RunKeeps(s0, es, s);
  }

  // ------------------------------------------------------------ exclusion

  /** An acquisition is added only over an absent, unparseable, tombstoned or expired record. */
  lemma TakeoverOnlyLapsed(s: State, e: Event)
    requires Reachable(s) && Enabled(s, e) && Apply(s, e).core.order != s.core.order
    ensures s.core.lock.None? || Lapsed(s.core.lock.value, s.core.clock)
  {
    ReachableOk(s);
    assert OpOk(s.core, s.ops[e.pid]);
  }

  /** The handle's record is in the store, fresh, and the newest acquisition. */
  ghost predicate Owner(s: Core, h: Handle) {
    Names(s.lock, h) && Fresh(s.lock.value.rec, s.clock) && |s.order| > 0 && h.token == s.order[|s.order| - 1]
  }

  /**
   ownsLease decides on a copy read earlier. Whenever it says yes, the handle owns the
   lease at the moment of the verdict, not only at the read, unless it has itself released.
  */
  lemma VerdictMeansOwner(s: State, pid: nat)
    requires Reachable(s) && pid in s.ops && s.ops[pid].OwnsJudge? && Judges(s.core, s.ops[pid])
    ensures Owner(s.core, s.ops[pid].h) || s.ops[pid].h.token in s.core.released
  {
    ReachableOk(s);
    assert OpOk(s.core, s.ops[pid]);
  }

  /** At most one handle that has not released passes ownsLease at any moment. */
  lemma Exclusion(s: State, p: nat, q: nat)
    requires Reachable(s)
    requires p in s.ops && s.ops[p].OwnsJudge? && Judges(s.core, s.ops[p])
    requires q in s.ops && s.ops[q].OwnsJudge? && Judges(s.core, s.ops[q])
    ensures s.ops[p].h == s.ops[q].h || s.ops[p].h.token in s.core.released || s.ops[q].h.token in s.core.released
  {
    VerdictMeansOwner(s, p);
    VerdictMeansOwner(s, q);
  }

  /**
   An acquire whose record landed reports success exactly if its stopwatch shows less than the TTL
   without a quarter, and otherwise goes on to release it. When it is about to report success its
   handle owns the lease exactly when its record has not expired; a gap of at most a quarter of the
   TTL between stamping the record and starting the stopwatch is enough, since the check covers the rest.
  */
  lemma SuccessMeansOwner(s: State, pid: nat)
    requires Reachable(s) && pid in s.ops && s.ops[pid].Confirm?
    ensures var op := s.ops[pid];
      if s.core.clock - op.start < s.core.ttl - s.core.ttl / 4 then
        && Local(s.core, op) == Done(Won(op.h))
        && (Owner(s.core, op.h) <==> Fresh(op.rec, s.core.clock))
        && (op.start - (op.rec.expires - s.core.ttl) <= s.core.ttl / 4 ==> Owner(s.core, op.h))
      else Local(s.core, op) == ReleaseLook(op.h, true)
  {
    ReachableOk(s);
    assert OpOk(s.core, s.ops[pid]);
  }

  // ------------------------------------------------------------ no way back

  /** An acquisition that landed once and is no longer what the store names. */
  ghost predicate Superseded(s: Core, k: Token) {
    k in s.order && !Carries(s.lock, k)
  }

  /** Checks begun after the moment `base` describes read someone else's record. */
  ghost predicate BlindSince(base: set<nat>, t: State, k: Token) {
    forall p :: p in t.ops && p !in base && t.ops[p].OwnsJudge? && t.ops[p].h.token == k ==> t.ops[p].cur.token != k
  }

  lemma BlindStep(base: set<nat>, s: State, e: Event, k: Token)
    requires Inv(s) && Enabled(s, e) && Superseded(s.core, k) && BlindSince(base, s, k)
    ensures Superseded(Apply(s, e).core, k) && BlindSince(base, Apply(s, e), k)
  {
    hide Inv, KeepsOrLapsed;
    var u := Apply(s, e);
    ApplyKeeps(s, e);
    assert k in u.core.order;
    forall p | p in u.ops && p !in base && u.ops[p].OwnsJudge? && u.ops[p].h.token == k
      ensures u.ops[p].cur.token != k
    {
      if p in s.ops && u.ops[p] != s.ops[p] {
        assert e == Next(p) && s.ops[p].OwnsLook?;
      }
    }
  }

  lemma {:induction false} BlindRun(base: set<nat>, s: State, es: seq<Event>, t: State, k: Token)
    requires Inv(s) && Reaches(s, es, t) && Superseded(s.core, k) && BlindSince(base, s, k)
    ensures Superseded(t.core, k) && BlindSince(base, t, k)
    decreases |es|
  {
    if es == [] {
    } else {
      BlindStep(base, s, es[0], k);
      ApplyKeeps(s, es[0]);
      BlindRun(base, Apply(s, es[0]), es[1..], t, k);
    }
  }

  /**
   A superseded acquisition never owns again: in every later state the store does not name
   it, and a yes can only come from a check already in flight for a handle that gave the
   lease up itself.
  */
  lemma SupersededNeverOwns(s: State, es: seq<Event>, t: State, k: Token)
    requires Reachable(s) && Superseded(s.core, k) && Reaches(s, es, t)
    ensures Superseded(t.core, k)
    ensures forall p :: p in t.ops && t.ops[p].OwnsJudge? && t.ops[p].h.token == k && Judges(t.core, t.ops[p]) ==>
              p in s.ops && k in t.core.released
  {
    ReachableOk(s);
    BlindRun(s.ops.Keys, s, es, t, k);
    RunKeeps(s, es, t);
    forall p | p in t.ops && t.ops[p].OwnsJudge? && t.ops[p].h.token == k && Judges(t.core, t.ops[p])
      ensures p in s.ops && k in t.core.released
    {
      assert OpOk(t.core, t.ops[p]);
    }
  }

  /** A renew or release of acquisition `k`, answered or not. */
  predicate RewritesFor(op: Op, k: Token) {
    || ((op.RenewSwap? || op.ReleaseSwap?) && op.h.token == k)
    || (op.Stray? && op.write.Swap? && !op.write.kind.Takeover? && op.write.expected.Record?
        && op.write.expected.rec.token == k)
  }

  /** Its late renew or release leaves the successor's record as it is, however late it lands. */
  lemma SupersededLeavesAlone(s: State, es: seq<Event>, t: State, k: Token, e: Event)
    requires Reachable(s) && Superseded(s.core, k) && Reaches(s, es, t)
    requires Enabled(t, e) && (e.Next? || e.Late?) && RewritesFor(t.ops[e.pid], k)
    ensures Apply(t, e).core == t.core
  {
    ReachableOk(s);
    RunKeeps(s, es, t);
    assert OpOk(t.core, t.ops[e.pid]);
  }

  // ------------------------------------------------------------ fencing

  /**
   With a fence-capable store the checkpoint writes that land are ordered by acquisition:
   a later write never belongs to an earlier acquisition.
  */
  lemma FencedInOrder(s: State, i: nat, j: nat, a: nat, b: nat)
    requires Reachable(s) && s.core.fenceCapable
    requires i < j < |s.core.saves| && a < |s.core.order| && b < |s.core.order|
    requires s.core.order[a] == s.core.saves[i].token && s.core.order[b] == s.core.saves[j].token
    ensures a <= b
  {
    ReachableOk(s);
    assert s.core.saves[i].epoch <= s.core.saves[j].epoch;
    assert a == s.core.saves[i].epoch - 1;
    assert b == s.core.saves[j].epoch - 1;
  }

  /** Once a later acquisition has landed, no save or clear of an earlier one takes effect. */
  lemma FencedAfterSuccession(s: State, es: seq<Event>, t: State, k: Token)
    requires Reachable(s) && s.core.fenceCapable && Reaches(s, es, t)
    requires k in s.core.order && k != s.core.order[|s.core.order| - 1]
    ensures s.core.saves <= t.core.saves
    ensures forall i :: |s.core.saves| <= i < |t.core.saves| ==> t.core.saves[i].token != k
  {
    ReachableOk(s);
    RunKeeps(s, es, t);
    var a :| 0 <= a < |s.core.order| && s.core.order[a] == k;
    forall i | |s.core.saves| <= i < |t.core.saves| ensures t.core.saves[i].token != k {
      var epoch := t.core.saves[i].epoch;
      assert |s.core.order| <= epoch;
      assert t.core.order[a] == k;
    }
  }

  // ------------------------------------------------------------ without a fence

  /** A checkpoint write that goes out after a local ownership check. */
  predicate PlainSave(op: Op, h: Handle) {
    (op.Checkpoint? && !op.fenced && op.h == h) || (op.Stray? && op.write.PutPlain? && op.write.writer == h)
  }

  /** Somewhere along the run, in state `u`, the call `pid` was told that `h` owns the lease. */
  ghost predicate CheckedAt(s: State, es: seq<Event>, n: nat, u: State, pid: nat, h: Handle) {
    && n < |es| && Reaches(s, es[..n], u) && es[n] == Next(pid)
    && pid in u.ops && u.ops[pid].OwnsJudge? && u.ops[pid].h == h && Judges(u.core, u.ops[pid])
  }

  lemma {:induction false} PlainSaveRun(s: State, es: seq<Event>, t: State, pid: nat, h: Handle)
    requires Reaches(s, es, t) && !s.core.fenceCapable && pid in t.ops && PlainSave(t.ops[pid], h)
    ensures (pid in s.ops && PlainSave(s.ops[pid], h)) || exists n: nat, u :: CheckedAt(s, es, n, u, pid, h)
    decreases |es|
  {
    if es == [] {
    } else {
      var s1 := Apply(s, es[0]);
      PlainSaveRun(s1, es[1..], t, pid, h);
      if pid in s1.ops && PlainSave(s1.ops[pid], h) {
        if !(pid in s.ops && PlainSave(s.ops[pid], h)) {
          assert CheckedAt(s, es, 0, s, pid, h);
        }
      } else {
        var n: nat, u :| CheckedAt(s1, es[1..], n, u, pid, h);
        assert es[..n + 1] == [es[0]] + es[1..][..n];
        assert es[..n + 1][1..] == es[1..][..n];
        assert CheckedAt(s, es, n + 1, u, pid, h);
      }
    }
  }

  /**
   Without atomic fencing a checkpoint write is only known to follow a moment at which its
   acquisition owned the lease, or had itself just given it up.
  */
  lemma PlainSaveWasOwner(s0: State, es: seq<Event>, t: State, pid: nat, h: Handle)
    requires Init(s0) && Reaches(s0, es, t) && !s0.core.fenceCapable && pid in t.ops && PlainSave(t.ops[pid], h)
    ensures exists n: nat, u :: CheckedAt(s0, es, n, u, pid, h) && (Owner(u.core, h) || h.token in u.core.released)
  {
    PlainSaveRun(s0, es, t, pid, h);
    var n: nat, u :| CheckedAt(s0, es, n, u, pid, h);
    assert Reachable(u);
    VerdictMeansOwner(u, pid);
  }

  // ------------------------------------------------------------ witness runs

  lemma {:induction false} Snoc(s: State, es: seq<Event>, t: State, e: Event)
    requires Reaches(s, es, t) && Enabled(t, e)
    ensures Reaches(s, es + [e], Apply(t, e))
    decreases |es|
  {
    if es == [] {
      assert ([e])[1..] == [];
    } else {
      Snoc(Apply(s, es[0]), es[1..], t, e);
      assert (es + [e])[1..] == es[1..] + [e];
    }
  }

  lemma ReachableStep(s: State, e: Event) returns (t: State)
    requires Reachable(s) && Enabled(s, e)
    ensures t == Apply(s, e) && Reachable(t)
  {
    hide Enabled, Apply;
    var s0: State, es :| Init(s0) && Reaches(s0, es, s);
    Snoc(s0, es, s, e);
    t := Apply(s, e);
  }

  /** Begin an unfenced save on the handle that call `won` returned. */
  lemma BeginPlainSave(s: State, pid: nat, won: nat, value: string) returns (t: State)
    requires Reachable(s) && !s.core.fenceCapable && pid !in s.ops
    requires won in s.ops && s.ops[won].Done? && s.ops[won].answer.Won?
    ensures Reachable(t) && t == State(s.core, s.ops[pid := OwnsLook(s.ops[won].answer.h, Some(Some(value)))])
  {
    hide Reachable, Reaches, Init;
    assert IsHandle(s, s.ops[won].answer.h);
    t := ReachableStep(s, BeginSave(pid, s.ops[won].answer.h, Some(value)));
  }

  const START := State(Core(40, false, {}, 0, None, {}, [], {}, []), map[])
  const HA := Handle("a", "ka")
  const HB := Handle("b", "kb")

  /** Replica a stamps its record ... */
  lemma AStamps() returns (s: State)
    ensures Reachable(s)
    ensures s.core == START.core.(used := {"ka"}) && s.ops == map[0 := Stamped(HA, LockRec("a", "ka", 40))]
  {
    assert Reaches(START, [], START);
    hide Reachable, Reaches, Init;
    s := ReachableStep(START, BeginAcquire(0, "a", "ka"));
  }

  /** ... and wins the lease. */
  lemma AWins() returns (s: State)
    ensures Reachable(s)
    ensures s.core == START.core.(lock := Some(Record(LockRec("a", "ka", 40))), used := {"ka"}, order := ["ka"])
    ensures s.ops == map[0 := Done(Won(HA))]
  {
    hide Reachable, Reaches, Init;
    s := AStamps();
    s := ReachableStep(s, Next(0));
    s := ReachableStep(s, Next(0));
    s := ReachableStep(s, Next(0));
  }

  /** It checks its lease before a save, and then stalls past the TTL. */
  lemma AStalls() returns (s: State)
    ensures Reachable(s)
    ensures s.core ==
        START.core.(lock := Some(Record(LockRec("a", "ka", 40))), used := {"ka"}, order := ["ka"], clock := 40)
    ensures s.ops == map[0 := Done(Won(HA)), 1 := Checkpoint(HA, Some("old"), false)]
  {
    hide Reachable, Reaches, Init;
    s := AWins();
    s := BeginPlainSave(s, 1, 0, "old");
    s := ReachableStep(s, Next(1));
    s := ReachableStep(s, Next(1));
    s := ReachableStep(s, Tick(40));
  }

  /** Replica b finds the lapsed record ... */
  lemma BLooks() returns (s: State)
    ensures Reachable(s)
    ensures s.core == START.core.(lock := Some(Record(LockRec("a", "ka", 40))), used := {"ka", "kb"}, order := ["ka"],
        clock := 40)
    ensures s.ops == map[0 := Done(Won(HA)), 1 := Checkpoint(HA, Some("old"), false),
                         2 := Look(HB, LockRec("b", "kb", 80), 40)]
  {
    hide Reachable, Reaches, Init;
    s := AStalls();
    s := ReachableStep(s, BeginAcquire(2, "b", "kb"));
    s := ReachableStep(s, Next(2));
    s := ReachableStep(s, Next(2));
  }

  /** ... and takes it over. */
  lemma BTakesOver() returns (s: State)
    ensures Reachable(s)
    ensures s.core == START.core.(lock := Some(Record(LockRec("b", "kb", 80))), used := {"ka", "kb"},
                                  order := ["ka", "kb"], clock := 40)
    ensures 1 in s.ops && s.ops[1] == Checkpoint(HA, Some("old"), false)
    ensures 2 in s.ops && s.ops[2] == Done(Won(HB)) && 3 !in s.ops
  {
    hide Reachable, Reaches, Init;
    s := BLooks();
    s := ReachableStep(s, Next(2));
    s := ReachableStep(s, Next(2));
    s := ReachableStep(s, Next(2));
    s := ReachableStep(s, Next(2));
  }

  /** It checks its own lease ... */
  lemma BChecks() returns (s: State)
    ensures Reachable(s)
    ensures !s.core.fenceCapable && s.core.order == ["ka", "kb"] && s.core.saves == []
    ensures 1 in s.ops && s.ops[1] == Checkpoint(HA, Some("old"), false)
    ensures 3 in s.ops && s.ops[3] == Checkpoint(HB, Some("new"), false)
  {
    hide Reachable, Reaches, Init;
    s := BTakesOver();
    s := BeginPlainSave(s, 3, 2, "new");
    s := ReachableStep(s, Next(3));
    s := ReachableStep(s, Next(3));
  }

  /**
   The window a check leaves open: an acquisition that was overtaken after its check
   overwrites the checkpoint of its successor.
  */
  lemma UnfencedOvertaken()
    ensures exists s :: Reachable(s) && !s.core.fenceCapable && s.core.order == ["ka", "kb"]
              && |s.core.saves| == 2 && s.core.saves[0].token == "kb" && s.core.saves[1].token == "ka"
  {
    hide Reachable, Reaches, Init;
    var s := BChecks();
    s := ReachableStep(s, Next(3));
    s := ReachableStep(s, Next(1));
  }

  /** The margin check runs from `start`, so a stall before it is not seen: success on a dead lease. */
  lemma SuccessOnExpiredLease()
    ensures exists s, pid :: Reachable(s) && pid in s.ops && s.ops[pid].Confirm?
              && Local(s.core, s.ops[pid]) == Done(Won(s.ops[pid].h)) && !Owner(s.core, s.ops[pid].h)
  {
    hide Reachable, Reaches, Init;
    var s := AStamps();
    s := ReachableStep(s, Tick(40));
    s := ReachableStep(s, Next(0));
    s := ReachableStep(s, Next(0));
    assert s.ops[0].Confirm?;
  }
}
