/**
 The per-run execution lease and the checkpoint fence that rests on it, as a state
 machine over the single store operations of every replica.

 One run's lock key is modelled; keys of different runs never meet. Any number of
 acquire, renew, release, ownership and checkpoint calls are in flight at once, each
 at its own program point, so other replicas can act between any two store calls.
 A store call whose reply is lost may land at any later moment, or never.
*/
module Lease {
  type Time = int
  type Replica = string
  type Token = string

  import opened Options

  /** One successful acquire. The replica is the one whose lock object holds the handle. */
  datatype Handle = Handle(replica: Replica, token: Token)

  /** The JSON value at the lock key; a tombstone has an empty holder and token. */
  datatype LockRec = LockRec(holder: Replica, token: Token, expires: Time)

  /** The bytes at the lock key: JSON is injective, so a record stands for its encoding. */
  datatype Raw = Record(rec: LockRec) | Garbage(bytes: string)

  /** A checkpoint save (or clear, with no value) that reached the store. */
  datatype Landed = Landed(token: Token, value: Option<string>, epoch: nat)

  datatype Kind = Takeover | Renewal | Tombstone

  /** A write on its way to the store. */
  datatype Write =
    | PutIfAbsent(rec: LockRec)
    | Swap(kind: Kind, expected: Raw, rec: LockRec)
    | PutFenced(fence: Handle, value: Option<string>)
    | PutPlain(writer: Handle, value: Option<string>)

  datatype Answer =
    | Won(h: Handle)
    | Refused(holder: Replica)
    | Failed
    | StillMine(yes: bool)
    | Released
    | Owns(yes: bool)
    | Saved(written: bool)

  /** The program point of one call in flight. */
  datatype Op =
    // acquire
    | Stamped(h: Handle, rec: LockRec)
    | Put(h: Handle, rec: LockRec, start: Time, again: bool)
    | Look(h: Handle, rec: LockRec, start: Time)
    | Judge(h: Handle, rec: LockRec, start: Time, cur: LockRec)
    | Take(h: Handle, rec: LockRec, start: Time, raw: Raw)
    | Confirm(h: Handle, rec: LockRec, start: Time)
    // renew
    | RenewLook(h: Handle)
    | RenewStamp(h: Handle, cur: LockRec)
    | RenewSwap(h: Handle, cur: LockRec, rec: LockRec)
    // release; backOut is the release inside an acquire that no longer trusts its lease
    | ReleaseLook(h: Handle, backOut: bool)
    | ReleaseStamp(h: Handle, cur: LockRec, backOut: bool)
    | ReleaseSwap(h: Handle, cur: LockRec, tomb: LockRec, backOut: bool)
    // ownsLease, alone or as the check before a checkpoint write
    | OwnsLook(h: Handle, save: Option<Option<string>>)
    | OwnsJudge(h: Handle, cur: LockRec, save: Option<Option<string>>)
    // the checkpoint write itself
    | Checkpoint(h: Handle, value: Option<string>, fenced: bool)
    // the reply was lost; the write may still land
    | Stray(write: Write)
    | Done(answer: Answer)

  /** The store and the clock, with the history the theorems speak about. */
  datatype Core = Core(
    ttl: Time,
    fenceCapable: bool,
    foreign: set<Token>,       // tokens of records older than this history
    clock: Time,
    lock: Option<Raw>,
    used: set<Token>,          // every token drawn so far
    order: seq<Token>,         // acquisitions, in the order their records landed
    released: set<Token>,      // acquisitions whose own tombstone landed
    saves: seq<Landed>         // checkpoint writes, in the order they landed
  )

  datatype State = State(core: Core, ops: map<nat, Op>)

  datatype Event =
    | Tick(elapsed: nat)
    | BeginAcquire(pid: nat, replica: Replica, token: Token)
    | BeginRenew(pid: nat, h: Handle)
    | BeginRelease(pid: nat, h: Handle)
    | BeginOwns(pid: nat, h: Handle)
    | BeginSave(pid: nat, h: Handle, value: Option<string>)
    | Next(pid: nat)           // the call takes its next step; its store call, if any, succeeds
    | Lose(pid: nat)           // the store call returns an error
    | Late(pid: nat)           // a write whose reply was lost lands after all

  // ------------------------------------------------------------ the store

  predicate Fresh(r: LockRec, now: Time) { now < r.expires }

  /** What a competing acquire may overwrite. */
  predicate Lapsed(raw: Raw, now: Time) {
    raw.Garbage? || !Fresh(raw.rec, now)
  }

  predicate Carries(lock: Option<Raw>, k: Token) {
    lock.Some? && lock.value.Record? && lock.value.rec.token == k
  }

  function LockToken(lock: Option<Raw>): Option<Token> {
    if lock.Some? && lock.value.Record? then Some(lock.value.rec.token) else None
  }

  /** Is the record at the lock key exactly this acquisition? */
  predicate Names(lock: Option<Raw>, h: Handle) {
    Carries(lock, h.token) && lock.value.rec.holder == h.replica
  }

  /** Does the store accept this write in its current state? */
  predicate Accepts(s: Core, w: Write) {
    match w
    case PutIfAbsent(_) => s.lock.None?
    case Swap(_, expected, _) => s.lock == Some(expected)
    case PutFenced(h, _) => Names(s.lock, h) && Fresh(s.lock.value.rec, s.clock)
    case PutPlain(_, _) => true
  }

  function LandSave(s: Core, h: Handle, value: Option<string>): Core {
    s.(saves := s.saves + [Landed(h.token, value, |s.order|)])
  }

  /** The store after this write reached it. */
  function Land(s: Core, w: Write): Core {
    if !Accepts(s, w) then s else
    match w
    case PutIfAbsent(rec) => s.(lock := Some(Record(rec)), order := s.order + [rec.token])
    case Swap(kind, expected, rec) =>
      var t := s.(lock := Some(Record(rec)));
      if kind.Takeover? then t.(order := s.order + [rec.token])
      else if kind.Tombstone? && expected.Record? then t.(released := s.released + {expected.rec.token})
      else t
    case PutFenced(h, value) => LandSave(s, h, value)
    case PutPlain(h, value) => LandSave(s, h, value)
  }

  // ------------------------------------------------------------ the calls

  function LeaseRec(s: Core, h: Handle): LockRec {
    LockRec(h.replica, h.token, s.clock + s.ttl)
  }

  function ConfirmMargin(ttl: Time): Time { ttl / 4 }

  /** The write the call at this program point sends, if it is at a write. */
  function Sends(op: Op): Option<Write> {
    match op
    case Put(_, rec, _, _) => Some(PutIfAbsent(rec))
    case Take(_, rec, _, raw) => Some(Swap(Takeover, raw, rec))
    case RenewSwap(_, cur, rec) => Some(Swap(Renewal, Record(cur), rec))
    case ReleaseSwap(_, cur, tomb, _) => Some(Swap(Tombstone, Record(cur), tomb))
    case Checkpoint(h, value, fenced) => Some(if fenced then PutFenced(h, value) else PutPlain(h, value))
    case _ => None
  }

  predicate AtStore(op: Op) {
    Sends(op).Some? || op.Look? || op.RenewLook? || op.ReleaseLook? || op.OwnsLook?
  }

  /** Where a call goes on from a write the store answered with `ok`. */
  function Answered(op: Op, ok: bool): Op
    requires Sends(op).Some?
  {
    match op
    case Put(h, rec, start, again) =>
      if ok then Confirm(h, rec, start)
      else if again then Done(Refused(h.replica))
      else Look(h, rec, start)
    case Take(h, rec, start, _) => if ok then Confirm(h, rec, start) else Done(Refused(h.replica))
    case RenewSwap(_, _, _) => Done(StillMine(ok))
    case ReleaseSwap(_, _, _, backOut) => Done(if backOut then Failed else Released)
    case Checkpoint(_, _, fenced) => Done(Saved(ok))
  }

  /** Where a call goes on from a read or from a purely local step. */
  function Local(s: Core, op: Op): Op {
    match op
    case Stamped(h, rec) => Put(h, rec, s.clock, false)
    case Look(h, rec, start) =>
      (match s.lock
       case None => Put(h, rec, start, true)
       case Some(Garbage(b)) => Take(h, rec, start, Garbage(b))
       case Some(Record(cur)) => Judge(h, rec, start, cur))
    case Judge(h, rec, start, cur) =>
      if Fresh(cur, s.clock) then Done(Refused(cur.holder)) else Take(h, rec, start, Record(cur))
    case Confirm(h, rec, start) =>
      if s.clock - start >= s.ttl - ConfirmMargin(s.ttl) then ReleaseLook(h, true) else Done(Won(h))
    case RenewLook(h) =>
      if Names(s.lock, h) then RenewStamp(h, s.lock.value.rec) else Done(StillMine(false))
    case RenewStamp(h, cur) => RenewSwap(h, cur, LeaseRec(s, h))
    case ReleaseLook(h, backOut) =>
      if Names(s.lock, h) then ReleaseStamp(h, s.lock.value.rec, backOut)
      else Done(if backOut then Failed else Released)
    case ReleaseStamp(h, cur, backOut) => ReleaseSwap(h, cur, LockRec("", "", s.clock - 1_000_000_000), backOut)
    case OwnsLook(h, save) =>
      if s.lock.Some? && s.lock.value.Record? then OwnsJudge(h, s.lock.value.rec, save)
      else if save.Some? then Done(Saved(false)) else Done(Owns(false))
    case OwnsJudge(h, cur, save) =>
      var owns := Judges(s, op);
      if save.None? then Done(Owns(owns))
      else if owns then Checkpoint(h, save.value, false) else Done(Saved(false))
    case _ => op
  }

  /** The verdict of ownsLease: the record read was this acquisition and is fresh by now. */
  predicate Judges(s: Core, op: Op)
    requires op.OwnsJudge?
  {
    op.cur.holder == op.h.replica && op.cur.token == op.h.token && Fresh(op.cur, s.clock)
  }

  predicate IsHandle(s: State, h: Handle) {
    exists pid :: pid in s.ops && s.ops[pid] == Done(Won(h))
  }

  predicate Enabled(s: State, e: Event) {
    match e
    case Tick(_) => true
    case BeginAcquire(pid, _, token) => pid !in s.ops && token != "" && token !in s.core.used
    case BeginRenew(pid, h) => pid !in s.ops && IsHandle(s, h)
    case BeginRelease(pid, h) => pid !in s.ops && IsHandle(s, h)
    case BeginOwns(pid, h) => pid !in s.ops && IsHandle(s, h)
    case BeginSave(pid, h, _) => pid !in s.ops && IsHandle(s, h)
    case Next(pid) => pid in s.ops && !s.ops[pid].Done? && !s.ops[pid].Stray?
    case Lose(pid) => pid in s.ops && AtStore(s.ops[pid])
    case Late(pid) => pid in s.ops && s.ops[pid].Stray?
  }

  /** The store, clock and history after the event. */
  function NextCore(s: State, e: Event): Core
    requires Enabled(s, e)
  {
    match e
    case Tick(d) => s.core.(clock := s.core.clock + d)
    case BeginAcquire(_, _, token) => s.core.(used := s.core.used + {token})
    case Next(pid) =>
      (match Sends(s.ops[pid])
       case Some(w) => Land(s.core, w)
       case None => s.core)
    case Late(pid) => Land(s.core, s.ops[pid].write)
    case _ => s.core
  }

  /** The program point the event moves its call to. */
  function NextOp(s: State, e: Event): Op
    requires Enabled(s, e) && !e.Tick?
  {
    match e
    case BeginAcquire(pid, replica, token) =>
      var h := Handle(replica, token);
      Stamped(h, LeaseRec(s.core, h))
    case BeginRenew(pid, h) => RenewLook(h)
    case BeginRelease(pid, h) => ReleaseLook(h, false)
    case BeginOwns(pid, h) => OwnsLook(h, None)
    case BeginSave(pid, h, value) =>
      if s.core.fenceCapable then Checkpoint(h, value, true) else OwnsLook(h, Some(value))
    case Next(pid) =>
      (match Sends(s.ops[pid])
       case Some(w) => Answered(s.ops[pid], Accepts(s.core, w))
       case None => Local(s.core, s.ops[pid]))
    case Lose(pid) =>
      (match Sends(s.ops[pid])
       case Some(w) => Stray(w)
       case None => Done(Failed))
    case Late(pid) => Done(Failed)
  }

  function Apply(s: State, e: Event): State
    requires Enabled(s, e)
  {
    State(NextCore(s, e), if e.Tick? then s.ops else s.ops[e.pid := NextOp(s, e)])
  }

  ghost predicate Init(s: State) {
    && s.ops == map[]
    && s.core.ttl > 0
    && s.core.order == [] && s.core.saves == [] && s.core.released == {}
    && s.core.foreign <= s.core.used
    && (s.core.lock.Some? && s.core.lock.value.Record? ==>
          s.core.lock.value.rec.token == "" || s.core.lock.value.rec.token in s.core.foreign)
  }

  /** `t` is reached from `s` by these events. */
  ghost predicate Reaches(s: State, es: seq<Event>, t: State)
    decreases |es|
  {
    if es == [] then s == t
    else Enabled(s, es[0]) && Reaches(Apply(s, es[0]), es[1..], t)
  }

  ghost predicate Reachable(s: State) {
    exists s0: State, es: seq<Event> :: Init(s0) && Reaches(s0, es, s)
  }

  // ------------------------------------------------------------ the invariant

  /** The acquisition this call may still install. */
  function Pending(op: Op): Option<Token> {
    match op
    case Stamped(_, rec) => Some(rec.token)
    case Put(_, rec, _, _) => Some(rec.token)
    case Look(_, rec, _) => Some(rec.token)
    case Judge(_, rec, _, _) => Some(rec.token)
    case Take(_, rec, _, _) => Some(rec.token)
    case Stray(PutIfAbsent(rec)) => Some(rec.token)
    case Stray(Swap(Takeover, _, rec)) => Some(rec.token)
    case _ => None
  }

  /** While a token is in this phase of its own acquire, no other call can carry it. */
  function Exclusive(op: Op): Option<Token> {
    if op.Confirm? then Some(op.h.token) else Pending(op)
  }

  /** The acquisition a call speaks about. */
  function TokenOf(op: Op): Option<Token> {
    match op
    case Stray(PutIfAbsent(rec)) => Some(rec.token)
    case Stray(Swap(Tombstone, Record(cur), _)) => Some(cur.token)
    case Stray(Swap(_, _, rec)) => Some(rec.token)
    case Stray(PutFenced(h, _)) => Some(h.token)
    case Stray(PutPlain(h, _)) => Some(h.token)
    case Done(Won(h)) => Some(h.token)
    case Done(_) => None
    case _ => Some(op.h.token)
  }

  ghost predicate Acquired(s: Core, k: Token) { k in s.order }

  /** A token a record in the store can carry. */
  ghost predicate Known(s: Core, k: Token) { k == "" || k in s.foreign || k in s.order }

  /** A record stamped in this history expires at most one TTL from now. */
  ghost predicate Bounded(s: Core, r: LockRec) {
    Acquired(s, r.token) ==> r.expires <= s.clock + s.ttl
  }

  /**
   A copy of the record of acquisition `k` that is fresh now: the store still names `k`,
   for at least as long, unless `k` itself gave the lease up.
   */
  ghost predicate CopyHolds(s: Core, cur: LockRec) {
    Acquired(s, cur.token) && Fresh(cur, s.clock) && cur.token !in s.released ==>
      Names(s.lock, Handle(cur.holder, cur.token)) && cur.expires <= s.lock.value.rec.expires
  }

  ghost predicate WriteOk(s: Core, w: Write) {
    match w
    case PutIfAbsent(_) => true
    case Swap(Takeover, expected, _) => Lapsed(expected, s.clock)
    case Swap(Renewal, expected, rec) =>
      && expected.Record? && Acquired(s, rec.token)
      && expected.rec.token == rec.token && expected.rec.holder == rec.holder
      && expected.rec.expires <= rec.expires <= s.clock + s.ttl
    case Swap(Tombstone, expected, rec) =>
      expected.Record? && Acquired(s, expected.rec.token) && rec.token == ""
    case PutFenced(h, _) => Acquired(s, h.token)
    case PutPlain(h, _) => Acquired(s, h.token) && !s.fenceCapable
  }

  ghost predicate OpOk(s: Core, op: Op) {
    && (Pending(op).Some? ==>
          && Pending(op).value != "" && Pending(op).value in s.used
          && Pending(op).value !in s.order && Pending(op).value !in s.foreign)
    && (Sends(op).Some? ==> WriteOk(s, Sends(op).value))
    && match op
       case Stamped(h, rec) => rec.token == h.token && rec.holder == h.replica && rec.expires <= s.clock + s.ttl
       case Put(h, rec, _, _) => rec.token == h.token && rec.holder == h.replica && rec.expires <= s.clock + s.ttl
       case Look(h, rec, _) => rec.token == h.token && rec.holder == h.replica && rec.expires <= s.clock + s.ttl
       case Judge(h, rec, _, _) => rec.token == h.token && rec.holder == h.replica && rec.expires <= s.clock + s.ttl
       case Take(h, rec, _, _) => rec.token == h.token && rec.holder == h.replica && rec.expires <= s.clock + s.ttl
       case Confirm(h, rec, _) =>
         && rec.token == h.token && rec.holder == h.replica && rec.expires <= s.clock + s.ttl
         && Acquired(s, h.token) && h.token !in s.released && CopyHolds(s, rec)
         && (Carries(s.lock, h.token) ==> s.lock == Some(Record(rec)))
       case RenewLook(h) => Acquired(s, h.token)
       case RenewStamp(h, cur) => Acquired(s, h.token) && cur.token == h.token && cur.holder == h.replica
           && Bounded(s, cur)
       case RenewSwap(h, cur, rec) => rec.token == h.token
       case ReleaseLook(h, _) => Acquired(s, h.token)
       case ReleaseStamp(h, cur, _) => Acquired(s, h.token) && cur.token == h.token
       case ReleaseSwap(h, cur, _, _) => cur.token == h.token
       case OwnsLook(h, save) => Acquired(s, h.token) && (save.Some? ==> !s.fenceCapable)
       case OwnsJudge(h, cur, save) => Acquired(s, h.token) && Known(s, cur.token) && CopyHolds(s, cur)
           && (save.Some? ==> !s.fenceCapable)
       case Checkpoint(h, _, fenced) => Acquired(s, h.token) && fenced == s.fenceCapable
       case Stray(PutIfAbsent(rec)) => rec.expires <= s.clock + s.ttl
       case Stray(Swap(Takeover, raw, rec)) => rec.expires <= s.clock + s.ttl && Lapsed(raw, s.clock)
       case Stray(w) => WriteOk(s, w)
       case Done(Won(h)) => Acquired(s, h.token)
       case _ => true
  }

  ghost predicate LockOk(s: Core) {
    s.lock.Some? && s.lock.value.Record? ==>
      var r := s.lock.value.rec;
      && Known(s, r.token)
      && (r.token in s.order ==> r.token == s.order[|s.order| - 1] && r.token !in s.released)
      && Bounded(s, r)
  }

  ghost predicate OrderOk(s: Core) {
    && (forall i :: 0 <= i < |s.order| ==> s.order[i] != "" && s.order[i] in s.used && s.order[i] !in s.foreign)
    && (forall i, j :: 0 <= i < j < |s.order| ==> s.order[i] != s.order[j])
    && s.foreign <= s.used && (forall k :: k in s.released ==> k in s.order)
  }

  /** Each landed save knows how many acquisitions had landed before it. */
  ghost predicate SavesOk(s: Core) {
    && (forall i :: 0 <= i < |s.saves| ==> s.saves[i].token in s.order && 1 <= s.saves[i].epoch <= |s.order|)
    && (forall i, j :: 0 <= i < j < |s.saves| ==> s.saves[i].epoch <= s.saves[j].epoch)
    && (s.fenceCapable ==>
          forall i :: 0 <= i < |s.saves| ==> s.saves[i].token == s.order[s.saves[i].epoch - 1])
  }

  ghost predicate CoreOk(s: Core) {
    s.ttl > 0 && LockOk(s) && OrderOk(s) && SavesOk(s)
  }

  ghost predicate OpsOk(s: Core, ops: map<nat, Op>) {
    forall p :: p in ops ==> OpOk(s, ops[p])
  }

  ghost predicate InstallsDiffer(ops: map<nat, Op>) {
    forall p, q :: p in ops && q in ops && p != q && Exclusive(ops[p]).Some? ==> Exclusive(ops[p]) != TokenOf(ops[q])
  }

  ghost predicate Inv(s: State) {
    CoreOk(s.core) && OpsOk(s.core, s.ops) && InstallsDiffer(s.ops)
  }

  /**
   What any stretch of history keeps. The acquisition order and the saves only grow,
   a token that left the lock key never comes back, and a record leaves it only when it
   lapsed or its own acquisition released it.
   */
  ghost predicate Extends(s: Core, t: Core) {
    && s.clock <= t.clock && s.ttl == t.ttl && s.fenceCapable == t.fenceCapable && s.foreign == t.foreign
    && s.used <= t.used && s.order <= t.order && s.released <= t.released && s.saves <= t.saves
    && (forall i :: |s.saves| <= i < |t.saves| ==> |s.order| <= t.saves[i].epoch)
    && (forall k :: k in s.order && Carries(t.lock, k) ==> Carries(s.lock, k))
    && (s.lock.Some? && s.lock.value.Record? && s.lock.value.rec.token in s.order ==>
          KeepsOrLapsed(t, s.lock.value.rec))
  }

  ghost predicate KeepsOrLapsed(t: Core, r: LockRec) {
    || (Carries(t.lock, r.token) && r.expires <= t.lock.value.rec.expires && t.lock.value.rec.holder == r.holder)
    || !Fresh(r, t.clock)
    || r.token in t.released
  }

  lemma ExtendsRefl(s: Core)
    ensures Extends(s, s)
  {
  }

  lemma ExtendsTransitive(s: Core, t: Core, u: Core)
    requires Extends(s, t) && Extends(t, u)
    ensures Extends(s, u)
  {
    assert forall k :: k in s.order ==> k in t.order;
    if s.lock.Some? && s.lock.value.Record? && s.lock.value.rec.token in s.order {
      var r := s.lock.value.rec;
      assert KeepsOrLapsed(t, r);
      if Carries(t.lock, r.token) {
        assert KeepsOrLapsed(u, t.lock.value.rec);
      }
    }
  }

  // ------------------------------------------------------------ each step keeps it

  lemma InstallKeeps(s: Core, op: Op, w: Write)
    requires CoreOk(s) && OpOk(s, op) && Accepts(s, w)
    requires Sends(op) == Some(w) || op == Stray(w)
    requires w.PutIfAbsent? || (w.Swap? && w.kind.Takeover?)
    ensures CoreOk(Land(s, w)) && Extends(s, Land(s, w))
  {
    var t := Land(s, w);
    assert WriteOk(s, w);
    assert t.order[|s.order|] == w.rec.token == Pending(op).value;
    assert forall i :: 0 <= i < |s.order| ==> t.order[i] == s.order[i];
  }

  lemma RewriteKeeps(s: Core, op: Op, w: Write)
    requires CoreOk(s) && OpOk(s, op) && Accepts(s, w)
    requires Sends(op) == Some(w) || op == Stray(w)
    requires w.Swap? && !w.kind.Takeover?
    ensures CoreOk(Land(s, w)) && Extends(s, Land(s, w))
  {
    assert WriteOk(s, w);
  }

  lemma LandedSaveKeeps(s: Core, h: Handle, value: Option<string>)
    requires CoreOk(s) && h.token in s.order
    requires s.fenceCapable ==> h.token == s.order[|s.order| - 1]
    ensures CoreOk(LandSave(s, h, value)) && Extends(s, LandSave(s, h, value))
  {
    var t := LandSave(s, h, value);
    assert t.saves[|s.saves|] == Landed(h.token, value, |s.order|);
    assert forall i :: 0 <= i < |s.saves| ==> t.saves[i] == s.saves[i];
  }

  lemma SaveKeeps(s: Core, op: Op, w: Write)
    requires CoreOk(s) && OpOk(s, op) && Accepts(s, w)
    requires Sends(op) == Some(w) || op == Stray(w)
    requires w.PutFenced? || w.PutPlain?
    ensures CoreOk(Land(s, w)) && Extends(s, Land(s, w))
  {
    assert WriteOk(s, w);
    hide OpOk, Extends, OrderOk, SavesOk, Sends;
    LandedSaveKeeps(s, if w.PutFenced? then w.fence else w.writer, w.value);
  }

  /** A landing write moves the store forward; only a pending install adds an acquisition. */
  lemma LandKeeps(s: Core, op: Op, w: Write)
    requires CoreOk(s) && OpOk(s, op)
    requires Sends(op) == Some(w) || op == Stray(w)
    ensures CoreOk(Land(s, w)) && Extends(s, Land(s, w))
  {
    if Accepts(s, w) {
      if w.PutIfAbsent? || (w.Swap? && w.kind.Takeover?) { InstallKeeps(s, op, w); }
      else if w.Swap? { RewriteKeeps(s, op, w); }
      else { SaveKeeps(s, op, w); }
    }
  }

  /** What a landing write can add to the history. */
  ghost predicate Adds(s: Core, t: Core, op: Op) {
    && (t.order == s.order || (Pending(op).Some? && t.order == s.order + [Pending(op).value]))
    && (t.released == s.released || (TokenOf(op).Some? && t.released == s.released + {TokenOf(op).value}))
    && t.used == s.used
    && (t.lock == s.lock || Some("") == LockToken(t.lock) || LockToken(t.lock) == TokenOf(op))
  }

  lemma LandAdds(s: Core, op: Op, w: Write)
    requires CoreOk(s) && OpOk(s, op)
    requires Sends(op) == Some(w) || op == Stray(w)
    ensures Adds(s, Land(s, w), op)
  {
    assert WriteOk(s, w);
  }

  /** What a call has established stays established while the others act. */
  lemma OpOkStable(s: Core, t: Core, op: Op)
    requires CoreOk(s) && OpOk(s, op) && Extends(s, t) && OrderOk(t)
    requires Pending(op).Some? ==> Pending(op).value !in t.order
    requires op.Confirm? ==> op.h.token !in t.released && (Carries(t.lock, op.h.token) ==> t.lock == s.lock)
    ensures OpOk(t, op)
  {
    assert forall k :: k in s.order ==> k in t.order;
  }

  /** The call `pid` may move to `op` while the store moves to `t`. */
  ghost predicate Moves(s: State, t: Core, pid: nat, op: Op) {
    && OpOk(t, op) && Extends(s.core, t)
    && (pid in s.ops ==>
          && (TokenOf(op).Some? ==> TokenOf(op) == TokenOf(s.ops[pid]))
          && (Exclusive(op).Some? ==> Exclusive(s.ops[pid]).Some?)
          && Adds(s.core, t, s.ops[pid]))
    && (pid !in s.ops ==>
          && t.order == s.core.order && t.released == s.core.released && t.lock == s.core.lock
          && TokenOf(op).Some? && Fitting(s, op, TokenOf(op).value))
  }

  lemma OtherKeeps(s: State, t: Core, pid: nat, op: Op, p: nat)
    requires Inv(s) && CoreOk(t) && Moves(s, t, pid, op) && p in s.ops && p != pid
    ensures OpOk(t, s.ops[p])
  {
    hide SavesOk, LockOk;
    assert OpOk(s.core, s.ops[p]);
    OpOkStable(s.core, t, s.ops[p]);
  }

  lemma OthersKeep(s: State, t: Core, pid: nat, op: Op)
    requires Inv(s) && CoreOk(t) && Moves(s, t, pid, op)
    ensures OpsOk(t, s.ops[pid := op])
  {
    assert OpOk(t, op);
    hide CoreOk, Inv, Moves, OpOk;
    forall p | p in s.ops && p != pid ensures OpOk(t, s.ops[p]) { OtherKeeps(s, t, pid, op, p); }
  }

  /** A call in its own acquire carries the token of that acquire. */
  lemma CarriesOwn(s: State, pid: nat)
    requires Inv(s) && pid in s.ops && Exclusive(s.ops[pid]).Some?
    ensures TokenOf(s.ops[pid]) == Exclusive(s.ops[pid])
  {
    hide Extends, CoreOk, CopyHolds, Bounded;
    assert OpOk(s.core, s.ops[pid]);
  }

  /** A token nobody drew is carried by no call. */
  lemma FreshDiffers(s: State, k: Token, q: nat)
    requires Inv(s) && q in s.ops && k !in s.core.used
    ensures TokenOf(s.ops[q]) != Some(k)
  {
    hide Extends, LockOk, SavesOk, CopyHolds, Bounded;
    assert OpOk(s.core, s.ops[q]);
  }

  /** The moving call's own acquire, if it still has one, is not what call q carries. */
  lemma MoverDiffers(s: State, t: Core, pid: nat, op: Op, q: nat)
    requires Inv(s) && Moves(s, t, pid, op) && q in s.ops && q != pid && Exclusive(op).Some?
    ensures Exclusive(op) != TokenOf(s.ops[q])
  {
    hide Extends, CoreOk, OpsOk, CopyHolds, Bounded;
    if pid in s.ops {
      CarriesOwn(s, pid);
    } else {
      FreshDiffers(s, TokenOf(op).value, q);
    }
  }

  /** What the moving call carries is not another call's own acquire. */
  lemma OthersDiffer(s: State, t: Core, pid: nat, op: Op, p: nat)
    requires Inv(s) && Moves(s, t, pid, op) && p in s.ops && p != pid && Exclusive(s.ops[p]).Some?
    ensures Exclusive(s.ops[p]) != TokenOf(op)
  {
    hide Extends, LockOk, SavesOk, CopyHolds, Bounded;
    assert OpOk(s.core, s.ops[p]);
    if pid in s.ops { assert OpOk(s.core, s.ops[pid]); }
  }

  lemma InstallsKeepDiffering(s: State, t: Core, pid: nat, op: Op)
    requires Inv(s) && Moves(s, t, pid, op)
    ensures InstallsDiffer(s.ops[pid := op])
  {
    hide CoreOk, OpsOk, Moves, OpOk, Exclusive, TokenOf;
    var ops := s.ops[pid := op];
    forall p, q | p in ops && q in ops && p != q && Exclusive(ops[p]).Some?
      ensures Exclusive(ops[p]) != TokenOf(ops[q])
    {
      if p == pid { MoverDiffers(s, t, pid, op, q); }
      else if q == pid { OthersDiffer(s, t, pid, op, p); }
    }
  }

  /** One call moves, the others stay where they are. */
  lemma MoveOne(s: State, t: Core, pid: nat, op: Op)
    requires Inv(s) && CoreOk(t) && Moves(s, t, pid, op)
    ensures Inv(State(t, s.ops[pid := op]))
  {
    OthersKeep(s, t, pid, op);
    InstallsKeepDiffering(s, t, pid, op);
  }

  /** A call may begin with a token just drawn, or with the handle of a finished acquire. */
  ghost predicate Fitting(s: State, op: Op, k: Token) {
    || k !in s.core.used
    || (Exclusive(op).None? && exists p :: p in s.ops && s.ops[p].Done? && TokenOf(s.ops[p]) == Some(k))
  }

  lemma HandleAcquired(s: State, h: Handle) returns (p: nat)
    requires Inv(s) && IsHandle(s, h)
    ensures CoreOk(s.core) && Acquired(s.core, h.token)
    ensures p in s.ops && s.ops[p].Done? && TokenOf(s.ops[p]) == Some(h.token)
  {
    p :| p in s.ops && s.ops[p] == Done(Won(h));
    assert OpOk(s.core, s.ops[p]);
  }

  /** Beginning a call on a handle that some acquire returned. */
  lemma BeginKeeps(s: State, e: Event, h: Handle)
    requires Inv(s) && Enabled(s, e)
    requires (e.BeginRenew? || e.BeginRelease? || e.BeginOwns? || e.BeginSave?) && e.h == h
    ensures Inv(Apply(s, e)) && Extends(s.core, Apply(s, e).core)
  {
    hide Inv, Extends;
    ExtendsRefl(s.core);
    var p := HandleAcquired(s, h);
    var op := NextOp(s, e);
    assert Fitting(s, op, h.token);
    assert OpOk(s.core, op);
    hide OpOk, CoreOk;
    MoveOne(s, s.core, e.pid, op);
  }

  /** Beginning an acquire with a token nobody drew before. */
  lemma DrawKeeps(s: State, e: Event)
    requires Inv(s) && Enabled(s, e) && e.BeginAcquire?
    ensures Inv(Apply(s, e)) && Extends(s.core, Apply(s, e).core)
  {
    var op := NextOp(s, e);
    assert OpOk(NextCore(s, e), op);
    assert Fitting(s, op, e.token);
    MoveOne(s, NextCore(s, e), e.pid, op);
  }

  lemma LocalOk(s: Core, op: Op)
    requires CoreOk(s) && OpOk(s, op) && Sends(op).None? && !op.Done? && !op.Stray?
    ensures OpOk(s, Local(s, op))
    ensures Exclusive(Local(s, op)).Some? ==> Exclusive(op).Some?
    ensures TokenOf(Local(s, op)).Some? ==> TokenOf(Local(s, op)) == TokenOf(op)
  {
  }

  lemma AnsweredOk(s: Core, op: Op, w: Write)
    requires CoreOk(s) && OpOk(s, op) && Sends(op) == Some(w)
    ensures var a := Answered(op, Accepts(s, w));
      && OpOk(Land(s, w), a)
      && (Exclusive(a).Some? ==> Exclusive(op).Some?)
      && (TokenOf(a).Some? ==> TokenOf(a) == TokenOf(op))
  {
  }

  lemma NextKeeps(s: State, pid: nat)
    requires Inv(s) && Enabled(s, Next(pid))
    ensures Inv(Apply(s, Next(pid))) && Extends(s.core, Apply(s, Next(pid)).core)
  {
    var op := s.ops[pid];
    assert OpOk(s.core, op);
    match Sends(op)
    case Some(w) =>
      LandKeeps(s.core, op, w);
      LandAdds(s.core, op, w);
      AnsweredOk(s.core, op, w);
      MoveOne(s, Land(s.core, w), pid, Answered(op, Accepts(s.core, w)));
    case None =>
      LocalOk(s.core, op);
      MoveOne(s, s.core, pid, Local(s.core, op));
  }

  lemma LateKeeps(s: State, pid: nat)
    requires Inv(s) && Enabled(s, Late(pid))
    ensures Inv(Apply(s, Late(pid))) && Extends(s.core, Apply(s, Late(pid)).core)
  {
    hide Extends, InstallsDiffer, LockOk, OrderOk, SavesOk, Land;
    var op := s.ops[pid];
    assert OpOk(s.core, op);
    LandKeeps(s.core, op, op.write);
    LandAdds(s.core, op, op.write);
    MoveOne(s, Land(s.core, op.write), pid, Done(Failed));
  }

  lemma TickKeeps(s: State, d: nat)
    requires Inv(s)
    ensures Inv(Apply(s, Tick(d))) && Extends(s.core, Apply(s, Tick(d)).core)
  {
    var t := Apply(s, Tick(d)).core;
    forall p | p in s.ops ensures OpOk(t, s.ops[p]) {
      OpOkStable(s.core, t, s.ops[p]);
    }
  }

  lemma LoseKeeps(s: State, pid: nat)
    requires Inv(s) && Enabled(s, Lose(pid))
    ensures Inv(Apply(s, Lose(pid))) && Extends(s.core, Apply(s, Lose(pid)).core)
  {
    hide Extends, InstallsDiffer, LockOk, OrderOk, SavesOk;
    ExtendsRefl(s.core);
    assert OpOk(s.core, s.ops[pid]);
    MoveOne(s, s.core, pid, NextOp(s, Lose(pid)));
  }

  lemma ApplyKeeps(s: State, e: Event)
    requires Inv(s) && Enabled(s, e)
    ensures Inv(Apply(s, e)) && Extends(s.core, Apply(s, e).core)
  {
    hide Inv, Extends, Apply;
    match e
    case Tick(d) => TickKeeps(s, d);
    case BeginAcquire(_, _, _) => DrawKeeps(s, e);
    case Next(pid) => NextKeeps(s, pid);
    case Lose(pid) => LoseKeeps(s, pid);
    case Late(pid) => LateKeeps(s, pid);
    case _ => BeginKeeps(s, e, e.h);
  }
}
