/**
 A run's bounded output log (internal/mcpserver/runlog.go) and the secret-aware cuts it is built on
 (SafeCut, SafeCutForward, Redact in internal/features/auth/resolver.go). Output is a byte string;
 the registered secrets are a list, in registration order.
*/
module RunLog {
  import opened Options

  const RING_MAX := 0x1_0000

  // ------------------------------------------------------------ occurrences and clear cuts

  predicate OccursAt(s: string, secret: string, i: int) {
    0 <= i <= i + |secret| <= |s| && s[i..i + |secret|] == secret
  }

  predicate Inside(secret: string, i: int, cut: int) { i < cut < i + |secret| }

  /** Cutting s at cut divides no occurrence of a secret. */
  ghost predicate Clear(s: string, secrets: seq<string>, cut: int) {
    forall k: nat, i :: k < |secrets| && OccursAt(s, secrets[k], i) ==> !Inside(secrets[k], i, cut)
  }

  /** The largest clear index up to cut. */
  ghost predicate IsSafeCut(s: string, secrets: seq<string>, cut: int, r: int) {
    0 <= r <= cut && Clear(s, secrets, r) && forall k :: r < k <= cut ==> !Clear(s, secrets, k)
  }

  /** The smallest clear index from cut on. */
  ghost predicate IsSafeCutForward(s: string, secrets: seq<string>, cut: int, r: int) {
    cut <= r <= |s| && Clear(s, secrets, r) && forall k :: cut <= k < r ==> !Clear(s, secrets, k)
  }

  /** An occurrence is one in any window that holds it. */
  lemma InWindow(s: string, sub: string, lo: nat, hi: nat, i: int)
    requires lo <= i <= i + |sub| <= hi <= |s|
    ensures OccursAt(s, sub, i) <==> OccursAt(s[lo..hi], sub, i - lo)
  {
    var w := s[lo..hi];
    var u, v := w[i - lo..i - lo + |sub|], s[i..i + |sub|];
    assert |u| == |v| && forall k :: 0 <= k < |v| ==> u[k] == v[k];
    assert u == v;
  }

  lemma InTail(s: string, sub: string)
    requires s != []
    ensures forall i :: i > 0 ==> (OccursAt(s, sub, i) <==> OccursAt(s[1..], sub, i - 1))
  {
    forall i | i > 0 ensures OccursAt(s, sub, i) <==> OccursAt(s[1..], sub, i - 1) {
      assert s[1..|s|] == s[1..];
      if i + |sub| <= |s| { InWindow(s, sub, 1, |s|, i); }
    }
  }

  /** strings.Index: where sub first occurs. */
  function Index(s: string, sub: string): (r: Option<nat>)
    ensures r.Some? ==> OccursAt(s, sub, r.value)
    ensures r.Some? ==> forall i :: 0 <= i < r.value ==> !OccursAt(s, sub, i)
    ensures r.None? ==> forall i :: !OccursAt(s, sub, i)
    decreases |s|
  {
    if |sub| <= |s| && s[..|sub|] == sub then
      assert s[0..0 + |sub|] == sub;
      Some(0)
    else if s == [] then None
    else
      InTail(s, sub);
      var r := Index(s[1..], sub);
      assert !OccursAt(s, sub, 0);
      assert forall i :: i > 0 ==> (OccursAt(s, sub, i) <==> OccursAt(s[1..], sub, i - 1));
      if r.None? then None else Some(r.value + 1)
  }

  /** An occurrence of secret that cut falls inside, if there is one. */
  method FindDivided(s: string, secret: string, cut: nat) returns (r: Option<nat>)
    requires cut <= |s| && |secret| >= 2
    ensures r.Some? ==> OccursAt(s, secret, r.value) && Inside(secret, r.value, cut)
    ensures r.None? ==> forall i :: OccursAt(s, secret, i) ==> !Inside(secret, i, cut)
  {
    var n := |secret|;
    var lo := if cut - n + 1 < 0 then 0 else cut - n + 1;
    var hi := if cut + n - 1 > |s| then |s| else cut + n - 1;
    var j := Index(s[lo..hi], secret);
    if j.None? {
      forall i | lo <= i <= i + n <= hi ensures !OccursAt(s, secret, i) { InWindow(s, secret, lo, hi, i); }
      return None;
    }
    // The window is so tight that cut falls inside every occurrence in it: the search never goes on.
    assert OccursAt(s[lo..hi], secret, j.value) && lo + j.value + n <= hi;
    InWindow(s, secret, lo, hi, lo + j.value);
    r := Some(lo + j.value);
  }

  /** Moves cut off every secret it divides, to the start of it or, forward, to its end. */
  method AdjustCut(s: string, secrets: seq<string>, start: nat, forward: bool) returns (cut: nat)
    requires start <= |s|
    ensures !forward ==> IsSafeCut(s, secrets, start, cut)
    ensures forward ==> IsSafeCutForward(s, secrets, start, cut)
  {
    cut := start;
    var moved := true;
    while moved
      invariant cut <= |s| && (if forward then start <= cut else cut <= start)
      invariant forall k :: (if forward then start <= k < cut else cut < k <= start) ==> !Clear(s, secrets, k)
      invariant !moved ==> Clear(s, secrets, cut)
      decreases if forward then |s| - cut else cut, moved
    {
      moved := false;
      ghost var before := cut;
      for j := 0 to |secrets|
        invariant cut <= |s| && (if forward then start <= before <= cut else cut <= before <= start)
        invariant moved <==> cut != before
        invariant forall k :: (if forward then start <= k < cut else cut < k <= start) ==> !Clear(s, secrets, k)
        invariant !moved ==> forall m: nat, i :: m < j && OccursAt(s, secrets[m], i) ==> !Inside(secrets[m], i, cut)
      {
        if |secrets[j]| < 2 { continue; }
        var r := FindDivided(s, secrets[j], cut);
        if r.Some? {
          Divided(s, secrets, j, r.value, cut, forward);
          cut := if forward then r.value + |secrets[j]| else r.value;
          moved := true;
        }
      }
    }
  }

  /** Nowhere inside an occurrence is a clear cut. */
  lemma Divided(s: string, secrets: seq<string>, j: nat, i: nat, cut: nat, forward: bool)
    requires j < |secrets| && OccursAt(s, secrets[j], i) && Inside(secrets[j], i, cut)
    ensures forall k :: Inside(secrets[j], i, k) ==> !Clear(s, secrets, k)
  {
  }

  method FindSafeCut(s: string, secrets: seq<string>, cut: int) returns (r: nat)
    ensures IsSafeCut(s, secrets, if cut <= 0 then 0 else if cut > |s| then |s| else cut, r)
  {
    if cut <= 0 { return 0; }
    r := AdjustCut(s, secrets, if cut > |s| then |s| else cut, false);
  }

  method FindSafeCutForward(s: string, secrets: seq<string>, cut: int) returns (r: nat)
    ensures IsSafeCutForward(s, secrets, if cut < 0 then 0 else if cut >= |s| then |s| else cut, r)
  {
    if cut >= |s| {
      return |s|;
    }
    r := AdjustCut(s, secrets, if cut < 0 then 0 else cut, true);
  }

  // ------------------------------------------------------------ redaction

  const MASK := "[REDACTED]"

  /** The length of the first registered secret that s begins with. */
  function Match(s: string, secrets: seq<string>): (r: Option<nat>)
    ensures r.Some? ==> 0 < r.value <= |s|
  {
    if secrets == [] then None
    else if secrets[0] != "" && |secrets[0]| <= |s| && s[..|secrets[0]|] == secrets[0] then Some(|secrets[0]|)
    else Match(s, secrets[1..])
  }

  /** How many bytes the replacer takes at once, and what it puts for them. */
  function Width(s: string, secrets: seq<string>): (n: nat)
    requires s != []
    ensures 0 < n <= |s|
  {
    if Match(s, secrets).Some? then Match(s, secrets).value else 1
  }

  function Shown(s: string, secrets: seq<string>): string
    requires s != []
  {
    if Match(s, secrets).Some? then MASK else [s[0]]
  }

  /** The replacer: secrets are masked from the left, the first registered one winning. */
  function Redact(s: string, secrets: seq<string>): string
    decreases |s|
  {
    if s == [] then [] else Shown(s, secrets) + Redact(s[Width(s, secrets)..], secrets)
  }

  // ------------------------------------------------------------ what redaction does

  /** A registered secret, other than the empty one, occurs at i. */
  predicate Hits(s: string, secrets: seq<string>, i: int) {
    exists k :: 0 <= k < |secrets| && secrets[k] != "" && OccursAt(s, secrets[k], i)
  }

  /** It is the first registered of those that occur at i. */
  predicate FirstAt(s: string, secrets: seq<string>, i: int, k: int) {
    && 0 <= k < |secrets| && secrets[k] != "" && OccursAt(s, secrets[k], i)
    && forall j :: 0 <= j < k && secrets[j] != "" ==> !OccursAt(s, secrets[j], i)
  }

  lemma {:induction false} MatchNone(s: string, secrets: seq<string>)
    requires !Hits(s, secrets, 0)
    ensures Match(s, secrets).None?
    decreases |secrets|
  {
    if secrets == [] {
    } else {
      var first := secrets[0];
      if |first| <= |s| { assert s[0..0 + |first|] == s[..|first|]; }
      assert first == "" || !OccursAt(s, first, 0);
      forall k | 0 <= k < |secrets[1..]| && secrets[1..][k] != "" ensures !OccursAt(s, secrets[1..][k], 0) {
        assert secrets[k + 1] == secrets[1..][k];
      }
      MatchNone(s, secrets[1..]);
    }
  }

  lemma {:induction false} MatchFirst(s: string, secrets: seq<string>, k: nat)
    requires FirstAt(s, secrets, 0, k)
    ensures Match(s, secrets) == Some(|secrets[k]|)
    decreases k
  {
    var first := secrets[0];
    if |first| <= |s| { assert s[0..0 + |first|] == s[..|first|]; }
    if k == 0 {
    } else {
      assert first == "" || !OccursAt(s, first, 0);
      assert secrets[1..][k - 1] == secrets[k];
      forall j | 0 <= j < k - 1 && secrets[1..][j] != "" ensures !OccursAt(s, secrets[1..][j], 0) {
        assert secrets[j + 1] == secrets[1..][j];
      }
      MatchFirst(s, secrets[1..], k - 1);
    }
  }

  /** An occurrence later in the text is one in what follows the first byte. */
  lemma HitsInTail(s: string, secrets: seq<string>)
    requires s != []
    ensures forall i :: i > 0 ==> (Hits(s, secrets, i) <==> Hits(s[1..], secrets, i - 1))
  {
    forall i | i > 0 ensures Hits(s, secrets, i) <==> Hits(s[1..], secrets, i - 1) {
      forall k | 0 <= k < |secrets| ensures OccursAt(s, secrets[k], i) <==> OccursAt(s[1..], secrets[k], i - 1) {
        InTail(s, secrets[k]);
      }
    }
  }

  /** One byte on, before the first occurrence. */
  lemma ShowsByte(s: string, secrets: seq<string>)
    requires s != [] && !Hits(s, secrets, 0)
    ensures Redact(s, secrets) == [s[0]] + Redact(s[1..], secrets)
  {
    MatchNone(s, secrets);
  }

  /** Text in which no registered secret occurs is shown as it is. */
  lemma {:induction false} RedactPlain(s: string, secrets: seq<string>)
    requires forall i :: !Hits(s, secrets, i)
    ensures Redact(s, secrets) == s
    decreases |s|
  {
    hide Hits;
    if s == [] {
    } else {
      ShowsByte(s, secrets);
      HitsInTail(s, secrets);
      forall i ensures !Hits(s[1..], secrets, i) {
        if i >= 0 { assert !Hits(s, secrets, i + 1); } else { NoneBefore(s[1..], secrets, i); }
      }
      RedactPlain(s[1..], secrets);
    }
  }

  lemma NoneBefore(s: string, secrets: seq<string>, i: int)
    requires i < 0
    ensures !Hits(s, secrets, i)
  {
  }

  lemma MasksHere(s: string, secrets: seq<string>, k: nat)
    requires FirstAt(s, secrets, 0, k)
    ensures |secrets[k]| <= |s| && Redact(s, secrets) == "[REDACTED]" + Redact(s[|secrets[k]|..], secrets)
  {
    MatchFirst(s, secrets, k);
  }

  lemma FirstInTail(s: string, secrets: seq<string>, i: nat, k: nat)
    requires i > 0 && FirstAt(s, secrets, i, k)
    ensures FirstAt(s[1..], secrets, i - 1, k) && i + |secrets[k]| <= |s|
  {
    forall m | 0 <= m < |secrets| ensures OccursAt(s, secrets[m], i) <==> OccursAt(s[1..], secrets[m], i - 1) {
      InTail(s, secrets[m]);
    }
  }

  /**
   Otherwise all is shown up to the first place where a registered secret occurs, whichever of the
   list it is; of those that occur there the first registered is masked, and redaction goes on behind it.
  */
  lemma {:induction false} RedactMasks(s: string, secrets: seq<string>, i: nat, k: nat)
    requires FirstAt(s, secrets, i, k) && forall j :: 0 <= j < i ==> !Hits(s, secrets, j)
    ensures i + |secrets[k]| <= |s|
    ensures Redact(s, secrets) == s[..i] + "[REDACTED]" + Redact(s[i + |secrets[k]|..], secrets)
    decreases i
  {
    hide Redact, Hits;
    if i == 0 {
      MasksHere(s, secrets, k);
      assert s[..0] == [];
    } else {
      var t := s[1..];
      FirstInTail(s, secrets, i, k);
      hide FirstAt;
      ShowsByte(s, secrets);
      HitsInTail(s, secrets);
      forall j | 0 <= j < i - 1 ensures !Hits(t, secrets, j) { assert !Hits(s, secrets, j + 1); }
      RedactMasks(t, secrets, i - 1, k);
      TailParts(s, i, i + |secrets[k]|);
      Assoc([s[0]] + t[..i - 1], "[REDACTED]", Redact(s[i + |secrets[k]|..], secrets));
    }
  }

  lemma TailParts(s: string, i: nat, n: nat)
    requires 0 < i <= n <= |s|
    ensures [s[0]] + s[1..][..i - 1] == s[..i] && s[1..][n - 1..] == s[n..]
  {
  }

  lemma {:induction false} SameMatch(s: string, secrets: seq<string>, cut: nat)
    requires 0 < cut <= |s| && Clear(s, secrets, cut)
    ensures Match(s, secrets) == Match(s[..cut], secrets)
    decreases |secrets|
  {
    if secrets == [] {
    } else {
      var first := secrets[0];
      if |first| <= |s| && s[..|first|] == first {
        assert OccursAt(s, first, 0) by { assert s[0..0 + |first|] == first; }
        assert |first| <= cut;
        assert s[..cut][..|first|] == first;
      } else if |first| <= cut {
        assert s[..cut][..|first|] == s[..|first|];
      }
      ClearOfRest(s, secrets, cut);
      SameMatch(s, secrets[1..], cut);
    }
  }

  lemma ClearOfRest(s: string, secrets: seq<string>, cut: int)
    requires secrets != [] && Clear(s, secrets, cut)
    ensures Clear(s, secrets[1..], cut)
  {
    assert forall k :: 0 <= k < |secrets[1..]| ==> secrets[1..][k] == secrets[k + 1];
  }

  lemma ClearInWindow(s: string, secrets: seq<string>, lo: nat, hi: nat, cut: int)
    requires lo <= hi <= |s| && Clear(s, secrets, cut)
    ensures Clear(s[lo..hi], secrets, cut - lo)
  {
    forall k: nat, i | k < |secrets| && OccursAt(s[lo..hi], secrets[k], i) ensures !Inside(secrets[k], i, cut - lo) {
      InWindow(s, secrets[k], lo, hi, i + lo);
    }
  }

  lemma RedactStep(s: string, secrets: seq<string>)
    requires s != []
    ensures Redact(s, secrets) == Shown(s, secrets) + Redact(s[Width(s, secrets)..], secrets)
  {
  }

  lemma SameStep(s: string, secrets: seq<string>, cut: nat)
    requires 0 < cut <= |s| && Clear(s, secrets, cut)
    ensures Width(s, secrets) == Width(s[..cut], secrets) && Shown(s, secrets) == Shown(s[..cut], secrets)
  {
    SameMatch(s, secrets, cut);
  }

  /** Cut where no secret is divided, the two parts are redacted apart. */
  lemma {:induction false} RedactSplits(s: string, secrets: seq<string>, cut: nat)
    requires cut <= |s| && Clear(s, secrets, cut)
    ensures Redact(s, secrets) == Redact(s[..cut], secrets) + Redact(s[cut..], secrets)
    decreases |s|
  {
    hide Match, Clear, Width, Shown;
    if cut == 0 {
      assert s[..0] == [] && s[0..] == s;
    } else {
      hide Redact;
      var a, b := s[..cut], s[cut..];
      SameStep(s, secrets, cut);
      RedactStep(s, secrets);
      RedactStep(a, secrets);
      var n := Width(s, secrets);
      assert s[n..|s|] == s[n..];
      ClearInWindow(s, secrets, n, |s|, cut);
      RedactSplits(s[n..], secrets, cut - n);
      assert s[n..][..cut - n] == a[n..] && s[n..][cut - n..] == b;
      Assoc(Shown(s, secrets), Redact(a[n..], secrets), Redact(b, secrets));
    }
  }

  lemma Assoc(a: string, b: string, c: string)
    ensures a + (b + c) == a + b + c
  {
  }

  function MaxLen(secrets: seq<string>): nat {
    if secrets == [] then 0
    else if |secrets[0]| > MaxLen(secrets[1..]) then |secrets[0]| else MaxLen(secrets[1..])
  }

  lemma {:induction false} LongestIs(secrets: seq<string>, k: nat)
    requires k < |secrets|
    ensures |secrets[k]| <= MaxLen(secrets)
  {
    if k == 0 {
    } else {
      LongestIs(secrets[1..], k - 1);
    }
  }

  // ------------------------------------------------------------ the log

  ghost function LargestClear(s: string, secrets: seq<string>, cut: nat): nat {
    if cut == 0 || Clear(s, secrets, cut) then cut else LargestClear(s, secrets, cut - 1)
  }

  ghost function SmallestClear(s: string, secrets: seq<string>, cut: nat): nat
    requires cut <= |s|
    decreases |s| - cut
  {
    if cut == |s| || Clear(s, secrets, cut) then cut else SmallestClear(s, secrets, cut + 1)
  }

  lemma {:induction false} LargestClearIs(s: string, secrets: seq<string>, cut: nat, r: nat)
    requires IsSafeCut(s, secrets, cut, r)
    ensures LargestClear(s, secrets, cut) == r
  {
    if r >= cut {
    } else {
      LargestClearIs(s, secrets, cut - 1, r);
    }
  }

  lemma {:induction false} LargestClearOk(s: string, secrets: seq<string>, cut: nat)
    ensures LargestClear(s, secrets, cut) <= cut && Clear(s, secrets, LargestClear(s, secrets, cut))
  {
    if cut == 0 || Clear(s, secrets, cut) {
    } else {
      LargestClearOk(s, secrets, cut - 1);
    }
  }

  lemma {:induction false} SmallestClearIs(s: string, secrets: seq<string>, cut: nat, r: nat)
    requires IsSafeCutForward(s, secrets, cut, r)
    ensures SmallestClear(s, secrets, cut) == r
    decreases |s| - cut
  {
    if cut >= r {
    } else {
      SmallestClearIs(s, secrets, cut + 1, r);
    }
  }

  lemma {:induction false} SmallestClearOk(s: string, secrets: seq<string>, cut: nat)
    requires cut <= |s|
    ensures cut <= SmallestClear(s, secrets, cut) <= |s| && Clear(s, secrets, SmallestClear(s, secrets, cut))
    decreases |s| - cut
  {
    if cut >= |s| || Clear(s, secrets, cut) {
    } else {
      SmallestClearOk(s, secrets, cut + 1);
    }
  }

  /** Everything ever written, where the retained part begins, and whether more may come. */
  datatype Log = Log(history: string, start: nat, closed: bool) {
    ghost predicate Ok() { start <= |history| <= start + RING_MAX }

    function Buf(): string
      requires start <= |history|
    {
      history[start..]
    }
  }

  /** The log after p is written: beyond 64 KiB the oldest bytes go, up to a clear cut. */
  ghost function Written(l: Log, p: string, secrets: seq<string>): Log
    requires l.Ok()
  {
    var b := l.Buf() + p;
    var drop := if |b| > RING_MAX then SmallestClear(b, secrets, |b| - RING_MAX) else 0;
    l.(history := l.history + p, start := l.start + drop)
  }

  /** What a read may look at: all of the buffer once closed, else all but a secret-length tail. */
  ghost function Settled(l: Log, secrets: seq<string>): nat
    requires l.Ok()
  {
    var margin := if l.closed then 0 else MaxLen(secrets);
    if |l.Buf()| < margin then 0 else |l.Buf()| - margin
  }

  /** How far the buffer is shown. */
  ghost function SafeRel(l: Log, secrets: seq<string>): (safe: nat)
    requires l.Ok()
    ensures safe <= Settled(l, secrets) && Clear(l.Buf(), secrets, safe)
  {
    LargestClearOk(l.Buf(), secrets, Settled(l, secrets));
    LargestClear(l.Buf(), secrets, Settled(l, secrets))
  }

  lemma SafeIs(l: Log, secrets: seq<string>, safe: nat)
    requires l.Ok() && IsSafeCut(l.Buf(), secrets, Settled(l, secrets), safe)
    ensures SafeRel(l, secrets) == safe
  {
    hide Clear, MaxLen;
    LargestClearIs(l.Buf(), secrets, Settled(l, secrets), safe);
  }

  function TrimPrefix(s: string, prefix: string): string {
    if prefix <= s then s[|prefix|..] else s
  }

  datatype Reply = Reply(text: string, next: int, dropped: bool)

  ghost function ReadFrom(l: Log, since: int, secrets: seq<string>): Reply
    requires l.Ok()
  {
    var safe := SafeRel(l, secrets);
    if since >= l.start + safe then Reply("", since, false)
    else
      var rel := if since < l.start then 0 else since - l.start;
      var ctx := if rel < MaxLen(secrets) then 0 else rel - MaxLen(secrets);
      var full := Redact(l.Buf()[ctx..safe], secrets);
      Reply(TrimPrefix(full, Redact(l.Buf()[ctx..rel], secrets)), l.start + safe, 0 < since < l.start)
  }

  class RingLog {
    var buf: string
    var written: nat
    var closed: bool
    ghost var history: string

    ghost predicate Valid()
      reads this
    {
      written == |history| && |buf| <= |history| && |buf| <= RING_MAX && buf == history[|history| - |buf|..]
    }

    ghost function View(): Log
      requires Valid()
      reads this
    {
      Log(history, |history| - |buf|, closed)
    }

    constructor ()
      ensures Valid() && View() == Log("", 0, false)
    {
      buf, written, closed, history := "", 0, false, "";
    }

    method Write(p: string, secrets: seq<string>)
      requires Valid()
      modifies this
      ensures Valid() && View() == Written(old(View()), p, secrets)
    {
      ghost var l := View();
      assert l.Buf() == buf;
      history := history + p;
      buf := buf + p;
      written := written + |p|;
      assert buf == history[|history| - |buf|..];
      if |buf| > RING_MAX {
        var drop := FindSafeCutForward(buf, secrets, |buf| - RING_MAX);
        SmallestClearIs(buf, secrets, |buf| - RING_MAX, drop);
        buf := buf[drop..];
      }
    }

    method Seal()
      requires Valid()
      modifies this
      ensures Valid() && View() == old(View()).(closed := true)
    {
      closed := true;
    }

    method Reopen()
      requires Valid()
      modifies this
      ensures Valid() && View() == old(View()).(closed := false)
    {
      closed := false;
    }

    method Read(since: int, secrets: seq<string>) returns (r: Reply)
      requires Valid()
      ensures r == ReadFrom(View(), since, secrets)
    {
      hide Redact, Clear, MaxLen, LargestClear, IsSafeCut, MASK, SafeRel, TrimPrefix;
      ghost var l := View();
      assert l.Buf() == buf;
      var margin := MaxLen(secrets);
      var start := written - |buf|;
      var safeRel: int := |buf|;
      if !closed { safeRel := safeRel - margin; }
      if safeRel < 0 { safeRel := 0; }
      var safe := FindSafeCut(buf, secrets, safeRel);
      SafeIs(l, secrets, safe);
      hide Settled;
      if since >= start + safe { return Reply("", since, false); }
      var rel := since - start;
      var dropped := false;
      if rel < 0 {
        rel := 0;
        dropped := since > 0;
      }
      var ctx := rel - margin;
      if ctx < 0 { ctx := 0; }
      var full := Redact(buf[ctx..safe], secrets);
      var prefix := Redact(buf[ctx..rel], secrets);
      r := Reply(TrimPrefix(full, prefix), start + safe, dropped);
    }
  }
}
