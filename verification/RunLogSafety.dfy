/**
 What the run log guarantees over any sequence of writes, seals, reopens and polls: the cursors a
 polling reader gets, and that what it receives is the output redacted as a whole.
*/
module RunLogSafety {
  import opened RunLog
  import opened Options

  // ------------------------------------------------------------ one read

  /** The cursor divides no secret of the retained part, or lies at or before it. */
  ghost predicate ClearAt(l: Log, secrets: seq<string>, cursor: int)
    requires l.Ok()
  {
    cursor <= l.start || Clear(l.Buf(), secrets, cursor - l.start)
  }

  lemma PrefixTrims(a: string, b: string)
    ensures TrimPrefix(a + b, a) == b
  {
    assert (a + b)[..|a|] == a;
  }

  ghost function Rel(l: Log, since: int): nat { if since < l.start then 0 else since - l.start }

  /** From a clear cursor the text is exactly the redaction of the bytes up to the new cursor. */
  lemma ReadIsRedaction(l: Log, since: int, secrets: seq<string>)
    requires l.Ok() && ClearAt(l, secrets, since) && since < l.start + SafeRel(l, secrets)
    ensures Rel(l, since) <= SafeRel(l, secrets)
    ensures ReadFrom(l, since, secrets).text == Redact(l.Buf()[Rel(l, since)..SafeRel(l, secrets)], secrets)
  {
    hide Redact, SafeRel, MaxLen, TrimPrefix;
    var b, safe, rel := l.Buf(), SafeRel(l, secrets), Rel(l, since);
    var ctx := if rel < MaxLen(secrets) then 0 else rel - MaxLen(secrets);
    assert Clear(b, secrets, rel);
    hide Clear;
    ClearInWindow(b, secrets, ctx, safe, rel);
    RedactSplits(b[ctx..safe], secrets, rel - ctx);
    assert b[ctx..safe][..rel - ctx] == b[ctx..rel] && b[ctx..safe][rel - ctx..] == b[rel..safe];
    PrefixTrims(Redact(b[ctx..rel], secrets), Redact(b[rel..safe], secrets));
  }

  /**
   So the text handed out is the bytes of the range with the first registered secret found in them
   masked, whichever of the list it is, and the rest redacted likewise; with none in them, the bytes.
  */
  lemma ReadMasks(l: Log, since: int, secrets: seq<string>)
    requires l.Ok() && ClearAt(l, secrets, since) && since < l.start + SafeRel(l, secrets)
    ensures Rel(l, since) <= SafeRel(l, secrets)
    ensures var t, text := l.Buf()[Rel(l, since)..SafeRel(l, secrets)], ReadFrom(l, since, secrets).text;
      && ((forall i :: !Hits(t, secrets, i)) ==> text == t)
      && (forall i: nat, k: nat ::
            FirstAt(t, secrets, i, k) && (forall j :: 0 <= j < i ==> !Hits(t, secrets, j)) ==>
              text == t[..i] + "[REDACTED]" + Redact(t[i + |secrets[k]|..], secrets))
  {
    ReadIsRedaction(l, since, secrets);
    hide Redact, SafeRel, ReadFrom, Clear, Hits, MaxLen;
    var t := l.Buf()[Rel(l, since)..SafeRel(l, secrets)];
    if forall i :: !Hits(t, secrets, i) { RedactPlain(t, secrets); }
    forall i: nat, k: nat | FirstAt(t, secrets, i, k) && (forall j :: 0 <= j < i ==> !Hits(t, secrets, j))
      ensures Redact(t, secrets) == t[..i] + "[REDACTED]" + Redact(t[i + |secrets[k]|..], secrets)
    {
      RedactMasks(t, secrets, i, k);
    }
  }

  /** Where a read ended is clear, and while the log is open a whole secret further back than its end. */
  lemma ReadEndsClear(l: Log, since: int, secrets: seq<string>)
    requires l.Ok() && since < l.start + SafeRel(l, secrets)
    ensures var next := ReadFrom(l, since, secrets).next;
      && next == l.start + SafeRel(l, secrets) && ClearAt(l, secrets, next) && next <= |l.history|
      && (!l.closed ==> next <= l.start || next + MaxLen(secrets) <= |l.history|)
  {
    hide Redact, MaxLen, TrimPrefix;
  }

  /**
   A read reaches as far as it may: the whole of a closed log, and of an open one up to the last place
   that divides no secret and leaves room for any registered secret that may still be arriving.
  */
  lemma ReadReaches(l: Log, secrets: seq<string>)
    requires l.Ok()
    ensures l.closed || secrets == [] ==> SafeRel(l, secrets) == |l.Buf()|
    ensures !l.closed && secrets != [] ==> forall cut: nat ::
        SafeRel(l, secrets) < cut && (forall k :: 0 <= k < |secrets| ==> cut + |secrets[k]| <= |l.Buf()|) ==>
          !Clear(l.Buf(), secrets, cut)
  {
    hide Clear;
    WholeIsClear(l.Buf(), secrets);
    LargestClearOk(l.Buf(), secrets, Settled(l, secrets));
    if !l.closed && secrets != [] {
      var m := LongestAttained(secrets);
      forall cut: nat | SafeRel(l, secrets) < cut
          && (forall k :: 0 <= k < |secrets| ==> cut + |secrets[k]| <= |l.Buf()|)
        ensures !Clear(l.Buf(), secrets, cut)
      {
        assert cut + |secrets[m]| <= |l.Buf()|;
        LargestIsLast(l.Buf(), secrets, Settled(l, secrets), cut);
      }
    }
  }

  lemma WholeIsClear(s: string, secrets: seq<string>)
    ensures Clear(s, secrets, |s|)
  {
  }

  lemma {:induction false} LongestAttained(secrets: seq<string>) returns (k: nat)
    requires secrets != []
    ensures k < |secrets| && |secrets[k]| == MaxLen(secrets)
  {
    if |secrets[0]| > MaxLen(secrets[1..]) || |secrets| == 1 {
      k := 0;
    } else {
      var j := LongestAttained(secrets[1..]);
      k := j + 1;
    }
  }

  lemma {:induction false} LargestIsLast(s: string, secrets: seq<string>, upto: nat, cut: nat)
    requires LargestClear(s, secrets, upto) < cut <= upto
    ensures !Clear(s, secrets, cut)
    decreases upto
  {
    if upto == 0 || Clear(s, secrets, upto) {
    } else if cut == upto {
    } else {
      LargestIsLast(s, secrets, upto - 1, cut);
    }
  }

  /**
   A write drops nothing while 65536 bytes hold everything retained, and otherwise no more than up to the
   first place that divides no secret and leaves that many.
  */
  lemma DropsLeast(l: Log, p: string, secrets: seq<string>)
    requires l.Ok()
    ensures var b, m := l.Buf() + p, Written(l, p, secrets);
      && m.history == l.history + p && m.closed == l.closed
      && (|b| <= 65536 ==> m.start == l.start)
      && (|b| > 65536 ==>
            && |b| - (m.start - l.start) <= 65536 && Clear(b, secrets, m.start - l.start)
            && forall cut :: |b| - 65536 <= cut < m.start - l.start ==> !Clear(b, secrets, cut))
  {
    hide Clear;
    var b := l.Buf() + p;
    if |b| > 65536 {
      SmallestClearOk(b, secrets, |b| - 65536);
      forall cut | |b| - 65536 <= cut < SmallestClear(b, secrets, |b| - 65536) ensures !Clear(b, secrets, cut) {
        SmallestIsFirst(b, secrets, |b| - 65536, cut);
      }
    }
  }

  lemma {:induction false} SmallestIsFirst(s: string, secrets: seq<string>, from: nat, cut: nat)
    requires from <= |s| && from <= cut < SmallestClear(s, secrets, from)
    ensures !Clear(s, secrets, cut)
    decreases |s| - from
  {
    if from == |s| || Clear(s, secrets, from) {
    } else if cut == from {
    } else {
      SmallestIsFirst(s, secrets, from + 1, cut);
    }
  }

  // ------------------------------------------------------------ one write

  lemma WriteMoves(l: Log, p: string, secrets: seq<string>)
    requires l.Ok()
    ensures Written(l, p, secrets).Ok()
    ensures l.start <= Written(l, p, secrets).start
  {
    var b := l.Buf() + p;
    if |b| > RING_MAX { SmallestClearOk(b, secrets, |b| - RING_MAX); }
  }

  lemma WrittenIs(l: Log, p: string, secrets: seq<string>)
    requires l.Ok()
    ensures Written(l, p, secrets).history == l.history + p && Written(l, p, secrets).closed == l.closed
  {
  }

  /** The output breaks off inside what may become a secret that cut divides. */
  ghost predicate Pending(s: string, secrets: seq<string>, cut: int) {
    exists k: nat, i: nat :: k < |secrets| && i <= |s| && Breaks(s, secrets[k], i, cut)
  }

  predicate Breaks(s: string, secret: string, i: nat, cut: int)
    requires i <= |s|
  {
    i < cut < i + |secret| && |s| < i + |secret| && s[i..] <= secret
  }

  /** Whatever is written next leaves a clear cut clear, exactly if no secret is pending over it. */
  lemma HarmlessIff(s: string, secrets: seq<string>, cut: int)
    requires cut <= |s| && Clear(s, secrets, cut)
    ensures (forall p: string :: Clear(s + p, secrets, cut)) <==> !Pending(s, secrets, cut)
  {
    if Pending(s, secrets, cut) {
      var k: nat, i: nat :| k < |secrets| && i <= |s| && Breaks(s, secrets[k], i, cut);
      var p := secrets[k][|s| - i..];
      assert (s + p)[i..i + |secrets[k]|] == s[i..] + p == secrets[k];
      assert OccursAt(s + p, secrets[k], i) && Inside(secrets[k], i, cut);
      assert !Clear(s + p, secrets, cut);
    } else {
      forall p: string ensures Clear(s + p, secrets, cut) { NotPending(s, p, secrets, cut); }
    }
  }

  lemma NotPending(s: string, p: string, secrets: seq<string>, cut: int)
    requires cut <= |s| && Clear(s, secrets, cut) && !Pending(s, secrets, cut)
    ensures Clear(s + p, secrets, cut)
  {
    var t := s + p;
    forall k: nat, i | k < |secrets| && OccursAt(t, secrets[k], i) ensures !Inside(secrets[k], i, cut) {
      if i + |secrets[k]| <= |s| {
        InWindow(t, secrets[k], 0, |s|, i);
        assert t[0..|s|] == s;
      } else if i < |s| {
        assert s[i..] == secrets[k][..|s| - i] by { assert t[i..i + |secrets[k]|][..|s| - i] == s[i..]; }
        assert !Breaks(s, secrets[k], i, cut);
      }
    }
  }

  /** At the beginning, or a whole secret before the end. */
  predicate Far(s: string, secrets: seq<string>, cut: int) { cut <= 0 || cut + MaxLen(secrets) <= |s| }

  lemma FarIsHarmless(s: string, p: string, secrets: seq<string>, cut: int)
    requires 0 <= cut <= |s| && Clear(s, secrets, cut) && Far(s, secrets, cut)
    ensures Clear(s + p, secrets, cut) && Far(s + p, secrets, cut)
  {
    forall k: nat, i: nat | k < |secrets| && i <= |s| ensures !Breaks(s, secrets[k], i, cut) {
      LongestIs(secrets, k);
    }
    NotPending(s, p, secrets, cut);
  }

  /** A cut that is clear behind a clear one is clear in the whole. */
  lemma ClearInWhole(s: string, secrets: seq<string>, start: nat, cut: int)
    requires start <= cut <= |s| && Clear(s, secrets, start) && Clear(s[start..], secrets, cut - start)
    ensures Clear(s, secrets, cut)
  {
    forall k: nat, i | k < |secrets| && OccursAt(s, secrets[k], i) ensures !Inside(secrets[k], i, cut) {
      assert !Inside(secrets[k], i, start);
      if start <= i {
        InWindow(s, secrets[k], start, |s|, i);
        assert s[start..|s|] == s[start..];
      }
    }
  }

  /** A cursor a whole secret before the end stays clear whatever is written next. */
  lemma StaysClear(l: Log, p: string, secrets: seq<string>, cursor: int)
    requires l.Ok() && ClearAt(l, secrets, cursor)
    requires cursor <= l.start || cursor + MaxLen(secrets) <= |l.history|
    ensures Written(l, p, secrets).Ok() && ClearAt(Written(l, p, secrets), secrets, cursor)
  {
    hide MaxLen, SmallestClear, Written, Clear;
    WriteMoves(l, p, secrets);
    var m := Written(l, p, secrets);
    WrittenIs(l, p, secrets);
    if cursor > m.start {
      var b := l.Buf() + p;
      FarIsHarmless(l.Buf(), p, secrets, cursor - l.start);
      ClearInWindow(b, secrets, m.start - l.start, |b|, cursor - l.start);
      assert b[m.start - l.start..|b|] == m.Buf();
    }
  }

  // ------------------------------------------------------------ runs with a polling reader

  /** What a poll delivered: which bytes of the history, whether it was told of a gap, and their text. */
  datatype Range = Range(start: int, end: int, dropped: bool, text: string)

  datatype State = State(
    log: Log,
    cursor: int,            // what the reader passes next
    ranges: seq<Range>,
    last: bool              // it has polled the closed log
  )

  /** known is the secret registry at that moment. */
  datatype Event =
    | Write(p: string, known: seq<string>)
    | Seal
    | Reopen
    | Poll(known: seq<string>)

  const START := State(Log("", 0, false), 0, [], false)

  ghost function Polled(s: State, known: seq<string>): State
    requires s.log.Ok()
  {
    var r := ReadFrom(s.log, s.cursor, known);
    var more := s.cursor < s.log.start + SafeRel(s.log, known);
    s.(cursor := r.next, last := s.last || s.log.closed,
       ranges := if more then s.ranges + [Range(s.log.start + Rel(s.log, s.cursor), r.next, r.dropped, r.text)]
           else s.ranges)
  }

  ghost function Apply(s: State, e: Event): State
    requires s.log.Ok()
  {
    match e
    case Write(p, known) => s.(log := Written(s.log, p, known))
    case Seal => s.(log := s.log.(closed := true))
    case Reopen => s.(log := s.log.(closed := false))
    case Poll(known) => Polled(s, known)
  }

  lemma ApplyOk(s: State, e: Event)
    requires s.log.Ok()
    ensures Apply(s, e).log.Ok()
  {
    if e.Write? { WriteMoves(s.log, e.p, e.known); }
  }

  ghost function Run(s: State, es: seq<Event>): State
    requires s.log.Ok()
    decreases |es|
  {
    if es == [] then s
    else
      ApplyOk(s, es[0]);
      Run(Apply(s, es[0]), es[1..])
  }

  // ------------------------------------------------------------ cursors

  /** b follows a: no overlap, and a gap is always announced. */
  predicate Follows(a: int, b: Range) {
    a <= b.start <= b.end && (b.dropped <==> 0 < a < b.start)
  }

  /** Where the range before the i-th ended. */
  function Reached(rs: seq<Range>, i: nat): int
    requires i <= |rs|
  {
    if i == 0 then 0 else rs[i - 1].end
  }

  ghost predicate CursorsOk(s: State) {
    && s.log.Ok() && 0 <= s.cursor <= |s.log.history|
    && (forall i: nat :: i < |s.ranges| ==> Follows(Reached(s.ranges, i), s.ranges[i]))
    && s.cursor == Reached(s.ranges, |s.ranges|)
  }

  lemma PollCursors(s: State, known: seq<string>)
    requires CursorsOk(s)
    ensures CursorsOk(Polled(s, known)) && s.cursor <= Polled(s, known).cursor && s.ranges <= Polled(s, known).ranges
  {
    hide Redact, MaxLen, TrimPrefix;
    var t := Polled(s, known);
    if s.cursor < s.log.start + SafeRel(s.log, known) {
      ReadEndsClear(s.log, s.cursor, known);
      hide SafeRel;
      var r := ReadFrom(s.log, s.cursor, known);
      assert t.ranges[|s.ranges|] ==
          Range(s.log.start + Rel(s.log, s.cursor), t.cursor, 0 < s.cursor < s.log.start, r.text);
      forall i: nat | i < |t.ranges| ensures Follows(Reached(t.ranges, i), t.ranges[i]) {
        assert Reached(t.ranges, i) == Reached(s.ranges, i);
        if i < |s.ranges| { assert t.ranges[i] == s.ranges[i]; }
      }
    }
  }

  lemma StepCursors(s: State, e: Event)
    requires CursorsOk(s)
    ensures var t := Apply(s, e);
      && CursorsOk(t) && s.cursor <= t.cursor && s.ranges <= t.ranges
      && s.log.history <= t.log.history && s.log.start <= t.log.start
  {
    match e
    case Poll(known) => PollCursors(s, known);
    case Write(p, known) =>
      WriteMoves(s.log, p, known);
      WrittenIs(s.log, p, known);
      assert Apply(s, e).ranges == s.ranges && Apply(s, e).cursor == s.cursor;
    case _ => assert Apply(s, e).ranges == s.ranges && Apply(s, e).cursor == s.cursor;
  }

  /**
   Over any run, whatever becomes of the registry: the buffer is the end of everything written and
   holds at most 64 KiB; what a reader gets by chaining its cursors never goes back and never
   repeats a byte, and a gap after a positive cursor is always reported.
  */
  lemma {:induction false} CursorsKeep(s: State, es: seq<Event>)
    requires CursorsOk(s)
    ensures CursorsOk(Run(s, es)) && s.cursor <= Run(s, es).cursor && s.ranges <= Run(s, es).ranges
    ensures |Run(s, es).log.Buf()| <= RING_MAX && s.log.history <= Run(s, es).log.history
    ensures s.log.start <= Run(s, es).log.start
    decreases |es|
  {
    hide Apply;
    if es == [] {
    } else {
      ApplyOk(s, es[0]);
      StepCursors(s, es[0]);
      CursorsKeep(Apply(s, es[0]), es[1..]);
    }
  }

  // ------------------------------------------------------------ the stream

  /** The delivered bytes begin and end where no secret of the whole output is divided, and are shown redacted. */
  ghost predicate RangeOk(h: string, secrets: seq<string>, r: Range) {
    && 0 <= r.start <= r.end <= |h| && Clear(h, secrets, r.start) && Clear(h, secrets, r.end)
    && r.text == Redact(h[r.start..r.end], secrets)
  }

  ghost predicate StreamOk(s: State, secrets: seq<string>) {
    && CursorsOk(s) && Clear(s.log.history, secrets, s.log.start)
    && forall i :: 0 <= i < |s.ranges| ==> RangeOk(s.log.history, secrets, s.ranges[i])
  }

  /** The write completes no secret over a place where the output was cut already. */
  ghost predicate CutsStay(s: State, p: string, secrets: seq<string>) {
    var h := s.log.history + p;
    && Clear(h, secrets, s.log.start)
    && forall i :: 0 <= i < |s.ranges| ==> Clear(h, secrets, s.ranges[i].start) && Clear(h, secrets, s.ranges[i].end)
  }

  /** The registry is the same throughout, and no write completes a secret over an earlier cut. */
  ghost predicate Steady(s: State, es: seq<Event>, secrets: seq<string>)
    requires s.log.Ok()
    decreases |es|
  {
    es == [] ||
    (ApplyOk(s, es[0]);
     && ((es[0].Write? || es[0].Poll?) ==> es[0].known == secrets)
     && (es[0].Write? ==> CutsStay(s, es[0].p, secrets))
     && Steady(Apply(s, es[0]), es[1..], secrets))
  }

  lemma LogOk(s: State)
    requires CursorsOk(s)
    ensures s.log.Ok()
  {
  }

  /** The cursor is where the last range ended, so it is clear in the buffer too. */
  lemma CursorClear(s: State, secrets: seq<string>)
    requires StreamOk(s, secrets)
    ensures Clear(s.log.history, secrets, s.cursor) && ClearAt(s.log, secrets, s.cursor)
  {
    var l := s.log;
    if s.ranges != [] { assert RangeOk(l.history, secrets, s.ranges[|s.ranges| - 1]); }
    assert Clear(l.history, secrets, s.cursor);
    hide Clear;
    ClearInWindow(l.history, secrets, l.start, |l.history|, s.cursor);
    assert l.history[l.start..|l.history|] == l.Buf();
  }

  lemma SameSlice(l: Log, a: nat, b: nat)
    requires l.Ok() && a <= b <= |l.Buf()|
    ensures l.Buf()[a..b] == l.history[l.start + a..l.start + b]
  {
  }

  lemma NewRange(s: State, secrets: seq<string>)
    requires StreamOk(s, secrets) && s.cursor < s.log.start + SafeRel(s.log, secrets)
    ensures var t := Polled(s, secrets);
      && |t.ranges| == |s.ranges| + 1
      && RangeOk(s.log.history, secrets, t.ranges[|s.ranges|])
  {
    hide MaxLen, TrimPrefix, Redact, Clear, CursorsOk;
    LogOk(s);
    var l, rel, safe := s.log, Rel(s.log, s.cursor), SafeRel(s.log, secrets);
    CursorClear(s, secrets);
    ReadIsRedaction(l, s.cursor, secrets);
    SameSlice(l, rel, safe);
    ClearInWhole(l.history, secrets, l.start, l.start + safe);
  }

  lemma PollStream(s: State, secrets: seq<string>)
    requires StreamOk(s, secrets)
    ensures StreamOk(Polled(s, secrets), secrets)
  {
    hide MaxLen, TrimPrefix, Redact, Clear, CursorsOk, RangeOk, ReadFrom;
    LogOk(s);
    var t := Polled(s, secrets);
    PollCursors(s, secrets);
    if s.cursor < s.log.start + SafeRel(s.log, secrets) {
      NewRange(s, secrets);
      forall i | 0 <= i < |t.ranges| ensures RangeOk(t.log.history, secrets, t.ranges[i]) {
        if i < |s.ranges| { assert t.ranges[i] == s.ranges[i]; }
      }
    }
  }

  /** A drop is at a clear place of the whole output. */
  lemma DropIsClear(l: Log, p: string, secrets: seq<string>)
    requires l.Ok() && Clear(l.history + p, secrets, l.start)
    ensures Clear(l.history + p, secrets, Written(l, p, secrets).start)
  {
    hide Clear;
    WriteMoves(l, p, secrets);
    var b, h := l.Buf() + p, l.history + p;
    if |b| > RING_MAX {
      SmallestClearOk(b, secrets, |b| - RING_MAX);
      assert h[l.start..] == b;
      ClearInWhole(h, secrets, l.start, Written(l, p, secrets).start);
    }
  }

  lemma RangeStays(h: string, p: string, secrets: seq<string>, r: Range)
    requires RangeOk(h, secrets, r) && Clear(h + p, secrets, r.start) && Clear(h + p, secrets, r.end)
    ensures RangeOk(h + p, secrets, r)
  {
    hide Clear, Redact;
    assert (h + p)[r.start..r.end] == h[r.start..r.end];
  }

  lemma WriteStream(s: State, p: string, secrets: seq<string>)
    requires StreamOk(s, secrets) && CutsStay(s, p, secrets)
    ensures StreamOk(Apply(s, Write(p, secrets)), secrets)
  {
    hide Redact, Written, Clear, CursorsOk, RangeOk;
    LogOk(s);
    StepCursors(s, Write(p, secrets));
    WrittenIs(s.log, p, secrets);
    DropIsClear(s.log, p, secrets);
    forall i | 0 <= i < |s.ranges| ensures RangeOk(s.log.history + p, secrets, s.ranges[i]) {
      RangeStays(s.log.history, p, secrets, s.ranges[i]);
    }
  }

  /** So every range stays a piece of the redacted output, however writes, drops and polls cut it up. */
  lemma {:induction false} StreamKeeps(s: State, es: seq<Event>, secrets: seq<string>)
    requires StreamOk(s, secrets) && Steady(s, es, secrets)
    ensures StreamOk(Run(s, es), secrets)
    decreases |es|
  {
    hide RangeOk, CutsStay, Clear;
    if es == [] {
    } else {
      var e := es[0];
      ApplyOk(s, e);
      match e {
        case Poll(_) => PollStream(s, secrets);
        case Write(p, _) => WriteStream(s, p, secrets);
        case _ => StepCursors(s, e);
      }
      StreamKeeps(Apply(s, e), es[1..], secrets);
    }
  }

  /** What the reader received, joined. */
  function Texts(rs: seq<Range>): string {
    if rs == [] then "" else Texts(rs[..|rs| - 1]) + rs[|rs| - 1].text
  }

  /** No byte was missed. */
  ghost predicate Gapless(rs: seq<Range>) {
    forall i: nat :: i < |rs| ==> rs[i].start == Reached(rs, i)
  }

  lemma GaplessBefore(rs: seq<Range>)
    requires Gapless(rs) && rs != []
    ensures var before := rs[..|rs| - 1];
      Gapless(before) && rs[|rs| - 1].start == Reached(before, |before|) && rs[|rs| - 1].end == Reached(rs, |rs|)
  {
    var before := rs[..|rs| - 1];
    forall i: nat | i < |before| ensures before[i].start == Reached(before, i) {
      assert before[i].start == rs[i].start == Reached(rs, i);
    }
  }

  lemma {:induction false} TextsJoin(h: string, secrets: seq<string>, rs: seq<Range>)
    requires Gapless(rs) && forall i :: 0 <= i < |rs| ==> RangeOk(h, secrets, rs[i])
    ensures 0 <= Reached(rs, |rs|) <= |h| && Texts(rs) == Redact(h[..Reached(rs, |rs|)], secrets)
  {
    hide Redact, Clear, Gapless, Reached;
    if rs == [] {
      EmptyRedacts(secrets);
      NothingReached(rs);
      assert h[..0] == [];
    } else {
      var before, r := rs[..|rs| - 1], rs[|rs| - 1];
      GaplessBefore(rs);
      assert forall i :: 0 <= i < |before| ==> before[i] == rs[i];
      TextsJoin(h, secrets, before);
      RangeAppends(h, secrets, r);
    }
  }

  lemma NothingReached(rs: seq<Range>)
    ensures Reached(rs, 0) == 0
  {
  }

  lemma RangeAppends(h: string, secrets: seq<string>, r: Range)
    requires RangeOk(h, secrets, r)
    ensures Redact(h[..r.end], secrets) == Redact(h[..r.start], secrets) + r.text
  {
    hide Redact, Clear;
    var whole := h[..r.end];
    ClearInWindow(h, secrets, 0, r.end, r.start);
    assert h[0..r.end] == whole;
    RedactSplits(whole, secrets, r.start);
    assert whole[..r.start] == h[..r.start] && whole[r.start..] == h[r.start..r.end];
  }

  lemma EmptyRedacts(secrets: seq<string>)
    ensures Redact([], secrets) == []
  {
  }

  /** A piece of the redacted output: before it and after it the rest is redacted on its own. */
  lemma PieceOf(h: string, secrets: seq<string>, r: Range)
    requires RangeOk(h, secrets, r)
    ensures StandsIn(h, secrets, r)
  {
    hide Redact, Clear;
    RedactSplits(h, secrets, r.end);
    RangeAppends(h, secrets, r);
  }

  /** The text of the range stands in the redaction of h, between those of what is before and after it. */
  ghost predicate StandsIn(h: string, secrets: seq<string>, r: Range) {
    && 0 <= r.start <= r.end <= |h|
    && Redact(h, secrets) == Redact(h[..r.start], secrets) + r.text + Redact(h[r.end..], secrets)
  }

  /**
   Each text a polling reader received stands in the redaction of the whole output, after that of
   everything before it and before that of everything after it, whatever was dropped in between; and
   with nothing missed the joined texts are one redaction of the output they cover.
  */
  lemma StreamIsRedaction(es: seq<Event>, secrets: seq<string>)
    requires Steady(START, es, secrets)
    ensures var t, h := Run(START, es), Run(START, es).log.history;
      && CursorsOk(t)
      && (forall i :: 0 <= i < |t.ranges| ==> StandsIn(h, secrets, t.ranges[i]))
      && (Gapless(t.ranges) ==> Texts(t.ranges) == Redact(h[..t.cursor], secrets))
  {
    assert StreamOk(START, secrets);
    hide Redact, Clear, Run, Steady;
    StreamKeeps(START, es, secrets);
    var t, h := Run(START, es), Run(START, es).log.history;
    forall i | 0 <= i < |t.ranges| ensures StandsIn(h, secrets, t.ranges[i]) { PieceOf(h, secrets, t.ranges[i]); }
    if Gapless(t.ranges) { TextsJoin(h, secrets, t.ranges); }
  }

  // ------------------------------------------------------------ when no write does harm

  /**
   The registry is the same throughout, nothing is written once the closed log was polled, and a drop leaves a
   secret's length.
  */
  ghost predicate Ordinary(s: State, es: seq<Event>, secrets: seq<string>)
    requires s.log.Ok()
    decreases |es|
  {
    Far(s.log.history, secrets, s.log.start) &&
    (es == [] ||
     (ApplyOk(s, es[0]);
      && ((es[0].Write? || es[0].Poll?) ==> es[0].known == secrets)
      && (es[0].Write? ==> !s.last)
      && Ordinary(Apply(s, es[0]), es[1..], secrets)))
  }

  ghost predicate RangesFar(s: State, secrets: seq<string>) {
    s.last || forall i :: 0 <= i < |s.ranges| ==>
      Far(s.log.history, secrets, s.ranges[i].start) && Far(s.log.history, secrets, s.ranges[i].end)
  }

  lemma FarCutsStay(s: State, p: string, secrets: seq<string>)
    requires StreamOk(s, secrets) && !s.last && RangesFar(s, secrets) && Far(s.log.history, secrets, s.log.start)
    ensures CutsStay(s, p, secrets)
    ensures RangesFar(Apply(s, Write(p, secrets)), secrets)
  {
    hide Redact, Clear, Written, Far;
    WrittenIs(s.log, p, secrets);
    FarIsHarmless(s.log.history, p, secrets, s.log.start);
    forall i | 0 <= i < |s.ranges|
      ensures var h := s.log.history + p; var r := s.ranges[i];
        Clear(h, secrets, r.start) && Clear(h, secrets, r.end) && Far(h, secrets, r.start) && Far(h, secrets, r.end)
    {
      assert RangeOk(s.log.history, secrets, s.ranges[i]);
      FarIsHarmless(s.log.history, p, secrets, s.ranges[i].start);
      FarIsHarmless(s.log.history, p, secrets, s.ranges[i].end);
    }
  }

  /** The cursor is where the last range ended. */
  lemma CursorFar(s: State, secrets: seq<string>)
    requires CursorsOk(s) && RangesFar(s, secrets) && !s.last
    ensures Far(s.log.history, secrets, s.cursor)
  {
  }

  lemma PollFar(s: State, secrets: seq<string>)
    requires StreamOk(s, secrets) && RangesFar(s, secrets) && Far(s.log.history, secrets, s.log.start)
    ensures RangesFar(Polled(s, secrets), secrets)
  {
    hide Redact, Clear, MaxLen, TrimPrefix;
    var t := Polled(s, secrets);
    if !t.last && s.cursor < s.log.start + SafeRel(s.log, secrets) {
      CursorFar(s, secrets);
      ReadEndsClear(s.log, s.cursor, secrets);
      hide SafeRel, CursorsOk, ReadFrom;
      forall i | 0 <= i < |t.ranges|
        ensures Far(s.log.history, secrets, t.ranges[i].start) && Far(s.log.history, secrets, t.ranges[i].end)
      {
        if i < |s.ranges| { assert t.ranges[i] == s.ranges[i]; }
      }
    }
  }

  /** In an ordinary run no write completes a secret over an earlier cut. */
  lemma {:induction false} OrdinaryIsSteady(s: State, es: seq<Event>, secrets: seq<string>)
    requires StreamOk(s, secrets) && RangesFar(s, secrets) && Ordinary(s, es, secrets)
    ensures Steady(s, es, secrets)
    decreases |es|
  {
    hide RangeOk, CutsStay, Clear, Far;
    if es == [] {
    } else {
      var e := es[0];
      ApplyOk(s, e);
      match e {
        case Poll(_) =>
          PollStream(s, secrets);
          PollFar(s, secrets);
        case Write(p, _) =>
          FarCutsStay(s, p, secrets);
          WriteStream(s, p, secrets);
        case _ => StepCursors(s, e);
      }
      OrdinaryIsSteady(Apply(s, e), es[1..], secrets);
    }
  }

  /** The registry is the same throughout, and nothing is written once the closed log was polled. */
  ghost predicate Calm(s: State, es: seq<Event>, secrets: seq<string>)
    requires s.log.Ok()
    decreases |es|
  {
    es == [] ||
    (ApplyOk(s, es[0]);
     && ((es[0].Write? || es[0].Poll?) ==> es[0].known == secrets)
     && (es[0].Write? ==> !s.last)
     && Calm(Apply(s, es[0]), es[1..], secrets))
  }

  /** A calm run that never dropped anything is an ordinary one, and its reader missed nothing. */
  lemma {:induction false} UndroppedIsOrdinary(s: State, es: seq<Event>, secrets: seq<string>)
    requires CursorsOk(s) && Gapless(s.ranges) && Calm(s, es, secrets) && Run(s, es).log.start == 0
    ensures Ordinary(s, es, secrets) && Gapless(Run(s, es).ranges)
    decreases |es|
  {
    hide Apply, CursorsOk, Gapless;
    LogOk(s);
    CursorsKeep(s, es);
    if es == [] {
    } else {
      ApplyOk(s, es[0]);
      StepCursors(s, es[0]);
      CursorsKeep(Apply(s, es[0]), es[1..]);
      StepGapless(s, es[0]);
      UndroppedIsOrdinary(Apply(s, es[0]), es[1..], secrets);
    }
  }

  /**
   So, with the registry fixed, the log kept whole and no write after its end was shown, the stream is the
   redacted output.
  */
  lemma CalmStream(es: seq<Event>, secrets: seq<string>)
    requires Calm(START, es, secrets) && Run(START, es).log.start == 0
    ensures var t := Run(START, es);
      && 0 <= t.cursor <= |t.log.history|
      && Texts(t.ranges) == Redact(t.log.history[..t.cursor], secrets)
  {
    hide Redact, Run, Steady, Ordinary, Calm;
    assert 0 <= START.cursor <= |START.log.history|;
    UndroppedIsOrdinary(START, es, secrets);
    StartOk(secrets);
    OrdinaryIsSteady(START, es, secrets);
    StreamIsRedaction(es, secrets);
  }

  lemma StartOk(secrets: seq<string>)
    ensures StreamOk(START, secrets) && RangesFar(START, secrets)
  {
  }

  lemma StepGapless(s: State, e: Event)
    requires CursorsOk(s) && Gapless(s.ranges) && s.log.start == 0
    ensures Gapless(Apply(s, e).ranges)
  {
    hide Redact, MaxLen, TrimPrefix, Written, SafeRel;
    var t := Apply(s, e);
    if e.Poll? && s.cursor < s.log.start + SafeRel(s.log, e.known) {
      forall i: nat | i < |t.ranges| ensures t.ranges[i].start == Reached(t.ranges, i) {
        assert Reached(t.ranges, i) == Reached(s.ranges, i);
        if i < |s.ranges| { assert t.ranges[i] == s.ranges[i]; }
      }
    }
  }

  // ------------------------------------------------------------ a write after the end was shown

  const KNOWN := ["ab"]

  lemma RedactOnes()
    ensures Redact("", KNOWN) == "" && Redact("a", KNOWN) == "a" && Redact("ab", KNOWN) == MASK
  {
    assert KNOWN[1..] == [];
    assert Match("a", KNOWN).None?;
    assert "a"[1..] == "" && Redact("a", KNOWN) == "a" + Redact("", KNOWN);
    assert "ab"[..2] == "ab" && Match("ab", KNOWN) == Some(2);
    assert "ab"[2..] == "" && Redact("ab", KNOWN) == MASK + Redact("", KNOWN);
  }

  lemma KnownLength()
    ensures MaxLen(KNOWN) == 2
  {
    assert KNOWN[1..] == [] && MaxLen(KNOWN[1..]) == 0;
  }

  lemma FirstPoll()
    ensures var l := Log("a", 0, true);
      l.Ok() && SafeRel(l, KNOWN) == 1 && ReadFrom(l, 0, KNOWN) == Reply("a", 1, false)
  {
    var l := Log("a", 0, true);
    assert l.Buf() == "a";
    assert Clear("a", KNOWN, 1);
    assert SafeRel(l, KNOWN) == 1;
    RedactOnes();
    KnownLength();
    hide Redact, SafeRel, MaxLen;
    assert "a"[0..1] == "a" && "a"[0..0] == "";
    assert "" + "a" == "a";
    PrefixTrims("", "a");
  }

  lemma SecondPoll()
    ensures var l := Log("abxx", 0, false);
      l.Ok() && SafeRel(l, KNOWN) == 2 && ReadFrom(l, 1, KNOWN) == Reply(MASK, 2, false)
  {
    var l := Log("abxx", 0, false);
    assert l.Buf() == "abxx";
    KnownLength();
    assert "abxx"[1..3][0] == 'b' && !OccursAt("abxx", "ab", 1);
    assert Clear("abxx", KNOWN, 2);
    assert SafeRel(l, KNOWN) == 2;
    RedactOnes();
    hide Redact, SafeRel, MaxLen;
    assert "abxx"[0..2] == "ab" && "abxx"[0..1] == "a";
    assert !("a" <= MASK) by { assert MASK[0] == '['; }
  }

  const BEFORE := [Write("a", KNOWN), Seal, Poll(KNOWN)]
  const AFTER := [Reopen, Write("bxx", KNOWN), Poll(KNOWN)]
  const SHOWN := Range(0, 1, false, "a")

  /**
   That condition is needed: a poll of the closed log shows the beginning of a secret, which a write
   after a reopen completes; the joined text is then not the redaction of the output.
  */
  lemma LateWriteShows()
    ensures Pending("a", KNOWN, 1) && !Steady(START, BEFORE + AFTER, KNOWN)
    ensures var t := Run(START, BEFORE + AFTER);
      && t.log.Ok() && t.log == Log("abxx", 0, false) && t.cursor == 2 && Gapless(t.ranges)
      && Texts(t.ranges) == "a" + MASK && Redact(t.log.history[..t.cursor], KNOWN) == MASK
  {
    hide Run, Redact, Apply, Steady;
    ShownSplit();
    ThenCompleted();
    RunJoins(START, BEFORE, AFTER);
    RedactOnes();
    assert "abxx"[..2] == "ab";
    assert "a"[0..] <= "ab" && KNOWN[0] == "ab" && Breaks("a", KNOWN[0], 0, 1);
    var rs := [SHOWN, Range(1, 2, false, MASK)];
    assert rs[..1] == [SHOWN] && [SHOWN][..0] == [];
    assert Texts([SHOWN]) == "" + "a" == "a";
    assert ("a" + MASK)[0] == 'a' && MASK[0] == '[';
    if Steady(START, BEFORE + AFTER, KNOWN) { StreamIsRedaction(BEFORE + AFTER, KNOWN); }
  }

  lemma ShownSplit()
    ensures Run(START, BEFORE) == State(Log("a", 0, true), 1, [SHOWN], true)
  {
    hide Redact, SafeRel, ReadFrom;
    var s1 := Apply(START, BEFORE[0]);
    assert s1 == State(Log("a", 0, false), 0, [], false) by { assert START.log.Buf() + "a" == "a"; }
    var s2 := Apply(s1, BEFORE[1]);
    FirstPoll();
    var s3 := Apply(s2, BEFORE[2]);
    assert s3.ranges == [] + [SHOWN] == [SHOWN];
    RunThree(START, BEFORE, s1, s2);
  }

  lemma ThenCompleted()
    ensures Run(State(Log("a", 0, true), 1, [SHOWN], true), AFTER)
            == State(Log("abxx", 0, false), 2, [SHOWN, Range(1, 2, false, MASK)], true)
  {
    hide Redact, SafeRel, ReadFrom;
    var s3 := State(Log("a", 0, true), 1, [SHOWN], true);
    var s4 := Apply(s3, AFTER[0]);
    var s5 := Apply(s4, AFTER[1]);
    assert s5.log == Log("abxx", 0, false) by { assert s4.log.Buf() == "a" && "a" + "bxx" == "abxx"; }
    SecondPoll();
    var s6 := Apply(s5, AFTER[2]);
    assert s6.ranges == [SHOWN] + [Range(1, 2, false, MASK)];
    RunThree(s3, AFTER, s4, s5);
  }

  lemma RunThree(s: State, es: seq<Event>, s1: State, s2: State)
    requires |es| == 3 && s.log.Ok() && s1 == Apply(s, es[0]) && s1.log.Ok() && s2 == Apply(s1, es[1]) && s2.log.Ok()
    ensures Run(s, es) == Apply(s2, es[2])
  {
    hide Apply;
    assert es[1..][1..] == es[2..] && es[2..][1..] == [];
    ApplyOk(s2, es[2]);
    assert Run(Apply(s2, es[2]), []) == Apply(s2, es[2]);
    assert Run(s2, es[2..]) == Apply(s2, es[2]);
    assert Run(s1, es[1..]) == Run(s2, es[2..]);
  }

  lemma {:induction false} RunJoins(s: State, es: seq<Event>, fs: seq<Event>)
    requires s.log.Ok()
    ensures Run(s, es).log.Ok() && Run(s, es + fs) == Run(Run(s, es), fs)
    decreases |es|
  {
    hide Apply;
    if es == [] {
      assert es + fs == fs;
    } else {
      ApplyOk(s, es[0]);
      RunJoins(Apply(s, es[0]), es[1..], fs);
      assert (es + fs)[1..] == es[1..] + fs;
    }
  }
}
