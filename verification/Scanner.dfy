/**
 signatureHelp's enclosingCall: one pass over the text before the cursor that skips
 strings, triple strings and line comments while it matches parentheses. It is proved
 equal to two passes, masking and then a declarative search.
*/
module Scanner {

  // ------------------------------------------------------------ first pass: masking

  predicate Triple(s: string) { |s| >= 3 && s[0] == '"' && s[1] == '"' && s[2] == '"' }

  const FILL := ' '

  datatype Mode = Code | Str | TripleStr | Comment

  /** One lexical piece: how many bytes, the mode after it, and whether it is a byte of code. */
  datatype Piece = Piece(width: nat, mode: Mode, code: bool)

  function Lex(s: string, mode: Mode): (p: Piece)
    requires s != []
    ensures 1 <= p.width <= |s| && (p.code ==> p.width == 1)
  {
    match mode
    case Comment => Piece(1, if s[0] == '\n' then Code else Comment, false)
    case TripleStr => if Triple(s) then Piece(3, Code, false) else Piece(1, TripleStr, false)
    case Str =>
      if s[0] == '\\' then Piece(if |s| > 1 then 2 else 1, Str, false)
      else Piece(1, if s[0] == '"' then Code else Str, false)
    case Code =>
      if Triple(s) then Piece(3, TripleStr, false)
      else if s[0] == '"' then Piece(1, Str, false)
      else if |s| > 1 && s[0] == '/' && s[1] == '/' then Piece(2, Comment, false)
      else Piece(1, Code, true)
  }

  function Blanks(n: nat): (m: string)
    ensures |m| == n && forall i :: 0 <= i < n ==> m[i] == FILL
  {
    seq(n, _ => FILL)
  }

  /** The text with every byte of a string, triple string or comment blanked. */
  function Mask(s: string, mode: Mode): (m: string)
    ensures |m| == |s|
    decreases |s|
  {
    if s == [] then []
    else
      var p := Lex(s, mode);
      (if p.code then [s[0]] else Blanks(p.width)) + Mask(s[p.width..], p.mode)
  }

  // ------------------------------------------------------------ what is masked

  lemma BlanksJoin(a: nat, b: nat)
    ensures Blanks(a) + Blanks(b) == Blanks(a + b)
  {
  }

  lemma Further(a: nat, b: nat, s: string)
    ensures Blanks(a) + (Blanks(b) + s) == Blanks(a + b) + s
  {
    BlanksJoin(a, b);
    assert Blanks(a) + (Blanks(b) + s) == Blanks(a) + Blanks(b) + s;
  }

  /** Is a string opened or a comment begun at i? */
  predicate Opens(s: string, i: nat)
    requires i < |s|
  {
    s[i] == '"' || (s[i] == '/' && i + 1 < |s| && s[i + 1] == '/')
  }

  lemma CodeStep(s: string)
    requires s != [] && !Opens(s, 0)
    ensures Mask(s, Code) == [s[0]] + Mask(s[1..], Code)
  {
  }

  /** Code is left as it is up to the first quote or comment. */
  lemma {:induction false} MaskCode(s: string, k: nat)
    requires k <= |s| && forall i :: 0 <= i < k ==> !Opens(s, i)
    ensures Mask(s, Code) == s[..k] + Mask(s[k..], Code)
    decreases k
  {
    hide Mask;
    if k == 0 {
      assert s[0..] == s;
    } else {
      CodeStep(s);
      forall i | 0 <= i < k - 1 ensures !Opens(s[1..], i) { assert !Opens(s, i + 1); }
      hide Opens;
      MaskCode(s[1..], k - 1);
      assert s[..k] == [s[0]] + s[1..][..k - 1] && s[1..][k - 1..] == s[k..];
    }
  }

  lemma CommentStep(s: string)
    requires s != []
    ensures Mask(s, Comment) == Blanks(1) + Mask(s[1..], if s[0] == '\n' then Code else Comment)
  {
  }

  /** A comment is masked to the end of its line, the newline included. */
  lemma {:induction false} MaskComment(s: string, k: nat)
    requires k < |s| && s[k] == '\n' && forall i :: 0 <= i < k ==> s[i] != '\n'
    ensures Mask(s, Comment) == Blanks(k + 1) + Mask(s[k + 1..], Code)
    decreases k
  {
    hide Mask;
    CommentStep(s);
    if k == 0 {
    } else {
      MaskComment(s[1..], k - 1);
      Further(1, k, Mask(s[k + 1..], Code));
      assert s[1..][k..] == s[k + 1..];
    }
  }

  /** The bytes from i on to the quote at k are characters of a string, an escape counting with what it escapes. */
  ghost predicate Characters(s: string, i: nat, k: nat)
    requires k < |s|
    decreases |s| - i
  {
    if i >= k then i == k && s[k] == '"'
    else if s[i] == '\\' then Characters(s, i + 2, k)
    else s[i] != '"' && Characters(s, i + 1, k)
  }

  lemma StringStep(s: string, k: nat)
    requires 0 < k < |s| && Characters(s, 0, k)
    ensures var n := if s[0] == '\\' then 2 else 1;
      && n <= k && Characters(s, n, k) && Mask(s, Str) == Blanks(n) + Mask(s[n..], Str)
  {
  }

  lemma StringEnds(s: string)
    requires s != [] && s[0] == '"'
    ensures Mask(s, Str) == Blanks(1) + Mask(s[1..], Code)
  {
  }

  /** A string is masked up to its closing quote, that included; an escaped quote does not close it. */
  lemma {:induction false} MaskString(s: string, k: nat)
    requires k < |s| && Characters(s, 0, k)
    ensures Mask(s, Str) == Blanks(k + 1) + Mask(s[k + 1..], Code)
    decreases |s|
  {
    hide Mask;
    if k == 0 {
      StringEnds(s);
    } else {
      var n := if s[0] == '\\' then 2 else 1;
      StringStep(s, k);
      hide Characters;
      CharactersInTail(s, n, n, k);
      MaskString(s[n..], k - n);
      Further(n, k - n + 1, Mask(s[k + 1..], Code));
      assert s[n..][k - n + 1..] == s[k + 1..];
    }
  }

  lemma {:induction false} CharactersInTail(s: string, n: nat, i: nat, k: nat)
    requires n <= i && k < |s| && n <= k && Characters(s, i, k)
    ensures Characters(s[n..], i - n, k - n)
    decreases |s| - i
  {
    if i >= k {
    } else {
      CharactersInTail(s, n, if s[i] == '\\' then i + 2 else i + 1, k);
    }
  }

  /** Three quotes in a row. */
  predicate Quotes(s: string, i: nat) { i + 2 < |s| && s[i] == '"' && s[i + 1] == '"' && s[i + 2] == '"' }

  lemma TripleStep(s: string)
    requires s != []
    ensures Mask(s, TripleStr) ==
      if Quotes(s, 0) then Blanks(3) + Mask(s[3..], Code) else Blanks(1) + Mask(s[1..], TripleStr)
  {
  }

  /** A triple string is masked up to the first three quotes in a row, these included. */
  lemma {:induction false} MaskTriple(s: string, k: nat)
    requires Quotes(s, k) && forall i :: 0 <= i < k ==> !Quotes(s, i)
    ensures Mask(s, TripleStr) == Blanks(k + 3) + Mask(s[k + 3..], Code)
    decreases k
  {
    hide Mask;
    TripleStep(s);
    if k == 0 {
    } else {
      assert !Quotes(s, 0);
      forall i: nat ensures Quotes(s[1..], i) <==> Quotes(s, i + 1) { }
      hide Quotes;
      MaskTriple(s[1..], k - 1);
      Further(1, k + 2, Mask(s[k + 3..], Code));
      assert s[1..][k + 2..] == s[k + 3..];
    }
  }

  /** What opens them: three quotes a triple string, one otherwise a string, two slashes a comment. */
  lemma MaskOpens(s: string)
    requires s != [] && Opens(s, 0)
    ensures Mask(s, Code) ==
      if s[0] == '/' then Blanks(2) + Mask(s[2..], Comment)
      else if Quotes(s, 0) then Blanks(3) + Mask(s[3..], TripleStr)
      else Blanks(1) + Mask(s[1..], Str)
  {
  }

  // ------------------------------------------------------------ second pass: the search

  /** Opens minus closes after position `o` and before `upto`. */
  function Depth(m: string, o: nat, upto: nat): int
    requires o < upto <= |m|
    decreases upto
  {
    if upto == o + 1 then 0
    else Depth(m, o, upto - 1) + if m[upto - 1] == '(' then 1 else if m[upto - 1] == ')' then -1 else 0
  }

  /** The parenthesis at `o` is still open at `upto`: no stretch after it closes more than it opens. */
  ghost predicate StillOpen(m: string, o: nat, upto: nat)
    requires upto <= |m|
  {
    o < upto && m[o] == '(' && forall j :: o < j <= upto ==> Depth(m, o, j) >= 0
  }

  /** Commas after `o` at its own level. */
  function Commas(m: string, o: nat, upto: nat): nat
    requires o < upto <= |m|
    decreases upto
  {
    if upto == o + 1 then 0
    else Commas(m, o, upto - 1) + if m[upto - 1] == ',' && Depth(m, o, upto - 1) == 0 then 1 else 0
  }

  /** Where the argument being typed starts: after the last such comma, or after `o`. */
  function ArgStart(m: string, o: nat, upto: nat): nat
    requires o < upto <= |m|
    decreases upto
  {
    if upto == o + 1 then upto
    else if m[upto - 1] == ',' && Depth(m, o, upto - 1) == 0 then upto
    else ArgStart(m, o, upto - 1)
  }

  datatype Answer = NoCall | Call(open: nat, commas: nat, argStart: nat)

  /** The two-pass specification. */
  ghost predicate Encloses(s: string, a: Answer) {
    var m := Mask(s, Code);
    match a
    case NoCall => forall o: nat :: !StillOpen(m, o, |m|)
    case Call(open, commas, argStart) =>
      && StillOpen(m, open, |m|)
      && (forall o: nat :: StillOpen(m, o, |m|) ==> o <= open)
      && commas == Commas(m, open, |m|) && argStart == ArgStart(m, open, |m|)
  }

  /** It has one answer. */
  lemma EnclosesUnique(s: string, a: Answer, b: Answer)
    requires Encloses(s, a) && Encloses(s, b)
    ensures a == b
  {
    if a.Call? && b.Call? { assert a.open <= b.open <= a.open; }
  }

  // ------------------------------------------------------------ the stack

  datatype Frame = Frame(open: nat, commas: nat, argStart: nat)

  /** The stack holds exactly the parentheses still open, with their own commas. */
  ghost predicate StackOk(m: string, i: nat, stack: seq<Frame>)
    requires i <= |m|
  {
    && (forall k :: 0 <= k < |stack| ==> FrameOk(m, i, stack[k]) && Depth(m, stack[k].open, i) == |stack| - 1 - k)
    && (forall k, l :: 0 <= k < l < |stack| ==> stack[k].open < stack[l].open)
    && (forall o: nat :: StillOpen(m, o, i) ==> exists k :: 0 <= k < |stack| && stack[k].open == o)
  }

  ghost predicate FrameOk(m: string, i: nat, f: Frame)
    requires i <= |m|
  {
    StillOpen(m, f.open, i) && f.commas == Commas(m, f.open, i) && f.argStart == ArgStart(m, f.open, i)
  }

  /** One byte of masked text. */
  function Step(stack: seq<Frame>, c: char, i: nat): seq<Frame> {
    if c == '(' then stack + [Frame(i, 0, i + 1)]
    else if c == ')' && stack != [] then stack[..|stack| - 1]
    else if c == ',' && stack != [] then
      stack[|stack| - 1 := stack[|stack| - 1].(commas := stack[|stack| - 1].commas + 1, argStart := i + 1)]
    else stack
  }

  /** What one more byte does to a parenthesis that was open before it. */
  lemma OneByte(m: string, o: nat, i: nat)
    requires o < i < |m|
    ensures Depth(m, o, i + 1) == Depth(m, o, i) + if m[i] == '(' then 1 else if m[i] == ')' then -1 else 0
    ensures Commas(m, o, i + 1) == Commas(m, o, i) + if m[i] == ',' && Depth(m, o, i) == 0 then 1 else 0
    ensures ArgStart(m, o, i + 1) == if m[i] == ',' && Depth(m, o, i) == 0 then i + 1 else ArgStart(m, o, i)
  {
  }

  lemma JustOpened(m: string, i: nat)
    requires i < |m| && m[i] == '('
    ensures FrameOk(m, i + 1, Frame(i, 0, i + 1)) && Depth(m, i, i + 1) == 0
  {
  }

  lemma StaysOpen(m: string, o: nat, i: nat)
    requires i < |m| && StillOpen(m, o, i) && Depth(m, o, i + 1) >= 0
    ensures StillOpen(m, o, i + 1)
  {
    hide Depth;
  }

  lemma StepFrame(m: string, i: nat, n: nat, stack: seq<Frame>, k: nat)
    requires n == i + 1 <= |m| && StackOk(m, i, stack) && k < |Step(stack, m[i], i)|
    ensures var next := Step(stack, m[i], i);
      FrameOk(m, n, next[k]) && Depth(m, next[k].open, n) == |next| - 1 - k
  {
    hide Depth, Commas, ArgStart;
    if k < |stack| {
      assert FrameOk(m, i, stack[k]) && Depth(m, stack[k].open, i) == |stack| - 1 - k;
      OneByte(m, stack[k].open, i);
      hide StillOpen;
      StaysOpen(m, stack[k].open, i);
    } else {
      JustOpened(m, i);
    }
  }

  lemma StepFinds(m: string, i: nat, n: nat, stack: seq<Frame>, o: nat)
    requires n == i + 1 <= |m| && StackOk(m, i, stack) && StillOpen(m, o, n)
    ensures var next := Step(stack, m[i], i); exists k :: 0 <= k < |next| && next[k].open == o
  {
    var next := Step(stack, m[i], i);
    if o < i {
      assert StillOpen(m, o, i);
      var k :| 0 <= k < |stack| && stack[k].open == o;
      assert Depth(m, o, n) >= 0;
      assert k < |next| && next[k].open == o;
    } else {
      assert next[|stack|].open == o;
    }
  }

  lemma StepKeeps(m: string, i: nat, n: nat, stack: seq<Frame>)
    requires n == i + 1 <= |m| && StackOk(m, i, stack)
    ensures StackOk(m, n, Step(stack, m[i], i))
  {
    var next := Step(stack, m[i], i);
    hide Depth, Commas, ArgStart;
    forall k | 0 <= k < |next|
      ensures FrameOk(m, n, next[k]) && Depth(m, next[k].open, n) == |next| - 1 - k
    {
      StepFrame(m, i, n, stack, k);
    }
    forall o: nat | StillOpen(m, o, n) ensures exists k :: 0 <= k < |next| && next[k].open == o {
      StepFinds(m, i, n, stack, o);
    }
    assert forall k :: 0 <= k < |stack| ==> FrameOk(m, i, stack[k]);
  }

  /** A blank changes nothing. */
  lemma {:induction false} BlanksKeep(m: string, i: nat, upto: nat, stack: seq<Frame>)
    requires i <= upto <= |m| && StackOk(m, i, stack) && forall j :: i <= j < upto ==> m[j] == FILL
    ensures StackOk(m, upto, stack)
    decreases upto - i
  {
    hide StackOk;
    if i == upto {
    } else {
      StepKeeps(m, i, i + 1, stack);
      BlanksKeep(m, i + 1, upto, stack);
    }
  }

  // ------------------------------------------------------------ the one-pass scan

  function Min(a: nat, b: nat): nat { if a < b then a else b }

  /** After the piece at `i`, the mask of the rest is the rest of the mask. */
  lemma PieceMasked(m: string, s: string, i: nat, mode: Mode)
    requires i < |s| == |m| && m[i..] == Mask(s[i..], mode)
    ensures var p := Lex(s[i..], mode);
      && m[i + p.width..] == Mask(s[i + p.width..], p.mode)
      && if p.code then m[i] == s[i] else forall j :: i <= j < i + p.width ==> m[j] == FILL
  {
    hide Lex;
    var p := Lex(s[i..], mode);
    assert s[i..][p.width..] == s[i + p.width..];
    assert m[i..][p.width..] == m[i + p.width..];
    assert forall j :: i <= j < i + p.width ==> m[j] == m[i..][j - i];
  }

  /** The scan has consumed whole pieces up to `i`. */
  ghost predicate ScanOk(m: string, s: string, i: nat, mode: Mode, stack: seq<Frame>) {
    i <= |s| == |m| && m[i..] == Mask(s[i..], mode) && StackOk(m, i, stack)
  }

  lemma StackAdvances(m: string, i: nat, n: nat, code: bool, stack: seq<Frame>, next: seq<Frame>)
    requires i <= n <= |m| && StackOk(m, i, stack)
    requires if code then n == i + 1 && next == Step(stack, m[i], i)
             else next == stack && forall j :: i <= j < n ==> m[j] == FILL
    ensures StackOk(m, n, next)
  {
    if code { StepKeeps(m, i, n, stack); } else { BlanksKeep(m, i, n, stack); }
  }

  /** What one piece does to the scan. */
  ghost predicate Consumes(s: string, i: nat, mode: Mode, stack: seq<Frame>, n: nat, next: Mode, top: seq<Frame>)
    requires i < |s|
  {
    var p := Lex(s[i..], mode);
    n == i + p.width && next == p.mode && top == if p.code then Step(stack, s[i], i) else stack
  }

  lemma PieceKeeps(m: string, s: string, i: nat, mode: Mode, stack: seq<Frame>, n: nat, next: Mode, top: seq<Frame>)
    requires i < |s| && ScanOk(m, s, i, mode, stack) && Consumes(s, i, mode, stack, n, next, top)
    ensures ScanOk(m, s, n, next, top)
  {
    hide Lex, Mask, StackOk, Step;
    PieceMasked(m, s, i, mode);
    StackAdvances(m, i, n, Lex(s[i..], mode).code, stack, top);
  }

  lemma ScanBegins(s: string)
    ensures ScanOk(Mask(s, Code), s, 0, Code, [])
  {
    assert s[0..] == s && Mask(s, Code)[0..] == Mask(s, Code);
  }

  /** At the end of the text the top of the stack is the answer. */
  lemma ScanEnds(m: string, s: string, mode: Mode, stack: seq<Frame>)
    requires m == Mask(s, Code) && ScanOk(m, s, |s|, mode, stack)
    ensures Encloses(s, TopOf(stack))
  {
    if stack == [] {
    } else {
      var top := stack[|stack| - 1];
      assert FrameOk(m, |s|, top);
      forall o: nat | StillOpen(m, o, |m|) ensures o <= top.open {
        var k :| 0 <= k < |stack| && stack[k].open == o;
      }
    }
  }

  function TopOf(stack: seq<Frame>): Answer {
    if |stack| == 0 then NoCall
    else Call(stack[|stack| - 1].open, stack[|stack| - 1].commas, stack[|stack| - 1].argStart)
  }

  /** The body of the loop at byte `i`; an escape at the very end steps past the text. */
  method ScanByte(s: string, i: nat, mode: Mode, stack: seq<Frame>) returns (j: nat, next: Mode, top: seq<Frame>)
    requires i < |s|
    ensures i < j <= |s| + 1 && Consumes(s, i, mode, stack, Min(j, |s|), next, top)
  {
    var c := s[i];
    j, next, top := i, mode, stack;
    match mode {
      case Comment =>
        if c == '\n' { next := Code; }
      case TripleStr =>
        if i + 2 < |s| && c == '"' && s[i + 1] == '"' && s[i + 2] == '"' { next := Code; j := j + 2; }
      case Str =>
        if c == '\\' { j := j + 1; } else if c == '"' { next := Code; }
      case Code =>
        if i + 2 < |s| && c == '"' && s[i + 1] == '"' && s[i + 2] == '"' { next := TripleStr; j := j + 2; }
        else if c == '"' { next := Str; }
        else if c == '/' && i + 1 < |s| && s[i + 1] == '/' { next := Comment; j := j + 1; }
        else if c == '(' { top := stack + [Frame(i, 0, i + 1)]; }
        else if c == ')' {
          if |stack| > 0 { top := stack[..|stack| - 1]; }
        } else if c == ',' {
          if |stack| > 0 {
            var f := stack[|stack| - 1];
            top := stack[|stack| - 1 := f.(commas := f.commas + 1, argStart := i + 1)];
          }
        }
    }
    j := j + 1;
  }

  method EnclosingCall(s: string) returns (a: Answer)
    ensures Encloses(s, a)
  {
    var stack: seq<Frame> := [];
    var mode := Code;
    var i := 0;
    ghost var m := Mask(s, Code);
    ScanBegins(s);
    while i < |s|
      invariant 0 <= i <= |s| + 1
      invariant ScanOk(m, s, Min(i, |s|), mode, stack)
    {
      var j, next, top := ScanByte(s, i, mode, stack);
      PieceKeeps(m, s, i, mode, stack, Min(j, |s|), next, top);
      i, mode, stack := j, next, top;
    }
    ScanEnds(m, s, mode, stack);
    if |stack| == 0 { return NoCall; }
    var top := stack[|stack| - 1];
    return Call(top.open, top.commas, top.argStart);
  }
}
