/**
 Slash-separated paths as byte strings: the path check of internal/pack and the two library
 functions (path.Dir, path.Base) its directory index climbs with.
*/
module Paths {
  type byte = x: int | 0 <= x < 256
  type bytes = seq<byte>

  /** One file of a workflows pack. */
  datatype File = File(path: bytes, content: bytes)

  const NUL: byte := 0
  const DOT: byte := 46
  const SLASH: byte := 47
  const BACKSLASH: byte := 92

  const ROOT: bytes := [DOT]

  // ------------------------------------------------------------ UTF-8

  predicate Continues(b: byte) { 0x80 <= b <= 0xBF }

  predicate SecondOfThree(a: byte, b: byte) {
    (if a == 0xE0 then 0xA0 else 0x80) <= b <= (if a == 0xED then 0x9F else 0xBF)
  }

  predicate SecondOfFour(a: byte, b: byte) {
    (if a == 0xF0 then 0x90 else 0x80) <= b <= (if a == 0xF4 then 0x8F else 0xBF)
  }

  /** How many bytes the code point at i takes; 0 when there is no valid one (Table 3-7 of the Unicode Standard). */
  function RuneLength(s: bytes, i: nat): (n: nat)
    ensures i + n <= |s| || n == 0
    ensures forall k :: i < k < i + n ==> Continues(s[k])
  {
    if i >= |s| then 0
    else if s[i] < 0x80 then 1
    else if 0xC2 <= s[i] <= 0xDF && i + 2 <= |s| && Continues(s[i + 1]) then 2
    else if 0xE0 <= s[i] <= 0xEF && i + 3 <= |s| && SecondOfThree(s[i], s[i + 1]) && Continues(s[i + 2]) then 3
    else if 0xF0 <= s[i] <= 0xF4 && i + 4 <= |s| && SecondOfFour(s[i], s[i + 1])
            && Continues(s[i + 2]) && Continues(s[i + 3]) then 4
    else 0
  }

  /** From i on, s is a sequence of valid code points. */
  predicate Utf8From(s: bytes, i: nat)
    decreases |s| - i
  {
    i == |s| || (RuneLength(s, i) > 0 && Utf8From(s, i + RuneLength(s, i)))
  }

  predicate Utf8(s: bytes) { Utf8From(s, 0) }

  /** No code point spans an ASCII byte, so text cut there stays text. */
  lemma {:induction false} CutAtAscii(s: bytes, c: nat, i: nat)
    requires i <= c < |s| && s[c] < 0x80 && Utf8From(s, i)
    ensures Utf8From(s[..c], i)
    decreases c - i
  {
    if i == c {
    } else {
      var n := RuneLength(s, i);
      assert i + n <= c by {
        assert forall k :: i < k < i + n ==> s[k] >= 0x80;
      }
      assert forall k :: 0 <= k < c ==> s[..c][k] == s[k];
      assert RuneLength(s[..c], i) == n;
      CutAtAscii(s, c, i + n);
    }
  }

  // ------------------------------------------------------------ Dir and Base

  function LastSlash(p: bytes): (r: int)
    ensures -1 <= r < |p|
    ensures r >= 0 ==> p[r] == SLASH
    ensures forall k :: r < k < |p| ==> p[k] != SLASH
  {
    if p == [] then -1
    else if p[|p| - 1] == SLASH then |p| - 1
    else LastSlash(p[..|p| - 1])
  }

  /** path.Dir of a clean relative path. */
  function Dir(p: bytes): bytes {
    if LastSlash(p) < 0 then ROOT else p[..LastSlash(p)]
  }

  /** path.Base of a clean relative path. */
  function Base(p: bytes): bytes { p[LastSlash(p) + 1..] }

  function Rank(p: bytes): nat { if p == ROOT then 0 else 1 + |p| }

  lemma DirRank(p: bytes)
    requires p != ROOT
    ensures Rank(Dir(p)) < Rank(p)
  {
  }

  // ------------------------------------------------------------ valid paths

  predicate StartsElement(p: bytes, i: nat)
    requires i <= |p|
  {
    i == 0 || p[i - 1] == SLASH
  }

  predicate EndsElement(p: bytes, i: nat) { i >= |p| || p[i] == SLASH }

  /** The element that starts at i is not empty, "." or "..". */
  predicate PlainElement(p: bytes, i: nat) {
    && !EndsElement(p, i)
    && !(p[i] == DOT && EndsElement(p, i + 1))
    && !(p[i] == DOT && i + 1 < |p| && p[i + 1] == DOT && EndsElement(p, i + 2))
  }

  /** fs.ValidPath minus the root: every slash-separated element is a plain name. */
  predicate Clean(p: bytes) {
    forall i: nat :: i <= |p| && StartsElement(p, i) ==> PlainElement(p, i)
  }

  predicate ValidPath(p: bytes) {
    p != [] && p != ROOT && Utf8(p) && BACKSLASH !in p && NUL !in p && Clean(p)
  }

  lemma RootNotClean(p: bytes)
    requires p == ROOT || p == []
    ensures !Clean(p)
  {
    assert StartsElement(p, 0) && !PlainElement(p, 0);
  }

  /** What a clean path with a slash in it is cut into. */
  lemma DirClean(p: bytes)
    requires Clean(p) && LastSlash(p) >= 0
    ensures Clean(Dir(p)) && Dir(p) != ROOT && Dir(p) != []
  {
    var c := LastSlash(p);
    var d := p[..c];
    forall i: nat | i <= |d| && StartsElement(d, i) ensures PlainElement(d, i) {
      assert StartsElement(p, i) && PlainElement(p, i);
    }
    assert Clean(d);
    if d == ROOT || d == [] { RootNotClean(d); }
  }

  /** The parent of a valid path is the root or a valid path. */
  lemma DirValid(p: bytes)
    requires ValidPath(p)
    ensures Dir(p) == ROOT || ValidPath(Dir(p))
  {
    var c := LastSlash(p);
    if c >= 0 {
      DirClean(p);
      CutAtAscii(p, c, 0);
      assert forall k :: 0 <= k < c ==> p[..c][k] in p;
    }
  }

  lemma RootParent(p: bytes)
    requires Clean(p)
    ensures LastSlash(p) < 0 <==> Dir(p) == ROOT
  {
    if LastSlash(p) >= 0 { DirClean(p); }
  }

  lemma SameParts(p: bytes, q: bytes)
    requires (LastSlash(p) < 0 <==> LastSlash(q) < 0) && Dir(p) == Dir(q) && Base(p) == Base(q)
    ensures p == q
  {
    hide LastSlash;
    SameCut(p, q, LastSlash(p), LastSlash(q));
  }

  /** A clean path is determined by its parent and its name. */
  lemma SamePath(p: bytes, q: bytes)
    requires Clean(p) && Clean(q) && Dir(p) == Dir(q) && Base(p) == Base(q)
    ensures p == q
  {
    hide Clean;
    RootParent(p);
    RootParent(q);
    hide Dir, Base;
    SameParts(p, q);
  }

  lemma SameValidPath(p: bytes, q: bytes)
    requires ValidPath(p) && ValidPath(q) && Dir(p) == Dir(q) && Base(p) == Base(q)
    ensures p == q
  {
    hide Dir, Base, Utf8, Clean;
    SamePath(p, q);
  }

  lemma SameCut(p: bytes, q: bytes, i: int, j: int)
    requires -1 <= i < |p| && -1 <= j < |q| && (i < 0 <==> j < 0)
    requires i >= 0 ==> p[i] == q[j] && p[..i] == q[..j]
    requires p[i + 1..] == q[j + 1..]
    ensures p == q
  {
    if i >= 0 {
      SameHalves(p, q, i, j);
    } else {
      assert p[0..] == p && q[0..] == q;
    }
  }

  lemma SameHalves(p: bytes, q: bytes, i: nat, j: nat)
    requires i < |p| && j < |q| && p[i] == q[j] && p[..i] == q[..j] && p[i + 1..] == q[j + 1..]
    ensures p == q
  {
    assert |p[..i]| == i && |q[..j]| == j;
    forall k | 0 <= k < |p| ensures p[k] == q[k] {
      if k < i { assert p[..i][k] == q[..j][k]; }
      if k > i { assert p[i + 1..][k - i - 1] == q[j + 1..][k - i - 1]; }
    }
  }

  // ------------------------------------------------------------ ancestors

  /** Every directory above p, the root included. */
  function Ancestors(p: bytes): set<bytes>
    decreases Rank(p)
  {
    if p == ROOT then {} else DirRank(p); {Dir(p)} + Ancestors(Dir(p))
  }

  lemma {:induction false} AncestorsClosed(p: bytes, a: bytes)
    requires a in Ancestors(p) && a != ROOT
    ensures Dir(a) in Ancestors(p)
    decreases Rank(p)
  {
    DirRank(p);
    if a == Dir(p) {
    } else {
      AncestorsClosed(Dir(p), a);
    }
  }

  // ------------------------------------------------------------ byte order

  /** a sorts strictly before b, as strings.Compare has it. */
  predicate Before(a: bytes, b: bytes) {
    b != [] && (a == [] || a[0] < b[0] || (a[0] == b[0] && Before(a[1..], b[1..])))
  }

  lemma {:induction false} BeforeTrans(a: bytes, b: bytes, c: bytes)
    requires Before(a, b) && Before(b, c)
    ensures Before(a, c)
  {
    if a == [] || a[0] != b[0] || b[0] != c[0] {
    } else {
      BeforeTrans(a[1..], b[1..], c[1..]);
    }
  }

  lemma {:induction false} BeforeTotal(a: bytes, b: bytes)
    ensures a == b || Before(a, b) || Before(b, a)
  {
    if a == [] || b == [] || a[0] != b[0] {
    } else {
      BeforeTotal(a[1..], b[1..]);
      if a[1..] == b[1..] { assert a == [a[0]] + a[1..] && b == [b[0]] + b[1..]; }
    }
  }
}
