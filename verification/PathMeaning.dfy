/**
 What the byte-level predicates of Paths come to, in terms of names, code points and the order of
 strings.
*/
module PathMeaning {
  import opened Options
  import opened Paths

  // ------------------------------------------------------------ names between slashes

  /** A path element: not empty, not "." or "..", and without a slash. */
  predicate PlainName(e: bytes) { e != [] && e != [46] && e != [46, 46] && 47 !in e }

  /** The names with a slash between any two. */
  function Joined(es: seq<bytes>): bytes
    requires es != []
  {
    if |es| == 1 then es[0] else es[0] + [47] + Joined(es[1..])
  }

  ghost predicate AllPlain(es: seq<bytes>) { forall k :: 0 <= k < |es| ==> PlainName(es[k]) }

  /** The first slash of p, or its end. */
  function FirstEnd(p: bytes): (c: nat)
    ensures c <= |p| && 47 !in p[..c] && (c < |p| ==> p[c] == 47)
  {
    if p == [] || p[0] == 47 then 0
    else
      var c := FirstEnd(p[1..]);
      assert p[..c + 1] == [p[0]] + p[1..][..c];
      c + 1
  }

  lemma FirstIsPlain(p: bytes)
    requires Clean(p)
    ensures PlainName(p[..FirstEnd(p)])
  {
    var c := FirstEnd(p);
    assert StartsElement(p, 0) && PlainElement(p, 0);
    var e := p[..c];
    assert forall k :: 0 <= k < c ==> e[k] == p[k] && p[k] in e;
  }

  lemma RestIsClean(p: bytes, c: nat)
    requires c < |p| && p[c] == 47 && Clean(p)
    ensures Clean(p[c + 1..])
  {
    var q := p[c + 1..];
    forall i: nat | i <= |q| && StartsElement(q, i) ensures PlainElement(q, i) {
      var j := c + 1 + i;
      assert StartsElement(p, j) && PlainElement(p, j);
      assert forall k :: 0 <= k < |q| ==> q[k] == p[c + 1 + k];
    }
  }

  lemma {:induction false} CleanSplits(p: bytes) returns (es: seq<bytes>)
    requires Clean(p)
    ensures es != [] && AllPlain(es) && p == Joined(es)
    decreases |p|
  {
    var c := FirstEnd(p);
    FirstIsPlain(p);
    if c == |p| {
      es := [p];
      assert p[..c] == p;
    } else {
      RestIsClean(p, c);
      hide Clean, PlainName;
      var more := CleanSplits(p[c + 1..]);
      es := [p[..c]] + more;
      assert es[1..] == more;
      assert p == p[..c] + [47] + p[c + 1..];
    }
  }

  lemma NameIsClean(e: bytes)
    requires PlainName(e)
    ensures Clean(e)
  {
    assert forall k :: 0 <= k < |e| ==> e[k] in e;
    assert forall i: nat :: i <= |e| && StartsElement(e, i) ==> i == 0;
    assert PlainElement(e, 0);
  }

  /** Behind the first slash everything is as in the rest alone. */
  lemma RestElements(e: bytes, q: bytes, j: nat)
    requires j <= |q|
    ensures var p, i := e + [47] + q, |e| + 1 + j;
      (StartsElement(p, i) <==> StartsElement(q, j)) && (PlainElement(p, i) <==> PlainElement(q, j))
  {
    var p := e + [47] + q;
    assert p[|e|] == 47 && forall k :: 0 <= k < |q| ==> p[|e| + 1 + k] == q[k];
  }

  lemma FirstElement(e: bytes, q: bytes)
    requires PlainName(e)
    ensures PlainElement(e + [47] + q, 0) && forall i: nat :: 0 < i <= |e| ==> !StartsElement(e + [47] + q, i)
  {
    var p := e + [47] + q;
    assert p[|e|] == 47 && forall k :: 0 <= k < |e| ==> p[k] == e[k] && e[k] in e;
  }

  lemma ConsIsClean(e: bytes, q: bytes)
    requires PlainName(e) && Clean(q)
    ensures Clean(e + [47] + q)
  {
    var p := e + [47] + q;
    FirstElement(e, q);
    hide PlainName, PlainElement, StartsElement;
    forall i: nat | i <= |p| && StartsElement(p, i) ensures PlainElement(p, i) {
      if i > |e| { RestElements(e, q, i - |e| - 1); }
    }
  }

  lemma {:induction false} JoinedIsClean(es: seq<bytes>)
    requires es != [] && AllPlain(es)
    ensures Clean(Joined(es))
    decreases |es|
  {
    if |es| == 1 {
      NameIsClean(es[0]);
    } else {
      hide Clean, PlainName;
      assert PlainName(es[0]);
      assert forall k :: 0 <= k < |es[1..]| ==> es[1..][k] == es[k + 1];
      JoinedIsClean(es[1..]);
      ConsIsClean(es[0], Joined(es[1..]));
    }
  }

  /** A path passes exactly if it is text, has no backslash and no NUL, and is names joined by single slashes. */
  lemma ValidIff(p: bytes)
    ensures ValidPath(p) <==>
      Utf8(p) && 92 !in p && 0 !in p && exists es :: es != [] && AllPlain(es) && p == Joined(es)
  {
    hide Utf8;
    if ValidPath(p) {
      var es := CleanSplits(p);
    }
    if exists es :: es != [] && AllPlain(es) && p == Joined(es) {
      var es :| es != [] && AllPlain(es) && p == Joined(es);
      JoinedIsClean(es);
      if p == ROOT || p == [] { RootNotClean(p); }
    }
  }

  // ------------------------------------------------------------ code points

  /** A Unicode scalar value: a code point that is no surrogate. */
  predicate Scalar(u: int) { 0 <= u <= 0x10FFFF && !(0xD800 <= u <= 0xDFFF) }

  /** UTF-8, as section 3.9 of the Unicode Standard spells it out (Table 3-6). */
  function Encode(u: int): bytes
    requires Scalar(u)
  {
    if u < 0x80 then [u]
    else if u < 0x800 then [0xC0 + u / 64, 0x80 + u % 64]
    else if u < 0x1_0000 then [0xE0 + u / 4096, 0x80 + u / 64 % 64, 0x80 + u % 64]
    else [0xF0 + u / 0x4_0000, 0x80 + u / 4096 % 64, 0x80 + u / 64 % 64, 0x80 + u % 64]
  }

  predicate Scalars(us: seq<int>) { forall k :: 0 <= k < |us| ==> Scalar(us[k]) }

  function Encoded(us: seq<int>): bytes
    requires Scalars(us)
  {
    if us == [] then [] else Encode(us[0]) + Encoded(us[1..])
  }

  predicate StandsAt(s: bytes, i: nat, e: bytes) { i + |e| <= |s| && s[i..i + |e|] == e }

  /** At an encoded scalar value, its length is recognised. */
  lemma EncodeIsRune(s: bytes, i: nat, u: int)
    requires Scalar(u) && StandsAt(s, i, Encode(u))
    ensures RuneLength(s, i) == |Encode(u)|
  {
    var e := Encode(u);
    var t := s[i..i + |e|];
    assert forall k :: 0 <= k < |e| ==> t[k] == s[i + k];
    if 0x800 <= u < 0x1_0000 { Digits(u); }
    if u >= 0x1_0000 { Digits(u); }
  }

  /** The base-64 digits of u. */
  lemma Digits(u: int)
    requires 0 <= u
    ensures u / 64 / 64 == u / 4096 && u / 4096 / 64 == u / 0x4_0000
    ensures u == u % 64 + 64 * (u / 64 % 64) + 4096 * (u / 4096 % 64) + 0x4_0000 * (u / 0x4_0000)
  {
    assert u == 64 * (u / 64) + u % 64;
    assert u / 64 == 64 * (u / 64 / 64) + u / 64 % 64;
    assert u / 4096 == 64 * (u / 4096 / 64) + u / 4096 % 64;
  }

  /** Where a length is recognised, an encoded scalar value stands. */
  lemma RuneIsEncoded(s: bytes, i: nat) returns (u: int)
    requires RuneLength(s, i) > 0
    ensures Scalar(u) && Encode(u) == s[i..i + RuneLength(s, i)]
  {
    var n := RuneLength(s, i);
    match n {
      case 1 =>
        u := s[i];
      case 2 =>
        u := TwoBytes(s[i], s[i + 1]);
      case 3 =>
        u := ThreeBytes(s[i], s[i + 1], s[i + 2]);
      case _ =>
        u := FourBytes(s[i], s[i + 1], s[i + 2], s[i + 3]);
    }
    assert |Encode(u)| == n && forall k :: 0 <= k < n ==> Encode(u)[k] == s[i + k];
  }

  lemma TwoBytes(a: byte, b: byte) returns (u: int)
    requires 0xC2 <= a <= 0xDF && Continues(b)
    ensures Scalar(u) && Encode(u) == [a, b]
  {
    var x: int, y: int := a - 0xC0, b - 0x80;
    u := x * 64 + y;
    assert u / 64 == x && u % 64 == y;
  }

  lemma ThreeBytes(a: byte, b: byte, c: byte) returns (u: int)
    requires 0xE0 <= a <= 0xEF && SecondOfThree(a, b) && Continues(c)
    ensures Scalar(u) && Encode(u) == [a, b, c]
  {
    var x: int, y: int, z: int := a - 0xE0, b - 0x80, c - 0x80;
    u := x * 4096 + y * 64 + z;
    assert u / 64 == x * 64 + y && u % 64 == z;
    assert u / 4096 == x && u / 64 % 64 == y;
  }

  lemma FourBytes(a: byte, b: byte, c: byte, d: byte) returns (u: int)
    requires 0xF0 <= a <= 0xF4 && SecondOfFour(a, b) && Continues(c) && Continues(d)
    ensures Scalar(u) && Encode(u) == [a, b, c, d]
  {
    var x: int, y: int, z: int, t: int := a - 0xF0, b - 0x80, c - 0x80, d - 0x80;
    u := x * 0x4_0000 + y * 4096 + z * 64 + t;
    assert u / 64 == x * 4096 + y * 64 + z && u % 64 == t;
    assert u / 4096 == x * 64 + y && u / 64 % 64 == z;
    assert u / 0x4_0000 == x && u / 4096 % 64 == y;
  }

  lemma {:induction false} TextDecodes(s: bytes, i: nat) returns (us: seq<int>)
    requires i <= |s| && Utf8From(s, i)
    ensures Scalars(us) && Encoded(us) == s[i..]
    decreases |s| - i
  {
    if i == |s| {
      us := [];
      assert s[i..] == [];
    } else {
      var n := RuneLength(s, i);
      var u := RuneIsEncoded(s, i);
      hide Encode, RuneLength, Encoded, Scalar, Scalars;
      var more := TextDecodes(s, i + n);
      us := [u] + more;
      EncodedOne(u, more);
      Rejoin(s, i, n);
    }
  }

  lemma EncodedOne(u: int, more: seq<int>)
    requires Scalar(u) && Scalars(more)
    ensures Scalars([u] + more) && Encoded([u] + more) == Encode(u) + Encoded(more)
  {
    hide Encode, Scalar;
    assert ([u] + more)[1..] == more;
  }

  lemma Rejoin(s: bytes, i: nat, n: nat)
    requires i + n <= |s|
    ensures s[i..] == s[i..i + n] + s[i + n..]
  {
  }

  lemma EncodedCons(us: seq<int>)
    requires Scalars(us) && us != []
    ensures Scalar(us[0]) && Scalars(us[1..]) && |Encode(us[0])| >= 1
    ensures Encoded(us) == Encode(us[0]) + Encoded(us[1..])
  {
    hide Scalar;
  }

  /** From i on, s is these scalar values encoded. */
  ghost predicate Spells(s: bytes, i: nat, us: seq<int>) { i <= |s| && Scalars(us) && Encoded(us) == s[i..] }

  lemma SpellsNothing(s: bytes, i: nat)
    requires Spells(s, i, [])
    ensures i == |s|
  {
    assert Encoded([]) == [] && |s[i..]| == |s| - i;
  }

  lemma SpellsMore(s: bytes, i: nat, us: seq<int>)
    requires Spells(s, i, us) && us != []
    ensures Scalar(us[0]) && 1 <= |Encode(us[0])| && StandsAt(s, i, Encode(us[0]))
    ensures Spells(s, i + |Encode(us[0])|, us[1..])
  {
    EncodedCons(us);
    hide Encode, Encoded, Scalars, Scalar;
    SplitAt(s, i, Encode(us[0]), Encoded(us[1..]));
  }

  lemma {:induction false} EncodedIsText(s: bytes, i: nat, us: seq<int>)
    requires Spells(s, i, us)
    ensures i <= |s| && Utf8From(s, i)
    decreases |us|
  {
    if us == [] {
      SpellsNothing(s, i);
    } else {
      SpellsMore(s, i, us);
      hide Encode, Utf8From, RuneLength, Scalar, Spells;
      EncodeIsRune(s, i, us[0]);
      EncodedIsText(s, i + |Encode(us[0])|, us[1..]);
      LongerText(s, i);
    }
  }

  lemma SplitAt(s: bytes, i: nat, e: bytes, more: bytes)
    requires i <= |s| && s[i..] == e + more
    ensures i + |e| <= |s| && s[i..i + |e|] == e && s[i + |e|..] == more
  {
    var t := s[i..];
    assert |t| == |s| - i && t[..|e|] == e && t[|e|..] == more;
    assert t[..|e|] == s[i..i + |e|];
    assert t[|e|..] == s[i + |e|..];
  }

  lemma LongerText(s: bytes, i: nat)
    requires i < |s| && RuneLength(s, i) > 0 && Utf8From(s, i + RuneLength(s, i))
    ensures Utf8From(s, i)
  {
  }

  /**
   Bytes are text exactly if they encode some sequence of scalar values: no overlong form, no surrogate, nothing cut.
  */
  lemma Utf8Iff(s: bytes)
    ensures Utf8(s) <==> exists us: seq<int> :: Scalars(us) && Encoded(us) == s
  {
    assert s[0..] == s;
    if Utf8(s) {
      var us := TextDecodes(s, 0);
    }
    if exists us: seq<int> :: Scalars(us) && Encoded(us) == s {
      var us: seq<int> :| Scalars(us) && Encoded(us) == s;
      EncodedIsText(s, 0, us);
    }
  }

  // ------------------------------------------------------------ parents, ancestors and order

  /** A path is its parent, a slash and its name; one without a slash has "." above it. */
  lemma ParentAndName(p: bytes)
    ensures 47 !in Base(p)
    ensures if 47 in p then p == Dir(p) + [47] + Base(p) else Dir(p) == [46] && Base(p) == p
  {
    var c := LastSlash(p);
    if c >= 0 {
      assert p == p[..c] + [p[c]] + p[c + 1..];
    } else {
      assert p[0..] == p;
    }
  }

  /** What is above a clean path: the root, and every part of it that ends before a slash. */
  lemma {:induction false} AncestorIff(p: bytes, d: bytes)
    requires Clean(p)
    ensures d in Ancestors(p) <==> d == [46] || exists i :: 0 <= i < |p| && p[i] == 47 && d == p[..i]
    decreases |p|
  {
    var c := LastSlash(p);
    if p == ROOT { RootNotClean(p); }
    if c < 0 {
      assert Dir(p) == ROOT && Ancestors(p) == {ROOT} + Ancestors(ROOT);
    } else {
      DirClean(p);
      var q := Dir(p);
      AncestorIff(q, d);
      assert Ancestors(p) == {q} + Ancestors(q);
      if i: nat :| i < |q| && q[i] == 47 && d == q[..i] {
        assert p[i] == 47 && d == p[..i];
      }
      if i: nat :| i < |p| && p[i] == 47 && d == p[..i] {
        if i == c {
          assert d == q;
        } else {
          assert i < c && q[i] == 47 && q[..i] == p[..i];
        }
      }
      if d == q { assert p[c] == 47 && d == p[..c]; }
    }
  }

  /** The order of strings: a proper prefix first, else the smaller byte at the first difference. */
  ghost predicate Precedes(a: bytes, b: bytes) {
    a < b || exists k :: 0 <= k < |a| && DiffersUp(a, b, k)
  }

  predicate DiffersUp(a: bytes, b: bytes, k: nat) { k < |a| && k < |b| && a[..k] == b[..k] && a[k] < b[k] }

  lemma TailDiffers(a: bytes, b: bytes, k: nat)
    requires a != [] && b != [] && a[0] == b[0]
    ensures DiffersUp(a, b, k + 1) <==> DiffersUp(a[1..], b[1..], k)
  {
    var s, t := a[1..], b[1..];
    if k < |s| && k < |t| {
      assert a[..k + 1] == [a[0]] + s[..k] && b[..k + 1] == [b[0]] + t[..k];
    }
  }

  lemma DiffersFirst(a: bytes, b: bytes, k: nat)
    requires a != [] && b != [] && a[0] != b[0]
    ensures DiffersUp(a, b, k) ==> k == 0
  {
    if 0 < k < |a| && k < |b| { assert a[..k][0] == a[0] && b[..k][0] == b[0]; }
  }

  lemma {:induction false} BeforeIff(a: bytes, b: bytes)
    ensures Before(a, b) <==> Precedes(a, b)
    decreases |a|
  {
    if a == [] || b == [] {
    } else if a[0] == b[0] {
      var s, t := a[1..], b[1..];
      BeforeIff(s, t);
      assert a == [a[0]] + s && b == [b[0]] + t;
      assert a < b <==> s < t;
      assert !DiffersUp(a, b, 0);
      if k :| 0 <= k < |s| && DiffersUp(s, t, k) { TailDiffers(a, b, k); }
      if k :| 0 <= k < |a| && DiffersUp(a, b, k) { TailDiffers(a, b, k - 1); }
    } else {
      assert a[..0] == b[..0];
      assert DiffersUp(a, b, 0) <==> a[0] < b[0];
      if k :| 0 <= k < |a| && DiffersUp(a, b, k) { DiffersFirst(a, b, k); }
    }
  }
}
