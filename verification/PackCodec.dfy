/**
 The encrypted workflows pack (internal/pack/pack.go): a header and sealed entries, each bound to
 its position by the authenticated data. AES-GCM is a parameter; Ideal states what is taken of it.
*/
module PackCodec {
  import opened Options
  import opened Paths

  // ------------------------------------------------------------ the cipher

  /** Authenticated encryption under one key: (nonce, text, associated data). */
  datatype Aead = Aead(
    seal: (bytes, bytes, bytes) -> bytes,
    open: (bytes, bytes, bytes) -> Option<bytes>)

  /**
   Sections 7.1 and 7.2 of NIST SP 800-38D, and no forgeries: only what was sealed opens, and it
   opens under the associated data it was sealed with. Associated data here is an entry index, four
   bytes; more of it than a 16-byte tag can tell apart could not be bound.
  */
  ghost predicate Ideal(a: Aead) {
    && (forall n, p, d {:trigger At(n, p, d)} ::
          |a.seal(n, p, d)| == |p| + TAG_LEN && a.open(n, a.seal(n, p, d), d) == Some(p))
    && (forall n, c, d {:trigger At(n, c, d)} ::
          a.open(n, c, d).Some? ==> c == a.seal(n, a.open(n, c, d).value, d))
    && (forall n, c, d, e {:trigger At(n, c, d), At(n, c, e)} ::
          |d| == |e| == INDEX_LEN && a.open(n, c, d).Some? && a.open(n, c, e).Some? ==> d == e)
  }

  /** Names the point at which a law of the cipher is used. */
  ghost predicate At(n: bytes, x: bytes, d: bytes) { true }

  function Zeros(k: nat): (r: bytes)
    ensures |r| == k
  {
    seq(k, _ => 0)
  }

  /** A cipher without secrecy that meets the laws: the text, and a tag that spells the index out. */
  function ToySeal(n: bytes, p: bytes, d: bytes): bytes {
    p + (if |d| == INDEX_LEN then d + Zeros(TAG_LEN - INDEX_LEN) else Zeros(TAG_LEN))
  }

  function ToyOpen(n: bytes, c: bytes, d: bytes): Option<bytes> {
    if |c| >= TAG_LEN && c == ToySeal(n, c[..|c| - TAG_LEN], d) then Some(c[..|c| - TAG_LEN]) else None
  }

  lemma ToyOpens(n: bytes, p: bytes, d: bytes)
    ensures |ToySeal(n, p, d)| == |p| + TAG_LEN && ToyOpen(n, ToySeal(n, p, d), d) == Some(p)
  {
    assert ToySeal(n, p, d)[..|p|] == p;
  }

  lemma ToyBinds(n: bytes, c: bytes, d: bytes, e: bytes)
    requires |d| == |e| == INDEX_LEN && ToyOpen(n, c, d).Some? && ToyOpen(n, c, e).Some?
    ensures d == e
  {
    var k := |c| - TAG_LEN;
    assert c[k..k + INDEX_LEN] == d && c[k..k + INDEX_LEN] == e;
  }

  /** The laws can be met together. */
  lemma IdealExists()
    ensures Ideal(Aead(ToySeal, ToyOpen))
  {
    var a := Aead(ToySeal, ToyOpen);
    forall n: bytes, p: bytes, d: bytes
      ensures |a.seal(n, p, d)| == |p| + TAG_LEN && a.open(n, a.seal(n, p, d), d) == Some(p)
    {
      ToyOpens(n, p, d);
    }
    forall n: bytes, c: bytes, d: bytes | a.open(n, c, d).Some? ensures c == a.seal(n, a.open(n, c, d).value, d) {
    }
    forall n: bytes, c: bytes, d: bytes, e: bytes
      | |d| == |e| == INDEX_LEN && a.open(n, c, d).Some? && a.open(n, c, e).Some?
      ensures d == e
    {
      ToyBinds(n, c, d, e);
    }
  }

  // ------------------------------------------------------------ constants

  const MAGIC: bytes := [68, 77, 80, 75]   // "DMPK"
  const VERSION: byte := 2
  const KEY_SIZE := 32
  const HEADER_LEN := 12
  const NONCE_LEN := 12
  const TAG_LEN := 16
  const INDEX_LEN := 4
  const MAX_PATH_LEN := 0xFFFF
  const MAX_ENTRIES := 100000
  const MAX_ENTRY_LEN := 0x100_0000

  // ------------------------------------------------------------ little-endian integers

  /** The two bytes of uint16(n). */
  function U16(n: nat): (r: bytes)
    ensures |r| == 2
  {
    [n % 256, n / 256 % 256]
  }

  function FromU16(b: bytes): (n: nat)
    requires |b| == 2
    ensures n < 0x1_0000
  {
    var lo: int, hi: int := b[0], b[1];
    lo + 256 * hi
  }

  /** The four bytes of uint32(n). */
  function U32(n: nat): (r: bytes)
    ensures |r| == 4
  {
    U16(n) + U16(n / 0x1_0000)
  }

  function FromU32(b: bytes): (n: nat)
    requires |b| == 4
    ensures n < 0x1_0000_0000
  {
    FromU16(b[..2]) + 0x1_0000 * FromU16(b[2..])
  }

  lemma U16Reads(n: nat)
    ensures FromU16(U16(n)) == n % 0x1_0000
  {
    assert n % 0x1_0000 == n % 256 + 256 * (n / 256 % 256);
  }

  lemma U16Writes(b: bytes)
    requires |b| == 2
    ensures U16(FromU16(b)) == b
  {
    assert FromU16(b) % 256 == b[0] && FromU16(b) / 256 == b[1];
  }

  lemma U32Reads(n: nat)
    requires n < 0x1_0000_0000
    ensures FromU32(U32(n)) == n
  {
    U16Reads(n);
    U16Reads(n / 0x1_0000);
    assert U32(n)[..2] == U16(n) && U32(n)[2..] == U16(n / 0x1_0000);
  }

  lemma U16Low(m: nat, n: nat)
    requires m < 0x1_0000
    ensures U16(m + 0x1_0000 * n) == U16(m) && (m + 0x1_0000 * n) / 0x1_0000 == n
  {
    assert (m + 0x1_0000 * n) / 256 == m / 256 + 256 * n;
  }

  lemma U32Writes(b: bytes)
    requires |b| == 4
    ensures U32(FromU32(b)) == b
  {
    U16Writes(b[..2]);
    U16Writes(b[2..]);
    U16Low(FromU16(b[..2]), FromU16(b[2..]));
    assert b == b[..2] + b[2..];
  }

  // ------------------------------------------------------------ what a pack is made of

  /** One entry as it was sealed: the position it was sealed for, its nonce, and the file. */
  datatype Piece = Piece(index: nat, nonce: bytes, file: File)

  predicate Sealable(f: File) {
    ValidPath(f.path) && |f.path| <= MAX_PATH_LEN && 2 + |f.path| + |f.content| + TAG_LEN <= MAX_ENTRY_LEN
  }

  ghost predicate Ok(p: Piece) {
    p.index < MAX_ENTRIES && |p.nonce| == NONCE_LEN && Sealable(p.file)
  }

  ghost predicate AllOk(ps: seq<Piece>) { forall k :: 0 <= k < |ps| ==> Ok(ps[k]) }

  function Plain(f: File): (r: bytes)
    ensures |r| == 2 + |f.path| + |f.content|
  {
    U16(|f.path|) + f.path + f.content
  }

  function Cipher(a: Aead, p: Piece): bytes {
    a.seal(p.nonce, Plain(p.file), U32(p.index))
  }

  function Encoded(a: Aead, p: Piece): bytes {
    p.nonce + U32(|Cipher(a, p)|) + Cipher(a, p)
  }

  function Body(a: Aead, ps: seq<Piece>): bytes {
    if ps == [] then [] else Encoded(a, ps[0]) + Body(a, ps[1..])
  }

  function Header(spare: bytes, count: nat): bytes {
    MAGIC + [VERSION] + spare + U32(count)
  }

  /** A pack put together from sealed entries; spare are the three header bytes nothing looks at. */
  function Assemble(a: Aead, spare: bytes, ps: seq<Piece>): bytes {
    Header(spare, |ps|) + Body(a, ps)
  }

  function FilesOf(ps: seq<Piece>): seq<File> {
    if ps == [] then [] else [ps[0].file] + FilesOf(ps[1..])
  }

  /** Every entry stands at the position it was sealed for. */
  ghost predicate InPlace(ps: seq<Piece>, from: nat) {
    forall k :: 0 <= k < |ps| ==> ps[k].index == from + k
  }

  ghost predicate Distinct(ps: seq<Piece>) {
    forall j, k :: 0 <= j < k < |ps| ==> ps[j].file.path != ps[k].file.path
  }

  ghost predicate Unseen(ps: seq<Piece>, seen: set<bytes>) {
    forall k :: 0 <= k < |ps| ==> ps[k].file.path !in seen
  }

  // ------------------------------------------------------------ Open

  datatype Error =
    | BadKey
    | BadMagic
    | BadVersion(version: byte)
    | TooMany(count: nat)
    | Truncated(i: nat)
    | TooLong(i: nat)
    | NotAuthentic(i: nat)
    | NoPathHeader(i: nat)
    | TruncatedPath(i: nat)
    | InvalidPath(i: nat)
    | Repeats(i: nat)
    | Trailing(n: nat)

  datatype Parsed = Bad(error: Error) | Good(file: File, rest: bytes)

  datatype Opened = Fail(error: Error) | Files(files: seq<File>)

  function ParsePlain(plain: bytes, i: nat, rest: bytes): Parsed {
    if |plain| < 2 then Bad(NoPathHeader(i))
    else
      var n := FromU16(plain[..2]);
      if 2 + n > |plain| then Bad(TruncatedPath(i))
      else if !ValidPath(plain[2..2 + n]) then Bad(InvalidPath(i))
      else Good(File(plain[2..2 + n], plain[2 + n..]), rest)
  }

  /** Entry i at the front of s. */
  function ParseEntry(a: Aead, s: bytes, i: nat): Parsed
    requires i < MAX_ENTRIES
  {
    if |s| < NONCE_LEN + 4 then Bad(Truncated(i))
    else
      var len := FromU32(s[NONCE_LEN..NONCE_LEN + 4]);
      var body := s[NONCE_LEN + 4..];
      if len > MAX_ENTRY_LEN then Bad(TooLong(i))
      else if |body| < len then Bad(Truncated(i))
      else
        match a.open(s[..NONCE_LEN], body[..len], U32(i))
        case None => Bad(NotAuthentic(i))
        case Some(plain) => ParsePlain(plain, i, body[len..])
  }

  /** Entries i up to count from s, which they have to use up. */
  function OpenBody(a: Aead, s: bytes, i: nat, count: nat, seen: set<bytes>): Opened
    requires i <= count <= MAX_ENTRIES
    decreases count - i
  {
    if i == count then (if s == [] then Files([]) else Fail(Trailing(|s|)))
    else
      match ParseEntry(a, s, i)
      case Bad(e) => Fail(e)
      case Good(f, rest) =>
        if f.path in seen then Fail(Repeats(i))
        else
          match OpenBody(a, rest, i + 1, count, seen + {f.path})
          case Fail(e) => Fail(e)
          case Files(fs) => Files([f] + fs)
  }

  /** What Open returns: the key, the header, then the entries. */
  function OpenPack(raw: bytes, key: bytes, cipher: bytes -> Aead): Opened {
    if |key| != KEY_SIZE then Fail(BadKey)
    else if |raw| < HEADER_LEN || raw[..4] != MAGIC then Fail(BadMagic)
    else if raw[4] != VERSION then Fail(BadVersion(raw[4]))
    else
      var count := FromU32(raw[8..HEADER_LEN]);
      if count > MAX_ENTRIES then Fail(TooMany(count))
      else OpenBody(cipher(key), raw[HEADER_LEN..], 0, count, {})
  }

  // ------------------------------------------------------------ one entry

  lemma TailOk(ps: seq<Piece>)
    requires ps != [] && AllOk(ps)
    ensures AllOk(ps[1..]) && Ok(ps[0])
  {
    hide Ok;
    forall k | 0 <= k < |ps[1..]| ensures Ok(ps[1..][k]) {
      assert Ok(ps[k + 1]);
      assert ps[1..][k] == ps[k + 1];
    }
  }

  lemma PlainParses(f: File, i: nat, rest: bytes)
    requires ValidPath(f.path) && |f.path| <= MAX_PATH_LEN
    ensures ParsePlain(Plain(f), i, rest) == Good(f, rest)
  {
    hide Utf8, Clean;
    var plain := Plain(f);
    var n := |f.path|;
    U16Reads(n);
    assert plain[..2] == U16(n);
    assert plain[2..2 + n] == f.path;
    assert plain[2 + n..] == f.content;
  }

  lemma PlainBack(plain: bytes, i: nat, rest: bytes)
    requires ParsePlain(plain, i, rest).Good?
    ensures var r := ParsePlain(plain, i, rest);
      r.rest == rest && Plain(r.file) == plain && ValidPath(r.file.path) && |r.file.path| <= MAX_PATH_LEN
  {
    hide ValidPath, U16, FromU16;
    var n := FromU16(plain[..2]);
    U16Writes(plain[..2]);
    assert plain == plain[..2] + plain[2..2 + n] + plain[2 + n..];
  }

  lemma SealOpens(a: Aead, n: bytes, p: bytes, d: bytes)
    requires Ideal(a)
    ensures |a.seal(n, p, d)| == |p| + TAG_LEN && a.open(n, a.seal(n, p, d), d) == Some(p)
  {
    assert At(n, p, d);
  }

  lemma OpenedWasSealed(a: Aead, n: bytes, c: bytes, d: bytes)
    requires Ideal(a) && a.open(n, c, d).Some?
    ensures c == a.seal(n, a.open(n, c, d).value, d)
  {
    assert At(n, c, d);
  }

  /** What was sealed under other data does not open. */
  lemma SealedElsewhere(a: Aead, n: bytes, p: bytes, d: bytes, e: bytes)
    requires Ideal(a) && d != e && |d| == |e| == INDEX_LEN
    ensures a.open(n, a.seal(n, p, d), e) == None
  {
    SealOpens(a, n, p, d);
    assert At(n, a.seal(n, p, d), d) && At(n, a.seal(n, p, d), e);
  }

  lemma Slices(n: bytes, u: bytes, c: bytes, rest: bytes)
    requires |n| == NONCE_LEN && |u| == 4
    ensures var s := n + u + c + rest;
      && s[..NONCE_LEN] == n && s[NONCE_LEN..NONCE_LEN + 4] == u
      && s[NONCE_LEN + 4..][..|c|] == c && s[NONCE_LEN + 4..][|c|..] == rest
  {
    var s := n + u + c + rest;
    assert s == n + (u + (c + rest));
    assert s[NONCE_LEN..] == u + (c + rest);
    assert s[NONCE_LEN + 4..] == c + rest;
  }

  lemma CipherSize(a: Aead, p: Piece)
    requires Ideal(a) && Ok(p)
    ensures |Cipher(a, p)| == 2 + |p.file.path| + |p.file.content| + TAG_LEN <= MAX_ENTRY_LEN
  {
    SealOpens(a, p.nonce, Plain(p.file), U32(p.index));
  }

  /** A sealed entry is read back at its own position and at no other. */
  lemma EntryReads(a: Aead, p: Piece, rest: bytes, i: nat)
    requires Ideal(a) && Ok(p) && i < MAX_ENTRIES
    ensures ParseEntry(a, Encoded(a, p) + rest, i) == if p.index == i then Good(p.file, rest) else Bad(NotAuthentic(i))
  {
    var c := Cipher(a, p);
    CipherSize(a, p);
    U32Reads(|c|);
    Slices(p.nonce, U32(|c|), c, rest);
    if p.index == i {
      SealOpens(a, p.nonce, Plain(p.file), U32(i));
      PlainParses(p.file, i, rest);
    } else {
      U32Reads(p.index);
      U32Reads(i);
      SealedElsewhere(a, p.nonce, Plain(p.file), U32(p.index), U32(i));
    }
  }

  /** Whatever parses as an entry is the encoding of what it parsed to. */
  lemma EntryBack(a: Aead, s: bytes, i: nat) returns (p: Piece)
    requires Ideal(a) && i < MAX_ENTRIES && ParseEntry(a, s, i).Good?
    ensures Ok(p) && p.index == i && p.file == ParseEntry(a, s, i).file
    ensures s == Encoded(a, p) + ParseEntry(a, s, i).rest
  {
    hide ValidPath, FromU32, U32, ParsePlain, Plain;
    var len := FromU32(s[NONCE_LEN..NONCE_LEN + 4]);
    var body := s[NONCE_LEN + 4..];
    var plain := a.open(s[..NONCE_LEN], body[..len], U32(i)).value;
    PlainBack(plain, i, body[len..]);
    p := Piece(i, s[..NONCE_LEN], ParseEntry(a, s, i).file);
    OpenedWasSealed(a, p.nonce, body[..len], U32(i));
    SealOpens(a, p.nonce, plain, U32(i));
    assert body[..len] == Cipher(a, p);
    U32Writes(s[NONCE_LEN..NONCE_LEN + 4]);
    assert s == s[..NONCE_LEN] + s[NONCE_LEN..NONCE_LEN + 4] + (body[..len] + body[len..]);
  }

  // ------------------------------------------------------------ a whole pack

  lemma TailPlaces(ps: seq<Piece>, from: nat)
    requires ps != []
    ensures InPlace(ps, from) <==> ps[0].index == from && InPlace(ps[1..], from + 1)
  {
    assert forall k :: 0 <= k < |ps[1..]| ==> ps[1..][k] == ps[k + 1];
    if ps[0].index == from && InPlace(ps[1..], from + 1) {
      forall k | 0 <= k < |ps| ensures ps[k].index == from + k {
        if k > 0 { assert ps[1..][k - 1].index == from + 1 + (k - 1); }
      }
    }
    if InPlace(ps, from) {
      forall k | 0 <= k < |ps[1..]| ensures ps[1..][k].index == from + 1 + k {
        assert ps[k + 1].index == from + (k + 1);
      }
    }
  }

  lemma TailDistinct(ps: seq<Piece>, seen: set<bytes>)
    requires ps != []
    ensures (Distinct(ps) && Unseen(ps, seen)) <==>
      (ps[0].file.path !in seen && Distinct(ps[1..]) && Unseen(ps[1..], seen + {ps[0].file.path}))
  {
    assert forall k :: 0 <= k < |ps[1..]| ==> ps[1..][k] == ps[k + 1];
    assert forall k :: 1 <= k < |ps| ==> ps[k] == ps[1..][k - 1];
  }

  lemma {:induction false} BodyOpens(a: Aead, ps: seq<Piece>, i: nat, seen: set<bytes>)
    requires Ideal(a) && AllOk(ps) && i + |ps| <= MAX_ENTRIES
    ensures var r := OpenBody(a, Body(a, ps), i, i + |ps|, seen);
      && (r.Files? <==> InPlace(ps, i) && Distinct(ps) && Unseen(ps, seen))
      && (r.Files? ==> r.files == FilesOf(ps))
    decreases |ps|
  {
    hide ValidPath, ParseEntry, Encoded;
    if ps == [] {
    } else {
      hide InPlace, Distinct, Unseen, Ok;
      TailOk(ps);
      TailPlaces(ps, i);
      TailDistinct(ps, seen);
      EntryReads(a, ps[0], Body(a, ps[1..]), i);
      BodyOpens(a, ps[1..], i + 1, seen + {ps[0].file.path});
    }
  }

  lemma HeaderReads(spare: bytes, count: nat, body: bytes)
    requires |spare| == 3 && count <= MAX_ENTRIES
    ensures var raw := Header(spare, count) + body;
      && |raw| == HEADER_LEN + |body| && raw[..4] == MAGIC && raw[4] == VERSION
      && FromU32(raw[8..HEADER_LEN]) == count && raw[HEADER_LEN..] == body
  {
    var raw := Header(spare, count) + body;
    U32Reads(count);
    assert raw[8..HEADER_LEN] == U32(count);
  }

  lemma PastHeader(cipher: bytes -> Aead, key: bytes, spare: bytes, count: nat, body: bytes)
    requires |spare| == 3 && count <= MAX_ENTRIES
    ensures OpenPack(Header(spare, count) + body, key, cipher)
         == if |key| == KEY_SIZE then OpenBody(cipher(key), body, 0, count, {}) else Fail(BadKey)
  {
    hide OpenBody, Header, FromU32;
    HeaderReads(spare, count, body);
  }

  /**
   Any sealed entries, from any packs under this key and in any order, form a pack that opens
   exactly when each stands at the position it was sealed for and no path repeats.
  */
  lemma OpensExactly(cipher: bytes -> Aead, key: bytes, spare: bytes, ps: seq<Piece>)
    requires Ideal(cipher(key)) && AllOk(ps) && |ps| <= MAX_ENTRIES && |spare| == 3
    ensures var r := OpenPack(Assemble(cipher(key), spare, ps), key, cipher);
      && (r.Files? <==> |key| == 32 && InPlace(ps, 0) && Distinct(ps))
      && (r.Files? ==> r.files == FilesOf(ps))
  {
    hide OpenPack, OpenBody, Header, FilesOf, Body, Ok;
    PastHeader(cipher, key, spare, |ps|, Body(cipher(key), ps));
    BodyOpens(cipher(key), ps, 0, {});
  }

  lemma BodyCons(a: Aead, p: Piece, more: seq<Piece>)
    ensures Body(a, [p] + more) == Encoded(a, p) + Body(a, more) && FilesOf([p] + more) == [p.file] + FilesOf(more)
  {
    hide Encoded;
    assert ([p] + more)[1..] == more;
  }

  lemma OpenedStep(a: Aead, s: bytes, i: nat, count: nat, seen: set<bytes>)
    requires i < count <= MAX_ENTRIES && OpenBody(a, s, i, count, seen).Files?
    ensures var e := ParseEntry(a, s, i);
      && e.Good? && e.file.path !in seen
      && OpenBody(a, e.rest, i + 1, count, seen + {e.file.path}).Files?
      && OpenBody(a, s, i, count, seen).files == [e.file]
          + OpenBody(a, e.rest, i + 1, count, seen + {e.file.path}).files
  {
    hide ParseEntry;
  }

  /** p and more are what the pieces of s from position i on have to be. */
  ghost predicate BackTo(a: Aead, s: bytes, i: nat, seen: set<bytes>, ps: seq<Piece>) {
    AllOk(ps) && InPlace(ps, i) && Distinct(ps) && Unseen(ps, seen) && s == Body(a, ps)
  }

  lemma BackMore(a: Aead, s: bytes, i: nat, seen: set<bytes>, p: Piece, rest: bytes, more: seq<Piece>)
    requires Ok(p) && p.index == i && p.file.path !in seen && s == Encoded(a, p) + rest
    requires BackTo(a, rest, i + 1, seen + {p.file.path}, more)
    ensures BackTo(a, s, i, seen, [p] + more)
  {
    hide Encoded, Ok, AllOk, InPlace, Distinct, Unseen, Body;
    var ps := [p] + more;
    assert ps[0] == p && ps[1..] == more;
    BodyCons(a, p, more);
    HeadOk(p, more);
    TailPlaces(ps, i);
    TailDistinct(ps, seen);
  }

  lemma BackEnd(a: Aead, s: bytes, i: nat, count: nat, seen: set<bytes>)
    requires i == count <= MAX_ENTRIES && OpenBody(a, s, i, count, seen).Files?
    ensures BackTo(a, s, i, seen, []) && OpenBody(a, s, i, count, seen).files == FilesOf([])
  {
  }

  lemma {:induction false} BodyBack(a: Aead, s: bytes, i: nat, count: nat, seen: set<bytes>) returns (ps: seq<Piece>)
    requires Ideal(a) && i <= count <= MAX_ENTRIES && OpenBody(a, s, i, count, seen).Files?
    ensures |ps| == count - i && BackTo(a, s, i, seen, ps) && OpenBody(a, s, i, count, seen).files == FilesOf(ps)
    decreases count - i
  {
    hide *;
    if i == count {
      ps := [];
      BackEnd(a, s, i, count, seen);
    } else {
      OpenedStep(a, s, i, count, seen);
      var p := EntryBack(a, s, i);
      var e := ParseEntry(a, s, i);
      var more := BodyBack(a, e.rest, i + 1, count, seen + {p.file.path});
      ps := [p] + more;
      BackMore(a, s, i, seen, p, e.rest, more);
      BodyCons(a, p, more);
    }
  }

  lemma HeadOk(p: Piece, more: seq<Piece>)
    requires Ok(p) && AllOk(more)
    ensures AllOk([p] + more)
  {
    hide Ok;
    var ps := [p] + more;
    forall k | 0 <= k < |ps| ensures Ok(ps[k]) {
      if k > 0 { assert ps[k] == more[k - 1] && Ok(more[k - 1]); }
    }
  }

  /** Conversely, a raw pack that opens is the encoding of what it opened to, the three spare bytes apart. */
  lemma OpenedIsEncoding(raw: bytes, key: bytes, cipher: bytes -> Aead) returns (ps: seq<Piece>)
    requires Ideal(cipher(key)) && OpenPack(raw, key, cipher).Files?
    ensures |key| == KEY_SIZE && |raw| >= HEADER_LEN && |ps| <= MAX_ENTRIES
    ensures AllOk(ps) && InPlace(ps, 0) && Distinct(ps) && OpenPack(raw, key, cipher).files == FilesOf(ps)
    ensures raw == Assemble(cipher(key), raw[5..8], ps)
  {
    hide ValidPath, ParseEntry, FromU32, U32;
    var count := FromU32(raw[8..HEADER_LEN]);
    ps := BodyBack(cipher(key), raw[HEADER_LEN..], 0, count, {});
    U32Writes(raw[8..HEADER_LEN]);
    assert raw == raw[..4] + [raw[4]] + raw[5..8] + raw[8..HEADER_LEN] + raw[HEADER_LEN..];
  }

  /**
   A selection of one pack's entries, in any order and with repeats, opens under a matching count
   exactly when it is the entries 0, 1, 2, ... up to some point: the count is not authenticated, so
   dropping entries from the end goes unnoticed, and nothing else does.
  */
  lemma SelectionOpens(cipher: bytes -> Aead, key: bytes, ps: seq<Piece>, pick: seq<nat>, spare: bytes)
    requires Ideal(cipher(key)) && |key| == KEY_SIZE && |spare| == 3 && |pick| <= MAX_ENTRIES
    requires AllOk(ps) && InPlace(ps, 0) && Distinct(ps)
    requires forall k :: 0 <= k < |pick| ==> pick[k] < |ps|
    ensures OpenPack(Assemble(cipher(key), spare, Select(ps, pick)), key, cipher).Files? <==>
      forall k :: 0 <= k < |pick| ==> pick[k] == k
  {
    hide OpenPack, Assemble, Sealable;
    var qs := Select(ps, pick);
    forall k | 0 <= k < |qs| ensures Ok(qs[k]) && qs[k].index == pick[k] {
      assert pick[k] < |ps| && qs[k] == ps[pick[k]];
      assert Ok(ps[pick[k]]);
    }
    OpensExactly(cipher, key, spare, qs);
    if forall k :: 0 <= k < |pick| ==> pick[k] == k {
      forall k | 0 <= k < |qs| ensures k < |ps| && qs[k] == ps[k] { assert pick[k] < |ps|; }
    }
  }

  function Select(ps: seq<Piece>, pick: seq<nat>): (r: seq<Piece>)
    requires forall k :: 0 <= k < |pick| ==> pick[k] < |ps|
  {
    seq(|pick|, k requires 0 <= k < |pick| => ps[pick[k]])
  }

  // ------------------------------------------------------------ the format, byte by byte

  /** Four bytes, the low one first. */
  predicate Spells4(b: bytes, n: int) {
    |b| == 4 && n == b[0] as int + 0x100 * b[1] as int + 0x1_0000 * b[2] as int + 0x100_0000 * b[3] as int
  }

  lemma U32Spells(n: nat)
    requires n < 0x1_0000_0000
    ensures Spells4(U32(n), n)
  {
    U32Reads(n);
  }

  /** A pack is "DMPK", version 2, three bytes, the number of entries and the entries one after the other. */
  lemma Layout(a: Aead, spare: bytes, ps: seq<Piece>)
    requires |spare| == 3 && |ps| <= 100000
    ensures var raw := Assemble(a, spare, ps);
      && |raw| >= 12 && raw[..4] == [68, 77, 80, 75] && raw[4] == 2 && raw[5..8] == spare
      && Spells4(raw[8..12], |ps|) && raw[12..] == Body(a, ps)
  {
    hide Body, U32, FromU32;
    U32Spells(|ps|);
    var raw := Assemble(a, spare, ps);
    assert raw[8..12] == U32(|ps|);
  }

  /**
   An entry is a 12-byte nonce, the length of what is sealed, and the sealing, under its position, of
   a two-byte path length, the path and the content.
  */
  lemma EntryLayout(a: Aead, p: Piece) returns (plain: bytes, index: bytes)
    requires Ideal(a) && Ok(p)
    ensures |plain| == 2 + |p.file.path| + |p.file.content|
    ensures plain[0] as int + 0x100 * plain[1] as int == |p.file.path|
    ensures plain[2..] == p.file.path + p.file.content && Spells4(index, p.index)
    ensures var e, sealed := Encoded(a, p), a.seal(p.nonce, plain, index);
      && |p.nonce| == 12 && |sealed| == |plain| + 16 && |e| == 16 + |sealed|
      && e[..12] == p.nonce && Spells4(e[12..16], |sealed|) && e[16..] == sealed
  {
    plain, index := Plain(p.file), U32(p.index);
    CipherSize(a, p);
    U32Spells(p.index);
    U32Spells(|Cipher(a, p)|);
    U16Reads(|p.file.path|);
    assert plain[2..] == p.file.path + p.file.content;
    var e, sealed := Encoded(a, p), Cipher(a, p);
    hide Plain, U32;
    assert e == p.nonce + (U32(|sealed|) + sealed);
    assert e[12..] == U32(|sealed|) + sealed;
    assert e[12..16] == U32(|sealed|);
  }

  /** The limits: a path of 65535 bytes and 16 MiB for a sealed entry. */
  lemma SealableIff(f: File)
    ensures Sealable(f) <==>
      ValidPath(f.path) && |f.path| <= 65535 && 2 + |f.path| + |f.content| + 16 <= 16 * 1024 * 1024
  {
  }

  // ------------------------------------------------------------ Open and Seal, step by step

  /** One entry, read at position at; p is where it ends. */
  method ReadEntry(a: Aead, raw: bytes, at: nat, i: nat) returns (entry: Parsed, p: nat)
    requires at <= |raw| && i < MAX_ENTRIES
    ensures entry == ParseEntry(a, raw[at..], i)
    ensures entry.Good? ==> at <= p <= |raw| && entry.rest == raw[p..]
  {
    hide FromU32, U32, FromU16, ValidPath;
    p := at;
    ghost var s := raw[at..];
    if |raw| - p < NONCE_LEN + 4 { return Bad(Truncated(i)), p; }
    var nonce := raw[p..p + NONCE_LEN];
    p := p + NONCE_LEN;
    var len := FromU32(raw[p..p + 4]);
    p := p + 4;
    assert nonce == s[..NONCE_LEN] && raw[p - 4..p] == s[NONCE_LEN..NONCE_LEN + 4] && raw[p..] == s[NONCE_LEN + 4..];
    if len > MAX_ENTRY_LEN { return Bad(TooLong(i)), p; }
    if |raw| - p < len { return Bad(Truncated(i)), p; }
    assert raw[p..p + len] == raw[p..][..len] && raw[p + len..] == raw[p..][len..];
    var text := a.open(nonce, raw[p..p + len], U32(i));
    if text.None? { return Bad(NotAuthentic(i)), p; }
    p := p + len;
    var plain := text.value;
    if |plain| < 2 { return Bad(NoPathHeader(i)), p; }
    var size := FromU16(plain[..2]);
    if 2 + size > |plain| { return Bad(TruncatedPath(i)), p; }
    var path := plain[2..2 + size];
    if !ValidPath(path) { return Bad(InvalidPath(i)), p; }
    entry := Good(File(path, plain[2 + size..]), raw[p..]);
  }

  method Open(raw: bytes, key: bytes, cipher: bytes -> Aead) returns (r: Opened)
    ensures r == OpenPack(raw, key, cipher)
  {
    hide FromU32, ParseEntry;
    if |key| != KEY_SIZE { return Fail(BadKey); }
    var a := cipher(key);
    if |raw| < HEADER_LEN || raw[..4] != MAGIC { return Fail(BadMagic); }
    if raw[4] != VERSION { return Fail(BadVersion(raw[4])); }
    var count := FromU32(raw[8..HEADER_LEN]);
    if count > MAX_ENTRIES { return Fail(TooMany(count)); }
    var out, seen, p: nat := [], {}, HEADER_LEN;
    for i := 0 to count
      invariant HEADER_LEN <= p <= |raw|
      invariant Prepend(out, OpenBody(a, raw[p..], i, count, seen)) == OpenPack(raw, key, cipher)
    {
      var entry, next := ReadEntry(a, raw, p, i);
      if entry.Bad? { return Fail(entry.error); }
      p := next;
      if entry.file.path in seen { return Fail(Repeats(i)); }
      PrependOne(out, entry.file, OpenBody(a, raw[p..], i + 1, count, seen + {entry.file.path}));
      seen := seen + {entry.file.path};
      out := out + [entry.file];
    }
    if p != |raw| { return Fail(Trailing(|raw| - p)); }
    assert out + [] == out;
    r := Files(out);
  }

  function Prepend(out: seq<File>, r: Opened): Opened {
    if r.Fail? then r else Files(out + r.files)
  }

  lemma PrependOne(out: seq<File>, f: File, r: Opened)
    ensures Prepend(out + [f], r) == Prepend(out, if r.Fail? then r else Files([f] + r.files))
  {
    if r.Files? { assert out + [f] + r.files == out + ([f] + r.files); }
  }

  datatype SealError = SealKey | SealCount | SealPath(k: nat) | SealPathLength(k: nat) | SealLength(k: nat)

  datatype SealedPack = Refused(error: SealError) | Pack(raw: bytes)

  ghost predicate AllSealable(files: seq<File>) {
    forall k :: 0 <= k < |files| ==> Sealable(files[k])
  }

  function PiecesOf(files: seq<File>, nonces: seq<bytes>): seq<Piece>
    requires |nonces| >= |files|
  {
    seq(|files|, k requires 0 <= k < |files| => Piece(k, nonces[k], files[k]))
  }

  lemma {:induction false} BodyMore(a: Aead, ps: seq<Piece>, p: Piece)
    ensures Body(a, ps + [p]) == Body(a, ps) + Encoded(a, p)
  {
    hide Encoded;
    if ps == [] {
      assert ps + [p] == [p];
      assert [p][1..] == [];
    } else {
      assert (ps + [p])[1..] == ps[1..] + [p];
      BodyMore(a, ps[1..], p);
    }
  }

  predicate Nonces(nonces: seq<bytes>, n: nat) {
    |nonces| == n && forall k :: 0 <= k < n ==> |nonces[k]| == NONCE_LEN
  }

  /** Why a list is refused: the key, the count, or the first file that cannot be sealed and the test it fails. */
  ghost predicate Refuses(error: SealError, files: seq<File>, key: bytes) {
    match error
    case SealKey => |key| != KEY_SIZE
    case SealCount => |key| == KEY_SIZE && |files| > MAX_ENTRIES
    case SealPath(k) => k < |files| && AllSealable(files[..k]) && !ValidPath(files[k].path)
    case SealPathLength(k) =>
      k < |files| && AllSealable(files[..k]) && ValidPath(files[k].path) && |files[k].path| > MAX_PATH_LEN
    case SealLength(k) =>
      && k < |files| && AllSealable(files[..k]) && ValidPath(files[k].path) && |files[k].path| <= MAX_PATH_LEN
      && 2 + |files[k].path| + |files[k].content| + TAG_LEN > MAX_ENTRY_LEN
  }

  lemma SealableMore(files: seq<File>, i: nat)
    requires i < |files| && AllSealable(files[..i]) && Sealable(files[i])
    ensures AllSealable(files[..i + 1])
  {
    hide Sealable;
    assert files[..i + 1] == files[..i] + [files[i]];
  }

  lemma NotSealable(files: seq<File>, i: nat)
    requires i < |files| && !Sealable(files[i])
    ensures !AllSealable(files)
  {
    hide Sealable;
  }

  /** nonces stands for the random source: one fresh nonce for each file. */
  method Seal(files: seq<File>, key: bytes, cipher: bytes -> Aead, nonces: seq<bytes>) returns (r: SealedPack)
    requires Ideal(cipher(key)) && Nonces(nonces, |files|)
    ensures r.Pack? <==> |key| == 32 && |files| <= 100_000 && AllSealable(files)
    ensures r.Pack? ==> r.raw == Assemble(cipher(key), [0, 0, 0], PiecesOf(files, nonces))
    ensures r.Refused? ==> Refuses(r.error, files, key)
  {
    hide ValidPath, U16, U32, Ideal;
    if |key| != KEY_SIZE { return Refused(SealKey); }
    var a := cipher(key);
    if |files| > MAX_ENTRIES { return Refused(SealCount); }
    var out := MAGIC + [VERSION] + [0, 0, 0] + U32(|files|);
    ghost var pieces := PiecesOf(files, nonces);
    for i := 0 to |files|
      invariant out == Header([0, 0, 0], |files|) + Body(a, pieces[..i])
      invariant AllSealable(files[..i])
    {
      hide Header, Body, AllSealable, Assemble, Refuses, Sealable;
      var f := files[i];
      if !ValidPath(f.path) {
        NotSealable(files, i);
        return Refused(SealPath(i));
      }
      if |f.path| > MAX_PATH_LEN {
        NotSealable(files, i);
        return Refused(SealPathLength(i));
      }
      var plain := U16(|f.path|) + f.path + f.content;
      if |plain| + TAG_LEN > MAX_ENTRY_LEN {
        NotSealable(files, i);
        return Refused(SealLength(i));
      }
      var ct := a.seal(nonces[i], plain, U32(i));
      assert pieces[..i + 1] == pieces[..i] + [pieces[i]];
      BodyMore(a, pieces[..i], pieces[i]);
      out := out + nonces[i];
      out := out + U32(|ct|);
      out := out + ct;
      SealableMore(files, i);
    }
    assert files[..|files|] == files && pieces[..|files|] == pieces;
    r := Pack(out);
  }

  lemma PiecesReady(files: seq<File>, nonces: seq<bytes>)
    requires Nonces(nonces, |files|) && AllSealable(files) && |files| <= MAX_ENTRIES
    ensures AllOk(PiecesOf(files, nonces)) && InPlace(PiecesOf(files, nonces), 0)
  {
    hide Sealable;
    var ps := PiecesOf(files, nonces);
    forall k | 0 <= k < |ps| ensures Ok(ps[k]) { assert Sealable(files[k]); }
  }

  lemma {:induction false} FilesBack(ps: seq<Piece>, files: seq<File>)
    requires |ps| == |files| && forall k :: 0 <= k < |ps| ==> ps[k].file == files[k]
    ensures FilesOf(ps) == files
  {
    if ps == [] {
    } else {
      FilesBack(ps[1..], files[1..]);
    }
  }

  /** Open undoes Seal for every list Seal accepts without a repeated path; with one, it refuses. */
  lemma SealThenOpen(files: seq<File>, key: bytes, cipher: bytes -> Aead, nonces: seq<bytes>)
    requires Ideal(cipher(key)) && Nonces(nonces, |files|)
    requires |key| == KEY_SIZE && |files| <= MAX_ENTRIES && AllSealable(files)
    ensures OpenPack(Assemble(cipher(key), [0, 0, 0], PiecesOf(files, nonces)), key, cipher) == Files(files)
      <==> forall j, k :: 0 <= j < k < |files| ==> files[j].path != files[k].path
  {
    hide OpenPack, Assemble, Ok, AllSealable;
    var ps := PiecesOf(files, nonces);
    PiecesReady(files, nonces);
    FilesBack(ps, files);
    OpensExactly(cipher, key, [0, 0, 0], ps);
    assert forall k :: 0 <= k < |files| ==> ps[k].file.path == files[k].path;
    if Distinct(ps) {
      forall j, k | 0 <= j < k < |files| ensures files[j].path != files[k].path {
        assert ps[j].file.path != ps[k].file.path;
      }
    }
  }
}
