/**
 The language server's wire format: Content-Length framed messages (the Header Part of the
 Base Protocol section of the Language Server Protocol 3.17). Streams are byte strings; a
 body is an opaque encoded message.
*/
module Framing {
  import opened Options

  // ------------------------------------------------------------ text helpers

  predicate Has(s: string, c: char) { exists i :: 0 <= i < |s| && s[i] == c }

  function IndexOf(s: string, c: char): (r: Option<nat>)
    ensures r.Some? ==> r.value < |s| && s[r.value] == c && !Has(s[..r.value], c)
    ensures r.None? ==> !Has(s, c)
  {
    if s == [] then None
    else if s[0] == c then Some(0)
    else
      var r := IndexOf(s[1..], c);
      assert r.Some? ==> s[..r.value + 1] == [s[0]] + s[1..][..r.value];
      if r.None? then None else Some(r.value + 1)
  }

  lemma {:induction false} IndexOfFirst(a: string, c: char, b: string)
    requires !Has(a, c)
    ensures IndexOf(a + [c] + b, c) == Some(|a|)
    ensures (a + [c] + b)[..|a| + 1] == a + [c] && (a + [c] + b)[|a| + 1..] == b
  {
    if a == [] {
    } else {
      assert a[0] != c;
      assert forall i :: 0 <= i < |a| - 1 ==> a[1..][i] == a[i + 1];
      assert (a + [c] + b)[1..] == a[1..] + [c] + b;
      IndexOfFirst(a[1..], c, b);
    }
  }

  lemma HasJoin(a: string, b: string, c: char)
    ensures Has(a + b, c) <==> Has(a, c) || Has(b, c)
  {
    var s := a + b;
    if Has(a, c) {
      var i :| 0 <= i < |a| && a[i] == c;
      assert s[i] == c;
    }
    if Has(b, c) {
      var i :| 0 <= i < |b| && b[i] == c;
      assert s[|a| + i] == c;
    }
    if Has(s, c) {
      var i :| 0 <= i < |s| && s[i] == c;
      if i < |a| { assert a[i] == c; } else { assert b[i - |a|] == c; }
    }
  }

  /** strings.TrimRight(line, "\r\n"). */
  function TrimEol(s: string): string {
    if s != [] && (s[|s| - 1] == '\r' || s[|s| - 1] == '\n') then TrimEol(s[..|s| - 1]) else s
  }

  /** White space in one byte, and in the two and three bytes of its UTF-8 encoding. */
  predicate IsSpace(c: char) {
    c == ' ' || 9 <= c as int <= 13
  }

  predicate IsSpace2(a: char, b: char) {
    a as int == 0xC2 && (b as int == 0x85 || b as int == 0xA0)
  }

  predicate IsSpace3(a: char, b: char, c: char) {
    match (a as int, b as int)
    case (0xE1, 0x9A) => c as int == 0x80
    case (0xE2, 0x80) => 0x80 <= c as int <= 0x8A || c as int == 0xA8 || c as int == 0xA9 || c as int == 0xAF
    case (0xE2, 0x81) => c as int == 0x9F
    case (0xE3, 0x80) => c as int == 0x80
    case _ => false
  }

  /** How many bytes the white space takes that s begins with, or ends with; none is 0. */
  function FirstSpace(s: string): (n: nat)
    ensures n <= |s|
  {
    if |s| >= 1 && IsSpace(s[0]) then 1
    else if |s| >= 2 && IsSpace2(s[0], s[1]) then 2
    else if |s| >= 3 && IsSpace3(s[0], s[1], s[2]) then 3
    else 0
  }

  function LastSpace(s: string): (n: nat)
    ensures n <= |s|
  {
    var k := |s|;
    if k >= 1 && IsSpace(s[k - 1]) then 1
    else if k >= 2 && IsSpace2(s[k - 2], s[k - 1]) then 2
    else if k >= 3 && IsSpace3(s[k - 3], s[k - 2], s[k - 1]) then 3
    else 0
  }

  function TrimLeft(s: string): string {
    if FirstSpace(s) > 0 then TrimLeft(s[FirstSpace(s)..]) else s
  }

  function TrimRight(s: string): string {
    if LastSpace(s) > 0 then TrimRight(s[..|s| - LastSpace(s)]) else s
  }

  function TrimSpace(s: string): string { TrimRight(TrimLeft(s)) }

  function Lower(c: char): char {
    if 'A' <= c <= 'Z' then (c as int + 32) as char else c
  }

  predicate EqualFold(s: string, t: string) {
    |s| == |t| && forall i :: 0 <= i < |s| ==> Lower(s[i]) == Lower(t[i])
  }

  // ------------------------------------------------------------ decimal numbers

  const MAX_INT := 0x7fff_ffff_ffff_ffff

  predicate IsDigit(c: char) { '0' <= c <= '9' }

  predicate AllDigits(s: string) { forall i :: 0 <= i < |s| ==> IsDigit(s[i]) }

  /** How %d prints a length. */
  function Decimal(n: nat): (s: string)
    ensures s != [] && AllDigits(s)
  {
    var d := ('0' as int + n % 10) as char;
    if n < 10 then [d] else Decimal(n / 10) + [d]
  }

  function Value(s: string): nat
    requires AllDigits(s)
  {
    if s == [] then 0 else Value(s[..|s| - 1]) * 10 + (s[|s| - 1] as int - '0' as int)
  }

  lemma {:induction false} DecimalValue(n: nat)
    ensures Value(Decimal(n)) == n
  {
    if n < 10 {
    } else {
      DecimalValue(n / 10);
      var s := Decimal(n);
      assert s[..|s| - 1] == Decimal(n / 10);
    }
  }

  /** strconv.Atoi: an optional sign, digits, and a result that fits a 64-bit int. */
  function Atoi(s: string): Option<int> {
    var signed := s != [] && (s[0] == '+' || s[0] == '-');
    var digits := if signed then s[1..] else s;
    if digits == [] || !AllDigits(digits) then None
    else
      var n: int := if signed && s[0] == '-' then 0 - Value(digits) else Value(digits);
      if -MAX_INT - 1 <= n <= MAX_INT then Some(n) else None
  }

  // ------------------------------------------------------------ one message

  datatype Reply =
    | Message(body: string)
    | EndOfInput        // the stream ended in the header
    | BadLength         // a Content-Length that is not a number
    | NoLength          // the header ended without one
    | ShortBody         // the stream ended in the body
    | BadMessage        // the body does not decode

  const CONTENT_LENGTH := "Content-Length"

  datatype Header = Blank | Other | Length(n: int) | Malformed

  /** What one header line, end of line included, says. */
  function Classify(raw: string): Header {
    var line := TrimEol(raw);
    if line == "" then Blank
    else
      var colon := IndexOf(line, ':');
      if colon.None? then Other
      else if EqualFold(TrimSpace(line[..colon.value]), CONTENT_LENGTH) then
        var n := Atoi(TrimSpace(line[colon.value + 1..]));
        if n.None? then Malformed else Length(n.value)
      else Other
  }

  /** The frame one call of next reads, and what is left of the stream. */
  function NextFrom(s: string, length: int): (Reply, string)
    decreases |s|
  {
    var eol := IndexOf(s, '\n');
    if eol.None? then (EndOfInput, "")
    else
      var rest := s[eol.value + 1..];
      match Classify(s[..eol.value + 1])
      case Other => NextFrom(rest, length)
      case Length(n) => NextFrom(rest, n)
      case Malformed => (BadLength, rest)
      case Blank =>
        if length < 0 then (NoLength, rest)
        else if |rest| < length then (ShortBody, "")
        else (Message(rest[..length]), rest[length..])
  }

  /** What next makes of a frame. */
  function Decoded(decodes: string -> bool, r: Reply): Reply {
    if r.Message? && !decodes(r.body) then BadMessage else r
  }

  class Reader {
    const decodes: string -> bool   // is this a JSON-RPC message?
    var buf: string                 // what the stream still holds

    constructor (decodes: string -> bool, stream: string)
      ensures this.decodes == decodes && buf == stream
    {
      this.decodes, buf := decodes, stream;
    }

    method ReadLine() returns (line: string, eof: bool)
      modifies this
      ensures eof <==> IndexOf(old(buf), '\n').None?
      ensures eof ==> buf == ""
      ensures !eof ==> var n := IndexOf(old(buf), '\n').value + 1; line == old(buf)[..n] && buf == old(buf)[n..]
    {
      var i := 0;
      while i < |buf| && buf[i] != '\n'
        invariant 0 <= i <= |buf| && buf == old(buf)
        invariant !Has(buf[..i], '\n')
      {
        i := i + 1;
      }
      if i == |buf| {
        assert buf[..i] == buf;
        line, buf, eof := buf, "", true;
      } else {
        assert buf == buf[..i] + ['\n'] + buf[i + 1..];
        IndexOfFirst(buf[..i], '\n', buf[i + 1..]);
        line, buf, eof := buf[..i + 1], buf[i + 1..], false;
      }
    }

    method Next() returns (r: Reply)
      modifies this
      ensures var (frame, rest) := NextFrom(old(buf), -1); r == Decoded(decodes, frame) && buf == rest
    {
      var length := -1;
      while true
        invariant NextFrom(buf, length) == NextFrom(old(buf), -1)
        decreases |buf|
      {
        var line, eof := ReadLine();
        if eof { return EndOfInput; }
        var h := Classify(line);
        if h.Blank? { break; }
        if h.Malformed? { return BadLength; }
        if h.Length? { length := h.n; }
      }
      if length < 0 { return NoLength; }
      if |buf| < length {
        buf := "";
        return ShortBody;
      }
      var body := buf[..length];
      buf := buf[length..];
      r := if decodes(body) then Message(body) else BadMessage;
    }
  }

  class Writer {
    var out: string

    constructor ()
      ensures out == ""
    {
      out := "";
    }

    method Send(body: string)
      modifies this
      ensures out == old(out) + Frame(body)
    {
      out := out + ("Content-Length: " + Decimal(|body|) + "\r\n\r\n" + body);
    }
  }

  // ------------------------------------------------------------ frames

  function LengthLine(n: nat): string { "Content-Length: " + Decimal(n) + "\r\n" }

  function Frame(body: string): string { LengthLine(|body|) + "\r\n" + body }

  /** A header line with another name, such as Content-Type. */
  ghost predicate OtherLine(line: string) {
    line != [] && !Has(line[..|line| - 1], '\n') && line[|line| - 1] == '\n' && Classify(line).Other?
  }

  function Join(lines: seq<string>): string {
    if lines == [] then "" else lines[0] + Join(lines[1..])
  }

  /** A frame as other clients send it, with header lines around the length. */
  function FrameWith(before: seq<string>, body: string, after: seq<string>): string {
    Join(before) + LengthLine(|body|) + Join(after) + "\r\n" + body
  }

  lemma LineSplits(line: string, rest: string)
    requires line != [] && !Has(line[..|line| - 1], '\n') && line[|line| - 1] == '\n'
    ensures IndexOf(line + rest, '\n') == Some(|line| - 1)
    ensures (line + rest)[..|line|] == line && (line + rest)[|line|..] == rest
  {
    var a := line[..|line| - 1];
    assert line == a + ['\n'];
    assert line + rest == a + ['\n'] + rest;
    IndexOfFirst(a, '\n', rest);
  }

  lemma {:induction false} SkipOthers(lines: seq<string>, rest: string, length: int)
    requires forall i :: 0 <= i < |lines| ==> OtherLine(lines[i])
    ensures NextFrom(Join(lines) + rest, length) == NextFrom(rest, length)
  {
    if lines == [] {
      assert Join(lines) + rest == rest;
    } else {
      var tail := Join(lines[1..]) + rest;
      assert Join(lines) + rest == lines[0] + tail;
      assert OtherLine(lines[0]);
      LineSplits(lines[0], tail);
      SkipOthers(lines[1..], rest, length);
    }
  }

  lemma TrimDigits(s: string)
    requires s != [] && AllDigits(s)
    ensures TrimSpace([' '] + s) == s && Atoi(s) == (if Value(s) <= MAX_INT then Some(Value(s)) else None)
  {
    assert IsDigit(s[0]) && IsDigit(s[|s| - 1]);
    TrimPadBefore([' '], s);
    AtoiIs(s);
  }

  lemma DigitsPlain(s: string, c: char)
    requires AllDigits(s) && !IsDigit(c)
    ensures !Has(s, c)
  {
    forall i | 0 <= i < |s| ensures s[i] != c { assert IsDigit(s[i]); }
  }

  /** Dropping the end of a line that closes with a digit. */
  lemma TrimLine(line: string)
    requires line != [] && IsDigit(line[|line| - 1])
    ensures TrimEol(line + "\r\n") == line
  {
    var raw := line + "\r\n";
    var once := line + "\r";
    assert raw[..|raw| - 1] == once && raw[|raw| - 1] == '\n';
    assert once[..|once| - 1] == line && once[|once| - 1] == '\r';
    assert TrimEol(line) == line;
    assert TrimEol(once) == TrimEol(line);
    assert TrimEol(raw) == TrimEol(once);
  }

  /** The header name is printable, so neither trimming nor splitting touches it. */
  lemma NamePlain()
    ensures TrimSpace(CONTENT_LENGTH) == CONTENT_LENGTH
    ensures !Has(CONTENT_LENGTH, ':') && !Has(CONTENT_LENGTH, '\n')
  {
    assert CONTENT_LENGTH[0] == 'C' && CONTENT_LENGTH[|CONTENT_LENGTH| - 1] == 'h';
    assert FirstSpace(CONTENT_LENGTH) == 0 && LastSpace(CONTENT_LENGTH) == 0;
  }

  /** The line is the name, a colon, a blank and the number. */
  lemma LengthLineSplits(n: nat)
    ensures var d := Decimal(n);
      var line := CONTENT_LENGTH + [':'] + ([' '] + d);
      && TrimEol(LengthLine(n)) == line && IndexOf(line, ':') == Some(|CONTENT_LENGTH|)
      && line[..|CONTENT_LENGTH|] == CONTENT_LENGTH && line[|CONTENT_LENGTH| + 1..] == [' '] + d
  {
    hide TrimSpace, IndexOf, TrimEol;
    var d := Decimal(n);
    hide Decimal;
    var line := CONTENT_LENGTH + [':'] + ([' '] + d);
    assert LengthLine(n) == line + "\r\n";
    assert line[|line| - 1] == d[|d| - 1] && IsDigit(d[|d| - 1]);
    TrimLine(line);
    NamePlain();
    IndexOfFirst(CONTENT_LENGTH, ':', [' '] + d);
  }

  lemma LengthLineReads(n: nat)
    requires n <= MAX_INT
    ensures Classify(LengthLine(n)) == Length(n)
  {
    hide TrimSpace, IndexOf, TrimEol, Atoi, Value, Decimal, LengthLine;
    LengthLineSplits(n);
    NamePlain();
    TrimDigits(Decimal(n));
    DecimalValue(n);
  }

  // ------------------------------------------------------------ header lines as other clients write them

  /** Blanks and tabs. */
  predicate Padding(s: string) { forall i :: 0 <= i < |s| ==> s[i] == ' ' || s[i] == '\t' }

  /** Begins and ends with a visible ASCII character. */
  predicate Visible(s: string) { s != [] && '!' <= s[0] <= '~' && '!' <= s[|s| - 1] <= '~' }

  lemma PadByte(s: string)
    requires s != [] && (s[0] == ' ' || s[0] == '\t')
    ensures TrimLeft(s) == TrimLeft(s[1..])
  {
  }

  lemma VisibleStays(s: string, more: string)
    requires Visible(s)
    ensures TrimLeft(s + more) == s + more && TrimRight(s) == s
  {
    var t := s + more;
    assert t[0] == s[0];
  }

  lemma {:induction false} LeftPads(pad: string, s: string, more: string)
    requires Padding(pad) && Visible(s)
    ensures TrimLeft(pad + s + more) == s + more
    decreases |pad|
  {
    hide TrimLeft, Visible;
    if pad == [] {
      assert pad + s + more == s + more;
      VisibleStays(s, more);
    } else {
      var t := pad + s + more;
      assert t[0] == pad[0] && t[1..] == pad[1..] + s + more;
      PadByte(t);
      LeftPads(pad[1..], s, more);
    }
  }

  lemma PadByteRight(s: string)
    requires s != [] && (s[|s| - 1] == ' ' || s[|s| - 1] == '\t')
    ensures TrimRight(s) == TrimRight(s[..|s| - 1])
  {
  }

  lemma {:induction false} TrimRightPads(s: string, pad: string)
    requires Padding(pad) && Visible(s)
    ensures TrimRight(s + pad) == s
    decreases |pad|
  {
    hide TrimRight, Visible;
    if pad == [] {
      assert s + pad == s;
      VisibleStays(s, []);
    } else {
      var t := s + pad;
      assert t[|t| - 1] == pad[|pad| - 1] && t[..|t| - 1] == s + pad[..|pad| - 1];
      PadByteRight(t);
      TrimRightPads(s, pad[..|pad| - 1]);
    }
  }

  lemma TrimPads(before: string, s: string, after: string)
    requires Padding(before) && Padding(after) && Visible(s)
    ensures TrimSpace(before + s + after) == s
  {
    LeftPads(before, s, after);
    TrimRightPads(s, after);
  }

  /** The same letters, in upper or lower case, and otherwise the same characters. */
  predicate SameName(a: string, b: string) {
    |a| == |b| && forall i :: 0 <= i < |a| ==>
      a[i] == b[i] || ('a' <= a[i] <= 'z' && a[i] as int == b[i] as int + 32)
      || ('A' <= a[i] <= 'Z' && b[i] as int == a[i] as int + 32)
  }

  lemma NameMatches(name: string)
    requires SameName(name, "Content-Length")
    ensures EqualFold(name, CONTENT_LENGTH) && Visible(name) && !Has(name, ':') && !Has(name, '\n')
  {
    assert forall i :: 0 <= i < |name| ==> name[i] != ':' && name[i] != '\n';
  }

  lemma PadsPlain(pad: string, c: char)
    requires Padding(pad) && c != ' ' && c != '\t'
    ensures !Has(pad, c)
  {
  }

  /** A line "name: value", the end of the line trimmed, is taken apart at its first colon. */
  lemma LineParts(head: string, tail: string)
    requires !Has(head, ':') && !Has(head, '\n') && tail != [] && tail[|tail| - 1] != '\r' && tail[|tail| - 1] != '\n'
    ensures var line := head + [':'] + tail;
      && TrimEol(line + "\r\n") == line && line != "" && IndexOf(line, ':') == Some(|head|)
      && line[..|head|] == head && line[|head| + 1..] == tail
  {
    var line := head + [':'] + tail;
    IndexOfFirst(head, ':', tail);
    assert line[..|head| + 1] == head + [':'];
    assert line[..|head|] == head;
    var raw, once := line + "\r\n", line + "\r";
    assert raw[..|raw| - 1] == once && raw[|raw| - 1] == '\n';
    assert once[..|once| - 1] == line && once[|once| - 1] == '\r';
    assert line[|line| - 1] == tail[|tail| - 1];
    assert TrimEol(line) == line;
    assert TrimEol(once) == TrimEol(line);
    assert TrimEol(raw) == TrimEol(once);
  }

  /**
   A length line counts whatever the case of its name and whatever blanks and tabs stand around name
   and value. Its value is the length if it is digits, 64 bits at most, and no other value is accepted
   but digits with a sign.
  */
  lemma HeaderReads(a: string, name: string, b: string, c: string, value: string)
    requires Padding(a) && Padding(b) && Padding(c) && SameName(name, "Content-Length") && Visible(value)
    ensures var line := Classify(a + name + b + [':'] + (c + value) + "\r\n");
      && (AllDigits(value) ==> line == if Value(value) <= MAX_INT then Length(Value(value)) else Malformed)
      && (value[0] == '-' && |value| > 1 && AllDigits(value[1..]) && Value(value[1..]) <= MAX_INT ==>
            line == Length(0 - Value(value[1..])))
      && (line.Length? ==> AllDigits(value) || ((value[0] == '+' || value[0] == '-') && AllDigits(value[1..])))
      && (line.Length? || line.Malformed?)
  {
    hide TrimSpace, TrimEol, IndexOf, EqualFold, Atoi, Value, Has, SameName;
    var head, tail := a + name + b, c + value;
    HeadPlain(a, name, b);
    assert tail[|tail| - 1] == value[|value| - 1];
    LineParts(head, tail);
    TrimPads(a, name, b);
    TrimPadBefore(c, value);
    AtoiIs(value);
    hide Padding, Visible, AllDigits;
  }

  /** Any other line is passed over: one without a colon, and one with another name before it. */
  lemma OthersPassed(line: string, a: string, name: string, b: string, tail: string)
    requires line != "" && !Has(line, ':') && line[|line| - 1] != '\r' && line[|line| - 1] != '\n'
    requires Padding(a) && Padding(b) && Visible(name) && !Has(name, ':') && !Has(name, '\n')
    requires !SameName(name, "Content-Length")
    requires tail != [] && tail[|tail| - 1] != '\r' && tail[|tail| - 1] != '\n'
    ensures Classify(line + "\r\n") == Other
    ensures Classify(a + name + b + [':'] + tail + "\r\n") == Other
  {
    TrimEnd(line);
    NotSame(name);
    hide TrimSpace, TrimEol, IndexOf, EqualFold, Has, SameName;
    assert IndexOf(line, ':').None? by { NoIndex(line, ':'); }
    PlainPads(a, name, b);
    LineParts(a + name + b, tail);
    TrimPads(a, name, b);
  }

  lemma TrimEnd(line: string)
    requires line != "" && line[|line| - 1] != '\r' && line[|line| - 1] != '\n'
    ensures TrimEol(line + "\r\n") == line
  {
    var raw, once := line + "\r\n", line + "\r";
    assert raw[..|raw| - 1] == once && raw[|raw| - 1] == '\n';
    assert once[..|once| - 1] == line && once[|once| - 1] == '\r';
    assert TrimEol(line) == line;
    assert TrimEol(once) == TrimEol(line);
    assert TrimEol(raw) == TrimEol(once);
  }

  lemma NoIndex(s: string, c: char)
    requires !Has(s, c)
    ensures IndexOf(s, c).None?
  {
  }

  lemma NotSame(name: string)
    requires !SameName(name, "Content-Length")
    ensures !EqualFold(name, CONTENT_LENGTH)
  {
  }

  lemma PlainPads(a: string, name: string, b: string)
    requires Padding(a) && Padding(b) && !Has(name, ':') && !Has(name, '\n')
    ensures !Has(a + name + b, ':') && !Has(a + name + b, '\n')
  {
    PadsPlain(a, ':');
    PadsPlain(b, ':');
    PadsPlain(a, '\n');
    PadsPlain(b, '\n');
    hide Has, Padding;
    HasJoin(a, name, ':');
    HasJoin(a + name, b, ':');
    HasJoin(a, name, '\n');
    HasJoin(a + name, b, '\n');
  }

  // ------------------------------------------------------------ what counts as white space and as a number

  /** The code points with the property White_Space. */
  predicate White(u: int) {
    || 9 <= u <= 13 || u == 0x20 || u == 0x85 || u == 0xA0 || u == 0x1680 || 0x2000 <= u <= 0x200A
    || u == 0x2028 || u == 0x2029 || u == 0x202F || u == 0x205F || u == 0x3000
  }

  /** The UTF-8 bytes of a code point of the Basic Multilingual Plane. */
  function Utf8Of(u: int): string
    requires 0 <= u < 0xD800
  {
    if u < 0x80 then [u as char]
    else if u < 0x800 then [(0xC0 + u / 64) as char, (0x80 + u % 64) as char]
    else [(0xE0 + u / 4096) as char, (0x80 + u / 64 % 64) as char, (0x80 + u % 64) as char]
  }

  /** Exactly these are trimmed at the left ... */
  lemma FirstSpaceIff(s: string)
    ensures FirstSpace(s) > 0 <==> exists u :: White(u) && Utf8Of(u) <= s
    ensures forall u :: White(u) && Utf8Of(u) <= s ==> FirstSpace(s) == |Utf8Of(u)|
  {
    if FirstSpace(s) > 0 {
      var u := CodeOf(s[..FirstSpace(s)]);
      assert s[..FirstSpace(s)] <= s;
    }
    forall u | White(u) && Utf8Of(u) <= s ensures FirstSpace(s) == |Utf8Of(u)| {
      var e := Utf8Of(u);
      assert forall k :: 0 <= k < |e| ==> s[k] == e[k];
      SpaceBytes(u);
    }
  }

  /** ... and at the right. */
  lemma LastSpaceIff(s: string)
    ensures LastSpace(s) > 0 <==> exists u :: White(u) && |Utf8Of(u)| <= |s| && s[|s| - |Utf8Of(u)|..] == Utf8Of(u)
    ensures forall u :: White(u) && |Utf8Of(u)| <= |s| && s[|s| - |Utf8Of(u)|..] == Utf8Of(u) ==>
        LastSpace(s) == |Utf8Of(u)|
  {
    if LastSpace(s) > 0 {
      var u := CodeOf(s[|s| - LastSpace(s)..]);
    }
    forall u | White(u) && |Utf8Of(u)| <= |s| && s[|s| - |Utf8Of(u)|..] == Utf8Of(u)
      ensures LastSpace(s) == |Utf8Of(u)|
    {
      var e := Utf8Of(u);
      var t := s[|s| - |e|..];
      assert forall k :: 0 <= k < |e| ==> s[|s| - |e| + k] == t[k];
      SpaceBytes(u);
    }
  }

  lemma SpaceBytes(u: int)
    requires White(u)
    ensures var e := Utf8Of(u);
      && (|e| == 1 ==> IsSpace(e[0])) && (|e| == 2 ==> IsSpace2(e[0], e[1]))
          && (|e| == 3 ==> IsSpace3(e[0], e[1], e[2]))
      && 1 <= |e| <= 3 && (|e| > 1 ==> e[0] as int >= 0x80 && e[|e| - 1] as int >= 0x80)
  {
  }

  /** The white space whose bytes these are. */
  lemma CodeOf(e: string) returns (u: int)
    requires (|e| == 1 && IsSpace(e[0])) || (|e| == 2 && IsSpace2(e[0], e[1]))
        || (|e| == 3 && IsSpace3(e[0], e[1], e[2]))
    ensures White(u) && Utf8Of(u) == e
  {
    if |e| == 1 { u := e[0] as int; }
    else if |e| == 2 { u := (e[0] as int - 0xC0) * 64 + (e[1] as int - 0x80); }
    else { u := (e[0] as int - 0xE0) * 4096 + (e[1] as int - 0x80) * 64 + (e[2] as int - 0x80); }
  }

  function Tens(k: nat): nat { if k == 0 then 1 else 10 * Tens(k - 1) }

  lemma TenTimes(x: nat, t: nat, y: nat, d: int)
    ensures (x * t + y) * 10 + d == x * (10 * t) + (y * 10 + d)
  {
  }

  lemma ValueLast(s: string)
    requires AllDigits(s) && s != []
    ensures Value(s) == Value(s[..|s| - 1]) * 10 + (s[|s| - 1] as int - '0' as int)
    ensures |s| == 1 ==> Value(s) == s[0] as int - '0' as int
  {
  }

  /**
   Numbers are read in base ten: a digit counts for itself, and what stands before k digits ten to the k times as much.
  */
  lemma {:induction false} ValueJoins(a: string, b: string)
    requires AllDigits(a) && AllDigits(b)
    ensures AllDigits(a + b) && Value(a + b) == Value(a) * Tens(|b|) + Value(b)
    ensures |a| == 1 ==> Value(a) == a[0] as int - '0' as int
    decreases |b|
  {
    if |a| == 1 { ValueLast(a); }
    if b == [] {
      assert a + b == a && Value(b) == 0;
    } else {
      var c, ab := b[..|b| - 1], a + b;
      assert ab[..|ab| - 1] == a + c && ab[|ab| - 1] == b[|b| - 1];
      ValueJoins(a, c);
      ValueLast(ab);
      ValueLast(b);
      hide Value;
      TenTimes(Value(a), Tens(|c|), Value(c), b[|b| - 1] as int - '0' as int);
    }
  }

  /** Neither the colon nor the end of the line is in the name or the blanks around it. */
  lemma HeadPlain(a: string, name: string, b: string)
    requires Padding(a) && Padding(b) && SameName(name, "Content-Length")
    ensures !Has(a + name + b, ':') && !Has(a + name + b, '\n')
    ensures EqualFold(name, CONTENT_LENGTH) && Visible(name)
  {
    NameMatches(name);
    hide SameName, EqualFold, Visible;
    PadsPlain(a, ':');
    PadsPlain(b, ':');
    PadsPlain(a, '\n');
    PadsPlain(b, '\n');
    hide Has, Padding;
    HasJoin(a, name, ':');
    HasJoin(a + name, b, ':');
    HasJoin(a, name, '\n');
    HasJoin(a + name, b, '\n');
  }

  lemma TrimPadBefore(pad: string, s: string)
    requires Padding(pad) && Visible(s)
    ensures TrimSpace(pad + s) == s
  {
    TrimPads(pad, s, []);
    assert pad + s + [] == pad + s;
  }

  /** A number is digits, and a sign may stand before them. */
  lemma AtoiIs(value: string)
    requires Visible(value)
    ensures AllDigits(value) ==> Atoi(value) == if Value(value) <= MAX_INT then Some(Value(value)) else None
    ensures value[0] == '-' && |value| > 1 && AllDigits(value[1..]) && Value(value[1..]) <= MAX_INT ==>
      Atoi(value) == Some(0 - Value(value[1..]))
    ensures Atoi(value).Some? ==> AllDigits(value) || ((value[0] == '+' || value[0] == '-') && AllDigits(value[1..]))
  {
    hide Value;
    if AllDigits(value) { assert IsDigit(value[0]); }
  }

  lemma LengthLineWhole(n: nat)
    ensures |LengthLine(n)| > 2 && LengthLine(n)[|LengthLine(n)| - 1] == '\n'
    ensures !Has(LengthLine(n)[..|LengthLine(n)| - 1], '\n')
  {
    var d := Decimal(n);
    var s := LengthLine(n);
    DigitsPlain(d, '\n');
    NamePlain();
    assert s[..|s| - 1] == CONTENT_LENGTH + ": " + d + "\r";
    assert !Has(": ", '\n') && !Has("\r", '\n');
    HasJoin(CONTENT_LENGTH, ": ", '\n');
    HasJoin(CONTENT_LENGTH + ": ", d, '\n');
    HasJoin(CONTENT_LENGTH + ": " + d, "\r", '\n');
  }

  /** Reading past the length line remembers the length. */
  lemma ReadLength(n: nat, rest: string, length: int)
    requires n <= MAX_INT
    ensures NextFrom(LengthLine(n) + rest, length) == NextFrom(rest, n)
  {
    LengthLineReads(n);
    LengthLineWhole(n);
    LineSplits(LengthLine(n), rest);
  }

  /** The blank line ends the header; the body is what the length says. */
  lemma ReadBlank(body: string, rest: string)
    ensures NextFrom("\r\n" + (body + rest), |body|) == (Message(body), rest)
  {
    BlankLine();
    assert !Has("\r\n"[..1], '\n');
    LineSplits("\r\n", body + rest);
    assert (body + rest)[..|body|] == body && (body + rest)[|body|..] == rest;
  }

  lemma Regroup(a: string, b: string, c: string, d: string, e: string, f: string)
    ensures a + b + c + d + e + f == a + (b + (c + (d + (e + f))))
  {
  }

  /** One framed message is read back whole, whatever other header lines surround its length. */
  lemma ReadOne(before: seq<string>, body: string, after: seq<string>, rest: string)
    requires |body| <= MAX_INT
    requires forall i :: 0 <= i < |before| ==> OtherLine(before[i])
    requires forall i :: 0 <= i < |after| ==> OtherLine(after[i])
    ensures NextFrom(FrameWith(before, body, after) + rest, -1) == (Message(body), rest)
  {
    var tail3 := "\r\n" + (body + rest);
    var tail2 := Join(after) + tail3;
    var tail1 := LengthLine(|body|) + tail2;
    Regroup(Join(before), LengthLine(|body|), Join(after), "\r\n", body, rest);
    SkipOthers(before, tail1, -1);
    ReadLength(|body|, tail2, -1);
    SkipOthers(after, tail3, |body|);
    ReadBlank(body, rest);
  }

  lemma BlankLine()
    ensures Classify("\r\n") == Blank
  {
    assert "\r\n"[..1] == "\r" && "\r"[..0] == "";
  }

  function Frames(bodies: seq<string>): string {
    if bodies == [] then "" else Frame(bodies[0]) + Frames(bodies[1..])
  }

  /**
   Successive reads of s return exactly these bodies, or the error where one does not decode, and
   the next one meets the end of the input.
  */
  ghost predicate ReadsBack(decodes: string -> bool, s: string, bodies: seq<string>)
    decreases |bodies|
  {
    var (frame, rest) := NextFrom(s, -1);
    var r := Decoded(decodes, frame);
    if bodies == [] then r == EndOfInput && rest == ""
    else r == (if decodes(bodies[0]) then Message(bodies[0]) else BadMessage) && ReadsBack(decodes, rest, bodies[1..])
  }

  lemma ReadsBackEnd(decodes: string -> bool, s: string)
    requires s == []
    ensures ReadsBack(decodes, s, [])
  {
    assert IndexOf(s, '\n').None?;
  }

  lemma ReadsBackMore(decodes: string -> bool, s: string, rest: string, bodies: seq<string>)
    requires bodies != [] && NextFrom(s, -1) == (Message(bodies[0]), rest) && ReadsBack(decodes, rest, bodies[1..])
    ensures ReadsBack(decodes, s, bodies)
  {
  }

  /**
   Reading the concatenation of any frames yields exactly those bodies, in order, and
   leaves nothing over; a body that does not decode costs no other message.
  */
  lemma {:induction false} RoundTrip(decodes: string -> bool, bodies: seq<string>)
    requires forall i :: 0 <= i < |bodies| ==> |bodies[i]| <= MAX_INT
    ensures ReadsBack(decodes, Frames(bodies), bodies)
  {
    if bodies == [] {
      ReadsBackEnd(decodes, Frames(bodies));
    } else {
      var rest := Frames(bodies[1..]);
      ReadFirst(bodies);
      RoundTrip(decodes, bodies[1..]);
      ReadsBackMore(decodes, Frames(bodies), rest, bodies);
    }
  }

  lemma ReadFirst(bodies: seq<string>)
    requires bodies != [] && |bodies[0]| <= MAX_INT
    ensures NextFrom(Frames(bodies), -1) == (Message(bodies[0]), Frames(bodies[1..]))
  {
    var rest := Frames(bodies[1..]);
    var body := bodies[0];
    assert Frames(bodies) == LengthLine(|body|) + ("\r\n" + (body + rest));
    ReadLength(|body|, "\r\n" + (body + rest), -1);
    ReadBlank(body, rest);
  }

  lemma NoEol(s: string, t: string, k: nat)
    requires k <= |t| && s == t[..k] && !Has(t, '\n')
    ensures NextFrom(s, -1) == (EndOfInput, "")
  {
    assert t == s + t[k..];
    HasJoin(s, t[k..], '\n');
  }

  /** Cut after the length line: the blank line or the body is not complete. */
  lemma CutRest(body: string, tail: string, k: nat)
    requires k < |body| + 2 && tail == ("\r\n" + body)[..k]
    ensures NextFrom(tail, |body|).0 == EndOfInput || NextFrom(tail, |body|).0 == ShortBody
  {
    if k < 2 {
      assert tail == "\r"[..k];
      assert IndexOf(tail, '\n').None?;
    } else {
      var part := body[..k - 2];
      assert tail == "\r\n" + part;
      BlankLine();
      LineSplits("\r\n", part);
    }
  }

  /** A frame cut short anywhere is never read as a message. */
  lemma CutFrame(body: string, k: nat)
    requires |body| <= MAX_INT && k < |Frame(body)|
    ensures NextFrom(Frame(body)[..k], -1).0 == EndOfInput || NextFrom(Frame(body)[..k], -1).0 == ShortBody
  {
    var line, end := LengthLine(|body|), "\r\n" + body;
    assert Frame(body) == line + end;
    LengthLineWhole(|body|);
    if k < |line| {
      assert (line + end)[..k] == line[..|line| - 1][..k];
      NoEol((line + end)[..k], line[..|line| - 1], k);
    } else {
      var tail := end[..k - |line|];
      assert (line + end)[..k] == line + tail;
      ReadLength(|body|, tail, -1);
      CutRest(body, tail, k - |line|);
    }
  }
}
