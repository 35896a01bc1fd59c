/**
 Finding the host name in a TLS ClientHello (RFC 8446 sections 4.1.2 and 5.1, RFC 6066 section 3): a reader
 that stops at the first overrun, and the name's byte range.
 */
module ClientHellos {
  import opened Wrappers

  /** The reader's position, and whether it has run past the end. */
  datatype Cursor = Cursor(pos: nat, failed: bool)

  /** A value read and the cursor after it. */
  datatype Read8 = Read8(v: Byte, next: Cursor)

  datatype Read16 = Read16(v: nat, next: Cursor)

  /** Where a name lies, if one was found. */
  datatype Range = NoName | Name(start: nat, end: nat)

  /** Where the extensions start and how long they say they are. */
  datatype Head = NoHello | Head(total: nat, at: nat)

  // ----- reading

  function U8(buf: seq<Byte>, c: Cursor): (r: Read8)
    ensures !r.next.failed ==> !c.failed && r.next.pos == c.pos + 1 <= |buf|
  {
    if c.failed || c.pos + 1 > |buf| then Read8(0, c.(failed := true))
    else Read8(buf[c.pos], Cursor(c.pos + 1, false))
  }

  function U16(buf: seq<Byte>, c: Cursor): (r: Read16)
    ensures !r.next.failed ==> !c.failed && r.next.pos == c.pos + 2 <= |buf|
    ensures r.v < 0x1_0000
  {
    if c.failed || c.pos + 2 > |buf| then Read16(0, c.(failed := true))
    else Read16(buf[c.pos] as nat * 256 + buf[c.pos + 1] as nat, Cursor(c.pos + 2, false))
  }

  function Skip(buf: seq<Byte>, c: Cursor, n: nat): (r: Cursor)
    ensures !r.failed ==> !c.failed && r.pos == c.pos + n && (r.pos <= |buf| || n == 0)
  {
    if c.failed || c.pos + n > |buf| then c.(failed := true) else Cursor(c.pos + n, false)
  }

  /** A length-prefixed vector with a one-byte length. */
  function SkipVec8(buf: seq<Byte>, c: Cursor): Cursor {
    var n := U8(buf, c);
    Skip(buf, n.next, n.v)
  }

  function SkipVec16(buf: seq<Byte>, c: Cursor): Cursor {
    var n := U16(buf, c);
    Skip(buf, n.next, n.v)
  }

  /** The extension list from a cursor up to a limit: the first server-name extension decides. */
  function FindName(buf: seq<Byte>, c: Cursor, limit: nat): (r: Range)
    ensures r.Name? ==> c.pos < r.start < r.end <= |buf|
    decreases |buf| - c.pos
  {
    if c.pos >= limit || c.failed then NoName
    else
      var kind := U16(buf, c);
      var len := U16(buf, kind.next);
      if len.next.failed then NoName
      else if kind.v != 0 then FindName(buf, Skip(buf, len.next, len.v), limit)
      else
        var nameType := U8(buf, Skip(buf, len.next, 2));
        if nameType.v != 0 then NoName
        else
          var n := U16(buf, nameType.next);
          if n.next.failed || n.v <= 0 || n.next.pos + n.v > |buf| then NoName
          else Name(n.next.pos, n.next.pos + n.v)
  }

  /** Up to the handshake type, and past the random. */
  function AfterRandom(buf: seq<Byte>): Option<Cursor> {
    var content := U8(buf, Cursor(0, false));
    if content.v != 0x16 then None
    else
      var handshake := U8(buf, Skip(buf, Skip(buf, content.next, 2), 2));
      if handshake.v != 0x01 then None
      else Some(Skip(buf, Skip(buf, Skip(buf, handshake.next, 3), 2), 32))
  }

  /** Everything before the extensions. */
  function Preamble(buf: seq<Byte>): Head {
    match AfterRandom(buf)
    case None => NoHello
    case Some(c) =>
      var total := U16(buf, SkipVec8(buf, SkipVec16(buf, SkipVec8(buf, c))));
      if total.next.failed then NoHello else Head(total.v, total.next.pos)
  }

  function NameRange(buf: seq<Byte>): (r: Range)
    ensures r.Name? ==> 0 < r.start < r.end <= |buf|
  {
    match Preamble(buf)
    case NoHello => NoName
    case Head(total, at) => FindName(buf, Cursor(at, false), at + total)
  }

  // ----- the reader itself

  class Reader {
    const buf: seq<Byte>
    var pos: nat
    var failed: bool

    function State(): Cursor
      reads this
    {
      Cursor(pos, failed)
    }

    constructor (buf: seq<Byte>)
      ensures this.buf == buf && State() == Cursor(0, false)
    {
      this.buf, this.pos, this.failed := buf, 0, false;
    }

    method ReadU8() returns (v: Byte)
      modifies this
      ensures v == U8(buf, old(State())).v && State() == U8(buf, old(State())).next
    {
      if failed || pos + 1 > |buf| {
        failed := true;
        return 0;
      }
      v := buf[pos];
      pos := pos + 1;
    }

    method ReadU16() returns (v: nat)
      modifies this
      ensures v == U16(buf, old(State())).v && State() == U16(buf, old(State())).next
    {
      if failed || pos + 2 > |buf| {
        failed := true;
        return 0;
      }
      v := buf[pos] as nat * 256 + buf[pos + 1] as nat;
      pos := pos + 2;
    }

    method Advance(n: nat)
      modifies this
      ensures State() == Skip(buf, old(State()), n)
    {
      if failed || pos + n > |buf| {
        failed := true;
        return;
      }
      pos := pos + n;
    }
  }

  method SniRange(buf: seq<Byte>) returns (r: Range)
    ensures r == NameRange(buf)
  {
    var reader := new Reader(buf);
    hide FindName, U8, U16, Skip, AfterRandom;
    var hello := EnterHello(reader);
    if !hello {
      return NoName;
    }
    SkipVectors(reader);
    var extTotal := reader.ReadU16();
    if reader.failed {
      return NoName;
    }
    assert Preamble(buf) == Head(extTotal, reader.pos);
    hide Preamble;
    r := FindExtension(reader, reader.pos + extTotal);
  }

  /** Record and handshake header, version and random; false if this is no ClientHello. */
  method EnterHello(reader: Reader) returns (hello: bool)
    requires reader.State() == Cursor(0, false)
    modifies reader
    ensures AfterRandom(reader.buf) == if hello then Some(reader.State()) else None
  {
    hide U8, U16, Skip;
    var v := reader.ReadU8();
    if v != 0x16 {
      return false;
    }
    reader.Advance(2);
    reader.Advance(2);
    v := reader.ReadU8();
    if v != 0x01 {
      return false;
    }
    reader.Advance(3);
    reader.Advance(2);
    reader.Advance(32);
    hello := true;
  }

  /** Session id, cipher suites and compression methods. */
  method SkipVectors(reader: Reader)
    modifies reader
    ensures reader.State() == SkipVec8(reader.buf, SkipVec16(reader.buf, SkipVec8(reader.buf, old(reader.State()))))
  {
    hide U8, U16, Skip;
    var v := reader.ReadU8();
    reader.Advance(v);
    var w := reader.ReadU16();
    reader.Advance(w);
    v := reader.ReadU8();
    reader.Advance(v);
  }

  /** The loop over the extensions. */
  method FindExtension(reader: Reader, limit: nat) returns (r: Range)
    modifies reader
    ensures r == FindName(reader.buf, old(reader.State()), limit)
  {
    ghost var start := reader.State();
    while reader.pos < limit && !reader.failed
      invariant FindName(reader.buf, reader.State(), limit) == FindName(reader.buf, start, limit)
      decreases !reader.failed, |reader.buf| - reader.pos
    {
      var kind := reader.ReadU16();
      var len := reader.ReadU16();
      if kind != 0 {
        reader.Advance(len);
        continue;
      }
      reader.Advance(2);
      var nameType := reader.ReadU8();
      if nameType != 0 {
        return NoName;
      }
      var n := reader.ReadU16();
      if reader.failed || n <= 0 || reader.pos + n > |reader.buf| {
        return NoName;
      }
      return Name(reader.pos, reader.pos + n);
    }
    r := NoName;
  }

  // ----- well-formed messages

  datatype Extension = Extension(kind: nat, data: seq<Byte>)

  /** A ClientHello with one server-name extension holding one host_name entry, in a single record. */
  datatype Hello = Hello(recordVersion: seq<Byte>, version: seq<Byte>, random: seq<Byte>, sessionId: seq<Byte>,
                         suites: seq<Byte>, compression: seq<Byte>, before: seq<Extension>, name: seq<Byte>,
                         after: seq<Extension>)

  function Put8(n: nat): seq<Byte>
    requires n < 0x100
  {
    [n]
  }

  function Put16(n: nat): (b: seq<Byte>)
    requires n < 0x1_0000
    ensures |b| == 2
  {
    [n / 256, n % 256]
  }

  function Put24(n: nat): (b: seq<Byte>)
    requires n < 0x100_0000
    ensures |b| == 3
  {
    [n / 0x1_0000, n / 256 % 256, n % 256]
  }

  function PutExtension(x: Extension): seq<Byte>
    requires x.kind < 0x1_0000 && |x.data| < 0x1_0000
  {
    Put16(x.kind) + (Put16(|x.data|) + x.data)
  }

  predicate ExtensionsFit(xs: seq<Extension>) {
    forall i :: 0 <= i < |xs| ==> xs[i].kind < 0x1_0000 && |xs[i].data| < 0x1_0000
  }

  function PutExtensions(xs: seq<Extension>): seq<Byte>
    requires ExtensionsFit(xs)
  {
    if xs == [] then [] else PutExtension(xs[0]) + PutExtensions(xs[1..])
  }

  /** A server_name extension: a list of one entry, of type host_name. */
  function PutServerName(name: seq<Byte>): seq<Byte>
    requires |name| + 5 < 0x1_0000
  {
    Put16(0) + (Put16(|name| + 5) + (Put16(|name| + 3) + (Put8(0) + (Put16(|name|) + name))))
  }

  /** The sizes the message's own length fields can carry, and no server name but the one. */
  predicate WellFormed(h: Hello) {
    && |h.recordVersion| == 2 && |h.version| == 2 && |h.random| == 32
    && |h.sessionId| <= 32 && |h.suites| < 0x1_0000 && |h.compression| < 0x100
    && ExtensionsFit(h.before) && ExtensionsFit(h.after) && 0 < |h.name| && |h.name| + 5 < 0x1_0000
    && (forall i :: 0 <= i < |h.before| ==> h.before[i].kind != 0)
    && (forall i :: 0 <= i < |h.after| ==> h.after[i].kind != 0)
    && |PutExtensions(h.before)| + |PutServerName(h.name)| + |PutExtensions(h.after)| < 0x1_0000
    && |Body(h)| + 4 < 0x1_0000
  }

  /** The server name and whatever follows it. */
  function NameThen(name: seq<Byte>, after: seq<Byte>): seq<Byte>
    requires |name| + 5 < 0x1_0000
  {
    PutServerName(name) + after
  }

  function Among(before: seq<Extension>, name: seq<Byte>, after: seq<Byte>): seq<Byte>
    requires |name| + 5 < 0x1_0000 && ExtensionsFit(before)
  {
    PutExtensions(before) + NameThen(name, after)
  }

  function Extensions(h: Hello): seq<Byte>
    requires |h.name| + 5 < 0x1_0000 && ExtensionsFit(h.before) && ExtensionsFit(h.after)
  {
    Among(h.before, h.name, PutExtensions(h.after))
  }

  function Body(h: Hello): seq<Byte>
    requires |h.name| + 5 < 0x1_0000 && ExtensionsFit(h.before) && ExtensionsFit(h.after)
    requires |h.sessionId| <= 32 && |h.suites| < 0x1_0000 && |h.compression| < 0x100
    requires |PutExtensions(h.before)| + |PutServerName(h.name)| + |PutExtensions(h.after)| < 0x1_0000
  {
    h.version + (h.random + Vectors(h))
  }

  function Vectors(h: Hello): seq<Byte>
    requires |h.name| + 5 < 0x1_0000 && ExtensionsFit(h.before) && ExtensionsFit(h.after)
    requires |h.sessionId| <= 32 && |h.suites| < 0x1_0000 && |h.compression| < 0x100
    requires |PutExtensions(h.before)| + |PutServerName(h.name)| + |PutExtensions(h.after)| < 0x1_0000
  {
    Put8(|h.sessionId|) + (h.sessionId + (Put16(|h.suites|) + (h.suites + (Put8(|h.compression|) + (h.compression
    + (Put16(|Extensions(h)|) + Extensions(h)))))))
  }

  /** The record: content type 22 and the handshake message of type 1 with its three-byte length. */
  function Print(h: Hello): seq<Byte>
    requires WellFormed(h)
  {
    Put8(0x16) + (h.recordVersion + (Put16(|Body(h)| + 4) + (Put8(0x01) + (Put24(|Body(h)|) + Body(h)))))
  }

  // ----- reading what was printed

  /** From p on, the buffer continues with `s`. */
  ghost predicate Has(buf: seq<Byte>, p: nat, s: seq<Byte>) {
    p + |s| <= |buf| && forall i :: 0 <= i < |s| ==> buf[p + i] == s[i]
  }

  lemma HasSplit(buf: seq<Byte>, p: nat, a: seq<Byte>, b: seq<Byte>)
    requires Has(buf, p, a + b)
    ensures Has(buf, p, a) && Has(buf, p + |a|, b)
  {
    var s := a + b;
    forall i | 0 <= i < |a|
      ensures buf[p + i] == a[i]
    {
      assert s[i] == a[i];
    }
    forall i | 0 <= i < |b|
      ensures buf[p + |a| + i] == b[i]
    {
      assert s[|a| + i] == b[i];
      assert buf[p + (|a| + i)] == s[|a| + i];
    }
  }

  lemma Reads8(buf: seq<Byte>, p: nat, n: nat, rest: seq<Byte>)
    requires n < 0x100 && Has(buf, p, Put8(n) + rest)
    ensures U8(buf, Cursor(p, false)) == Read8(n, Cursor(p + 1, false)) && Has(buf, p + 1, rest)
  {
    HasSplit(buf, p, Put8(n), rest);
    assert buf[p + 0] == Put8(n)[0];
  }

  lemma Reads16(buf: seq<Byte>, p: nat, n: nat, rest: seq<Byte>)
    requires n < 0x1_0000 && Has(buf, p, Put16(n) + rest)
    ensures U16(buf, Cursor(p, false)) == Read16(n, Cursor(p + 2, false)) && Has(buf, p + 2, rest)
  {
    HasSplit(buf, p, Put16(n), rest);
    assert buf[p + 0] == Put16(n)[0] && buf[p + 1] == Put16(n)[1];
  }

  lemma Skips(buf: seq<Byte>, p: nat, s: seq<Byte>, rest: seq<Byte>)
    requires Has(buf, p, s + rest)
    ensures Skip(buf, Cursor(p, false), |s|) == Cursor(p + |s|, false) && Has(buf, p + |s|, rest)
  {
    HasSplit(buf, p, s, rest);
  }

  lemma SkipsVec8(buf: seq<Byte>, p: nat, s: seq<Byte>, rest: seq<Byte>)
    requires |s| < 0x100 && Has(buf, p, Put8(|s|) + (s + rest))
    ensures SkipVec8(buf, Cursor(p, false)) == Cursor(p + 1 + |s|, false) && Has(buf, p + 1 + |s|, rest)
  {
    Reads8(buf, p, |s|, s + rest);
    Skips(buf, p + 1, s, rest);
  }

  lemma SkipsVec16(buf: seq<Byte>, p: nat, s: seq<Byte>, rest: seq<Byte>)
    requires |s| < 0x1_0000 && Has(buf, p, Put16(|s|) + (s + rest))
    ensures SkipVec16(buf, Cursor(p, false)) == Cursor(p + 2 + |s|, false) && Has(buf, p + 2 + |s|, rest)
  {
    Reads16(buf, p, |s|, s + rest);
    Skips(buf, p + 2, s, rest);
  }

  /** At the server-name extension the reader finds exactly the name. */
  lemma FindsName(buf: seq<Byte>, p: nat, name: seq<Byte>, rest: seq<Byte>, limit: nat)
    requires 0 < |name| && |name| + 5 < 0x1_0000 && p < limit
    requires Has(buf, p, NameThen(name, rest))
    ensures FindName(buf, Cursor(p, false), limit) == Name(p + 9, p + 9 + |name|) && Has(buf, p + 9, name)
  {
    HasSplit(buf, p, PutServerName(name), rest);
    var n5 := Put16(|name|) + name;
    var n4 := Put8(0) + n5;
    var n3 := Put16(|name| + 3) + n4;
    Reads16(buf, p, 0, Put16(|name| + 5) + n3);
    Reads16(buf, p + 2, |name| + 5, n3);
    Skips(buf, p + 4, Put16(|name| + 3), n4);
    Reads8(buf, p + 6, 0, n5);
    Reads16(buf, p + 7, |name|, name);
  }

  lemma PassesOne(buf: seq<Byte>, p: nat, x: Extension, more: seq<Byte>, limit: nat)
    requires 0 < x.kind < 0x1_0000 && |x.data| < 0x1_0000 && p < limit
    requires Has(buf, p, PutExtension(x) + more)
    ensures FindName(buf, Cursor(p, false), limit) == FindName(buf, Cursor(p + |PutExtension(x)|, false), limit)
    ensures Has(buf, p + |PutExtension(x)|, more)
  {
    HasSplit(buf, p, PutExtension(x), more);
    Reads16(buf, p, x.kind, Put16(|x.data|) + x.data);
    Reads16(buf, p + 2, |x.data|, x.data);
    assert x.data + [] == x.data;
    Skips(buf, p + 4, x.data, []);
    hide Has, Put16;
  }

  /** Extensions of another type are passed over. */
  lemma {:induction false} PassesOver(buf: seq<Byte>, p: nat, xs: seq<Extension>, rest: seq<Byte>, limit: nat)
    requires ExtensionsFit(xs) && (forall i :: 0 <= i < |xs| ==> xs[i].kind != 0)
    requires Has(buf, p, PutExtensions(xs) + rest) && p + |PutExtensions(xs)| <= limit
    ensures FindName(buf, Cursor(p, false), limit) == FindName(buf, Cursor(p + |PutExtensions(xs)|, false), limit)
    ensures Has(buf, p + |PutExtensions(xs)|, rest)
    decreases |xs|
  {
    hide *;
    if xs == [] {
      NoneMore(rest);
    } else {
      OneMore(xs, rest);
      var first, others := PutExtension(xs[0]), PutExtensions(xs[1..]);
      PassesOne(buf, p, xs[0], others + rest, limit);
      PassesOver(buf, p + |first|, xs[1..], rest, limit);
    }
  }

  lemma NoneMore(rest: seq<Byte>)
    ensures ExtensionsFit([]) && PutExtensions([]) == [] && [] + rest == rest
  {
  }

  lemma FirstOne(xs: seq<Extension>)
    requires xs != [] && ExtensionsFit(xs)
    ensures ExtensionsFit(xs[1..]) && xs[0].kind < 0x1_0000 && |xs[0].data| < 0x1_0000
    ensures PutExtensions(xs) == PutExtension(xs[0]) + PutExtensions(xs[1..]) && |PutExtension(xs[0])| >= 4
  {
  }

  lemma Associate<T>(a: seq<T>, b: seq<T>, c: seq<T>)
    ensures (a + b) + c == a + (b + c)
  {
  }

  lemma OneMore(xs: seq<Extension>, rest: seq<Byte>)
    requires xs != [] && ExtensionsFit(xs)
    ensures ExtensionsFit(xs[1..]) && xs[0].kind < 0x1_0000 && |xs[0].data| < 0x1_0000
    ensures var first, others := PutExtension(xs[0]), PutExtensions(xs[1..]);
      && PutExtensions(xs) == first + others && |first| >= 4
      && PutExtensions(xs) + rest == first + (others + rest)
  {
    hide *;
    FirstOne(xs);
    Associate(PutExtension(xs[0]), PutExtensions(xs[1..]), rest);
  }

  /** Where the extensions start, and where the name does. */
  function ExtensionsAt(h: Hello): nat {
    43 + (1 + |h.sessionId|) + (2 + |h.suites|) + (1 + |h.compression|) + 2
  }

  function NameStart(h: Hello): nat
    requires ExtensionsFit(h.before)
  {
    ExtensionsAt(h) + |PutExtensions(h.before)| + 9
  }

  lemma ReadsPreamble(h: Hello)
    requires WellFormed(h)
    ensures var at := ExtensionsAt(h);
      && Preamble(Print(h)) == Head(|Extensions(h)|, at) && Has(Print(h), at, Extensions(h))
  {
    var buf := Print(h);
    assert buf[0..|buf|] == buf;
    ReadsHeader(h, buf);
    ReadsVectors(h, buf);
  }

  lemma ReadsHeader(h: Hello, buf: seq<Byte>)
    requires WellFormed(h) && Has(buf, 0, Print(h))
    ensures AfterRandom(buf) == Some(Cursor(43, false))
    ensures Has(buf, 43, Vectors(h))
  {
    var b := Body(h);
    var r3 := Put24(|b|) + b;
    var r2 := Put8(0x01) + r3;
    var r1 := Put16(|b| + 4) + r2;
    hide Body, Vectors, WellFormed;
    Reads8(buf, 0, 0x16, h.recordVersion + r1);
    Skips(buf, 1, h.recordVersion, r1);
    Skips(buf, 3, Put16(|b| + 4), r2);
    Reads8(buf, 5, 0x01, r3);
    Skips(buf, 6, Put24(|b|), b);
    assert b == h.version + (h.random + Vectors(h)) by {
      BodyParts(h);
    }
    Skips(buf, 9, h.version, h.random + Vectors(h));
    Skips(buf, 11, h.random, Vectors(h));
  }

  lemma BodyParts(h: Hello)
    requires WellFormed(h)
    ensures Body(h) == h.version + (h.random + Vectors(h)) && |h.version| == 2 && |h.random| == 32
  {
  }

  lemma ReadsVectors(h: Hello, buf: seq<Byte>)
    requires WellFormed(h) && Has(buf, 43, Vectors(h))
    ensures var at := ExtensionsAt(h);
      && U16(buf, SkipVec8(buf, SkipVec16(buf, SkipVec8(buf, Cursor(43, false)))))
          == Read16(|Extensions(h)|, Cursor(at, false))
      && Has(buf, at, Extensions(h))
  {
    ReadsThree(buf, h.sessionId, h.suites, h.compression, Extensions(h));
  }

  lemma ReadsThree(buf: seq<Byte>, a: seq<Byte>, b: seq<Byte>, c: seq<Byte>, x: seq<Byte>)
    requires |a| < 0x100 && |b| < 0x1_0000 && |c| < 0x100 && |x| < 0x1_0000
    requires Has(buf, 43, Put8(|a|) + (a + (Put16(|b|) + (b + (Put8(|c|) + (c + (Put16(|x|) + x)))))))
    ensures var at := 43 + (1 + |a|) + (2 + |b|) + (1 + |c|) + 2;
      && U16(buf, SkipVec8(buf, SkipVec16(buf, SkipVec8(buf, Cursor(43, false))))) == Read16(|x|, Cursor(at, false))
      && Has(buf, at, x)
  {
    hide Has, Put8, Put16, SkipVec8, SkipVec16, U16;
    var v3 := Put16(|x|) + x;
    var v2 := Put8(|c|) + (c + v3);
    var v1 := Put16(|b|) + (b + v2);
    var p := 43 + 1 + |a|;
    var q := p + 2 + |b|;
    var r := q + 1 + |c|;
    SkipsVec8(buf, 43, a, v1);
    SkipsVec16(buf, p, b, v2);
    SkipsVec8(buf, q, c, v3);
    Reads16(buf, r, |x|, x);
  }

  lemma AmongParts(before: seq<Extension>, name: seq<Byte>, after: seq<Byte>)
    requires |name| + 5 < 0x1_0000 && ExtensionsFit(before)
    ensures Among(before, name, after) == PutExtensions(before) + NameThen(name, after)
    ensures |NameThen(name, after)| > 0
  {
  }

  /** Past the extensions before it, the name is found. */
  lemma FindsNameAmong(buf: seq<Byte>, at: nat, before: seq<Extension>, name: seq<Byte>, after: seq<Byte>, limit: nat)
    requires ExtensionsFit(before) && (forall i :: 0 <= i < |before| ==> before[i].kind != 0)
    requires 0 < |name| && |name| + 5 < 0x1_0000
    requires Has(buf, at, Among(before, name, after)) && limit == at + |Among(before, name, after)|
    ensures var start := at + |PutExtensions(before)| + 9;
      FindName(buf, Cursor(at, false), limit) == Name(start, start + |name|) && Has(buf, start, name)
  {
    hide *;
    AmongParts(before, name, after);
    PassesOver(buf, at, before, NameThen(name, after), limit);
    FindsName(buf, at + |PutExtensions(before)|, name, after, limit);
  }

  /** The range found is that of `name`, starting at `at`. */
  ghost predicate NameFoundAt(buf: seq<Byte>, at: nat, name: seq<Byte>) {
    && NameRange(buf) == Name(at, at + |name|)
    && at + |name| <= |buf| && buf[at..at + |name|] == name
  }

  lemma FoundThroughPreamble(buf: seq<Byte>, total: nat, at: nat, start: nat, name: seq<Byte>)
    requires Preamble(buf) == Head(total, at)
    requires FindName(buf, Cursor(at, false), at + total) == Name(start, start + |name|) && Has(buf, start, name)
    ensures NameFoundAt(buf, start, name)
  {
    hide Preamble, FindName;
    assert buf[start..start + |name|] == name;
  }

  lemma Layout(h: Hello)
    requires WellFormed(h)
    ensures ExtensionsFit(h.before) && ExtensionsFit(h.after) && 0 < |h.name| && |h.name| + 5 < 0x1_0000
    ensures forall i :: 0 <= i < |h.before| ==> h.before[i].kind != 0
    ensures Extensions(h) == Among(h.before, h.name, PutExtensions(h.after))
    ensures NameStart(h) == ExtensionsAt(h) + |PutExtensions(h.before)| + 9
  {
  }

  /** In every well-formed ClientHello with a host name, whatever its session id, suites and other extensions,
      exactly the byte range of that name is found. */
  lemma FindsExactlyTheName(h: Hello)
    requires WellFormed(h)
    ensures NameFoundAt(Print(h), NameStart(h), h.name)
  {
    hide *;
    ReadsPreamble(h);
    Layout(h);
    var buf, at, after, total := Print(h), ExtensionsAt(h), PutExtensions(h.after), |Extensions(h)|;
    FindsNameAmong(buf, at, h.before, h.name, after, at + total);
    FoundThroughPreamble(buf, total, at, NameStart(h), h.name);
  }
}
