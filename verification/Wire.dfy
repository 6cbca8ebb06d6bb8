/** The parcel record of the DILL network protocol and its byte encoding.
    A C++ `std::string` is a sequence of bytes; multi-byte integers are little-endian,
    the layout the pointer casts of the source give on the platforms it targets. */
module Wire {

  newtype Byte = b: int | 0 <= b < 0x100
  type UInt16 = n: int | 0 <= n < 0x1_0000
  type UInt32 = n: int | 0 <= n < 0x1_0000_0000
  type Bytes = seq<Byte>

  datatype Option<+T> = None | Some(value: T)

  const ERROR: Byte := 4          // the largest of the five log priorities 0..4
  const REPLY_OK: Byte := 249
  const REPLY_FULL: Byte := 250
  const AVAILCH: Byte := 251
  const SUBSCRIBE: Byte := 252
  const UNSUBSCRIBE: Byte := 253
  const PUBLISH: Byte := 254
  const REGISTER: Byte := 255

  /** No string travels with more bytes than this. */
  const STRING_CAP := 23766
  const MIN_WIRE := 17
  const MAX_WIRE := 47549

  datatype Parcel = Parcel(op: Byte, id: UInt32, timestamp1: UInt32, timestamp2: UInt32, str1: Bytes, str2: Bytes)

  predicate IsLog(p: Parcel) { p.op <= ERROR }

  /** Both strings are C strings, as those of a post are. */
  predicate NulFree(p: Parcel) { 0 !in p.str1 && 0 !in p.str2 }

  predicate IsData(p: Parcel) { IsLog(p) || p.op == REGISTER }

  function Narrow16(n: nat): UInt16 { n % 0x1_0000 }

  function Narrow32(n: int): UInt32 { n % 0x1_0000_0000 }

  function Cap(s: Bytes): Bytes { if |s| > STRING_CAP then s[..STRING_CAP] else s }

  /** What is left of a parcel after it has crossed the wire once. */
  function Capped(p: Parcel): Parcel { p.(str1 := Cap(p.str1), str2 := Cap(p.str2)) }

  function CappedAll(ps: seq<Parcel>): (cs: seq<Parcel>)
    ensures |cs| == |ps|
    ensures forall k :: 0 <= k < |ps| ==> cs[k] == Capped(ps[k])
  {
    seq(|ps|, k requires 0 <= k < |ps| => Capped(ps[k]))
  }

  /** What `c_str()` leaves of a string: the bytes before its first NUL. */
  function CStr(s: Bytes): (r: Bytes)
    ensures r <= s && 0 !in r
    ensures 0 !in s ==> r == s
    ensures |r| < |s| ==> s[|r|] == 0
  {
    if s == [] || s[0] == 0 then [] else [s[0]] + CStr(s[1..])
  }

  // ---------------------------------------------------------------- integers as bytes

  function Join16(b0: Byte, b1: Byte): UInt16 { b0 as int + 0x100 * b1 as int }

  function Join32(b0: Byte, b1: Byte, b2: Byte, b3: Byte): UInt32 {
    b0 as int + 0x100 * b1 as int + 0x1_0000 * b2 as int + 0x100_0000 * b3 as int
  }

  function ByteOf(n: nat): Byte { (n % 0x100) as Byte }

  /** What is left of a number without its lowest byte. */
  function Rest(n: nat): nat { n / 0x100 }

  function LE16(n: UInt16): (b: Bytes)
    ensures |b| == 2
  {
    [ByteOf(n), ByteOf(Rest(n))]
  }

  function LE32(n: UInt32): (b: Bytes)
    ensures |b| == 4
  {
    [ByteOf(n), ByteOf(Rest(n)), ByteOf(Rest(Rest(n))), ByteOf(Rest(Rest(Rest(n))))]
  }

  function U16At(b: Bytes, k: nat): UInt16
    requires k + 2 <= |b|
  {
    Join16(b[k], b[k+1])
  }

  function U32At(b: Bytes, k: nat): UInt32
    requires k + 4 <= |b|
  {
    Join32(b[k], b[k+1], b[k+2], b[k+3])
  }

  lemma LowByte(b: Byte, q: nat)
    ensures ByteOf(b as int + 0x100 * q) == b && Rest(b as int + 0x100 * q) == q
  {
  }

  lemma HighPart(n: nat)
    ensures n == ByteOf(n) as int + 0x100 * Rest(n)
  {
  }

  lemma Digits16(b0: Byte, b1: Byte)
    ensures LE16(Join16(b0, b1)) == [b0, b1]
  {
    hide ByteOf, Rest;
    LowByte(b0, b1 as int);
    LowByte(b1, 0);
  }

  lemma Value16(n: UInt16)
    ensures var d := LE16(n); Join16(d[0], d[1]) == n
  {
    hide ByteOf, Rest;
    HighPart(n);
    HighPart(Rest(n));
  }

  lemma Digits32(b0: Byte, b1: Byte, b2: Byte, b3: Byte)
    ensures LE32(Join32(b0, b1, b2, b3)) == [b0, b1, b2, b3]
  {
    hide ByteOf, Rest;
    var n2 := b2 as int + 0x100 * b3 as int;
    var n1 := b1 as int + 0x100 * n2;
    LowByte(b0, n1);
    LowByte(b1, n2);
    LowByte(b2, b3 as int);
    LowByte(b3, 0);
    assert Join32(b0, b1, b2, b3) == b0 as int + 0x100 * n1;
  }

  lemma Value32(n: UInt32)
    ensures var d := LE32(n); Join32(d[0], d[1], d[2], d[3]) == n
  {
    hide ByteOf, Rest;
    HighPart(n);
    HighPart(Rest(n));
    HighPart(Rest(Rest(n)));
    HighPart(Rest(Rest(Rest(n))));
  }

  lemma LE16Inverse(n: UInt16, b: Bytes, k: nat)
    requires k + 2 <= |b|
    ensures b[k..k+2] == LE16(n) <==> U16At(b, k) == n
  {
    hide LE16, Join16;
    assert b[k..k+2] == [b[k], b[k+1]];
    Digits16(b[k], b[k+1]);
    Value16(n);
  }

  lemma LE32Inverse(n: UInt32, b: Bytes, k: nat)
    requires k + 4 <= |b|
    ensures b[k..k+4] == LE32(n) <==> U32At(b, k) == n
  {
    hide LE32, Join32;
    assert b[k..k+4] == [b[k], b[k+1], b[k+2], b[k+3]];
    Digits32(b[k], b[k+1], b[k+2], b[k+3]);
    Value32(n);
  }

  // ---------------------------------------------------------------- encoding

  /** The 16-bit length that `deflate` computes. */
  function WireSize(p: Parcel): UInt16 { Narrow16(17 + |Cap(p.str1)| + |Cap(p.str2)|) }

  function Header(p: Parcel): (b: Bytes)
    ensures |b| == 13
  {
    [p.op] + LE32(p.id) + LE32(p.timestamp1) + LE32(p.timestamp2)
  }

  function Text(s: Bytes): (b: Bytes)
    requires |s| < 0x1_0000
    ensures |b| == 2 + |s|
  {
    LE16(|s|) + s
  }

  function Encode(p: Parcel): (b: Bytes)
  {
    Header(p) + Text(Cap(p.str1)) + Text(Cap(p.str2))
  }

  /** Reading a parcel from memory; None when the lengths found there lead past its end. */
  function Decode(b: Bytes): Option<Parcel> {
    if |b| < 15 || |b| < 17 + U16At(b, 13) then None
    else
      var n1 := U16At(b, 13);
      var n2 := U16At(b, 15 + n1);
      if |b| < 17 + n1 + n2 then None
      else Some(Parcel(b[0], U32At(b, 1), U32At(b, 5), U32At(b, 9), b[15..15+n1], b[17+n1..17+n1+n2]))
  }

  function RecordSize(p: Parcel): nat { 17 + |p.str1| + |p.str2| }

  /** Wire sizes never wrap their 16 bits, and the accounting size is the size written. */
  lemma SizeBounds(p: Parcel)
    ensures MIN_WIRE <= WireSize(p) <= MAX_WIRE
    ensures WireSize(p) == |Encode(p)| == RecordSize(Capped(p))
    ensures 2 + WireSize(p) <= 65538
  {
    hide Header, Text;
  }

  /** The fields of a record sit where the reader looks for them. */
  lemma RecordLayout(h: Bytes, s1: Bytes, s2: Bytes, rest: Bytes)
    requires |h| == 13 && |s1| < 0x1_0000 && |s2| < 0x1_0000
    ensures var b := h + Text(s1) + Text(s2) + rest;
            && |b| == 17 + |s1| + |s2| + |rest|
            && b[..13] == h
            && U16At(b, 13) == |s1| && b[15..15+|s1|] == s1
            && U16At(b, 15 + |s1|) == |s2| && b[17+|s1|..17+|s1|+|s2|] == s2
  {
    hide LE16, U16At;
    var b := h + Text(s1) + Text(s2) + rest;
    assert b[13..15] == LE16(|s1|);
    LE16Inverse(|s1|, b, 13);
    assert b[15+|s1|..17+|s1|] == LE16(|s2|);
    LE16Inverse(|s2|, b, 15 + |s1|);
  }

  lemma HeaderParts(p: Parcel, h: Bytes)
    requires |h| == 13
    ensures h == Header(p) <==>
              h[0] == p.op && h[1..5] == LE32(p.id) && h[5..9] == LE32(p.timestamp1) && h[9..13] == LE32(p.timestamp2)
  {
    hide LE32;
    assert h == [h[0]] + h[1..5] + h[5..9] + h[9..13];
    var g := Header(p);
    assert g[1..5] == LE32(p.id) && g[5..9] == LE32(p.timestamp1) && g[9..13] == LE32(p.timestamp2);
  }

  lemma HeaderLayout(p: Parcel, b: Bytes)
    requires |b| >= 13
    ensures b[..13] == Header(p) <==> (b[0] == p.op && U32At(b, 1) == p.id && U32At(b, 5) == p.timestamp1
              && U32At(b, 9) == p.timestamp2)
  {
    hide LE32, U32At;
    LE32Inverse(p.id, b, 1);
    LE32Inverse(p.timestamp1, b, 5);
    LE32Inverse(p.timestamp2, b, 9);
    HeaderParts(p, b[..13]);
    assert b[..13][1..5] == b[1..5] && b[..13][5..9] == b[5..9] && b[..13][9..13] == b[9..13];
  }

  /** Which bytes go where: the op, the three numbers with their lowest bytes first, and of each string
      its length and its first 23766 bytes at most. */
  lemma RecordBytes(p: Parcel)
    ensures var b, n1, n2 := Encode(p), Shorter(|p.str1|, 23766), Shorter(|p.str2|, 23766);
            && |b| == 17 + n1 + n2
            && b[0] == p.op
            && NumberAt(b, 1) == p.id && NumberAt(b, 5) == p.timestamp1 && NumberAt(b, 9) == p.timestamp2
            && b[13] as int + 256 * b[14] as int == n1 && b[15..15+n1] == p.str1[..n1]
            && b[15+n1] as int + 256 * b[16+n1] as int == n2 && b[17+n1..] == p.str2[..n2]
  {
    hide Header, Text, U32At;
    RecordLayout(Header(p), Cap(p.str1), Cap(p.str2), []);
    assert Encode(p) + [] == Encode(p);
    HeaderLayout(p, Encode(p));
    NumberIsRead(Encode(p), 1);
    NumberIsRead(Encode(p), 5);
    NumberIsRead(Encode(p), 9);
  }

  function Shorter(n: nat, limit: nat): nat { if n < limit then n else limit }

  /** The number whose four bytes, lowest first, start at `k`. */
  function NumberAt(b: Bytes, k: nat): int
    requires k + 4 <= |b|
  {
    b[k] as int + 256 * (b[k+1] as int + 256 * (b[k+2] as int + 256 * b[k+3] as int))
  }

  lemma NumberIsRead(b: Bytes, k: nat)
    requires k + 4 <= |b|
    ensures NumberAt(b, k) == U32At(b, k)
  {
  }

  /** The op bytes of the protocol: five log priorities, the registers, and the codes of the rest. */
  lemma OpBytes(p: Parcel)
    ensures IsLog(p) <==> p.op in {0, 1, 2, 3, 4}
    ensures IsData(p) <==> p.op in {0, 1, 2, 3, 4, 255}
    ensures p.op == REGISTER <==> p.op == 255
    ensures p.op == PUBLISH <==> p.op == 254
    ensures p.op == UNSUBSCRIBE <==> p.op == 253
    ensures p.op == SUBSCRIBE <==> p.op == 252
    ensures p.op == AVAILCH <==> p.op == 251
    ensures p.op == REPLY_FULL <==> p.op == 250
    ensures p.op == REPLY_OK <==> p.op == 249
  {
  }

  /** Round trip: whatever follows the record in the buffer, reading yields the capped parcel: all
      fields, and of each string its first 23766 bytes at most. */
  lemma RoundTrip(p: Parcel, rest: Bytes)
    ensures Decode(Encode(p) + rest) == Some(Capped(p))
    ensures var q := Decode(Encode(p) + rest).value;
            && q.op == p.op && q.id == p.id && q.timestamp1 == p.timestamp1 && q.timestamp2 == p.timestamp2
            && q.str1 == p.str1[..Shorter(|p.str1|, 23766)] && q.str2 == p.str2[..Shorter(|p.str2|, 23766)]
  {
    hide Header, Text, U16At, U32At;
    var b := Encode(p) + rest;
    RecordLayout(Header(p), Cap(p.str1), Cap(p.str2), rest);
    HeaderLayout(p, b);
  }

  lemma Reassembled(b: Bytes, p: Parcel)
    requires |p.str1| <= STRING_CAP && |p.str2| <= STRING_CAP && |b| >= RecordSize(p)
    requires b[..13] == Header(p) && b[13..15] + b[15..15+|p.str1|] == Text(p.str1)
    requires b[15+|p.str1|..17+|p.str1|] + b[17+|p.str1|..RecordSize(p)] == Text(p.str2)
    ensures Encode(p) == b[..RecordSize(p)]
  {
    hide Header, Text;
    var n1, n := |p.str1|, RecordSize(p);
    assert b[..n] == b[..13] + (b[13..15] + b[15..15+n1]) + (b[15+n1..17+n1] + b[17+n1..n]);
  }

  /** A record is read whatever the lengths of its strings, also above the cap. */
  lemma ReadsAnyRecord(p: Parcel, rest: Bytes)
    requires |p.str1| < 0x1_0000 && |p.str2| < 0x1_0000
    ensures Decode(Header(p) + Text(p.str1) + Text(p.str2) + rest) == Some(p)
  {
    hide Header, Text, U16At, U32At;
    RecordLayout(Header(p), p.str1, p.str2, rest);
    HeaderLayout(p, Header(p) + Text(p.str1) + Text(p.str2) + rest);
  }

  lemma TextAt(b: Bytes, k: nat, s: Bytes)
    requires |s| < 0x1_0000 && k + 2 + |s| <= |b|
    requires b[k..k+2] == LE16(|s|) && b[k+2..k+2+|s|] == s
    ensures b[k..k+2] + b[k+2..k+2+|s|] == Text(s)
  {
  }

  /** The other direction: a record found in memory is re-encoded byte for byte exactly when
      neither of its strings is longer than the cap. */
  lemma RelayExact(b: Bytes)
    requires Decode(b).Some?
    ensures var p := Decode(b).value;
            Encode(p) == b[..RecordSize(p)] <==> |p.str1| <= STRING_CAP && |p.str2| <= STRING_CAP
  {
    hide Header, Text, U16At, U32At, LE16, Encode, WireSize;
    var p := Decode(b).value;
    var n1, n2 := |p.str1|, |p.str2|;
    SizeBounds(p);
    if n1 <= STRING_CAP && n2 <= STRING_CAP {
      HeaderLayout(p, b);
      LE16Inverse(n1, b, 13);
      LE16Inverse(n2, b, 15 + n1);
      TextAt(b, 13, p.str1);
      TextAt(b, 15 + n1, p.str2);
      Reassembled(b, p);
    }
  }

  /** Only the first hop can shorten a string: a capped parcel has the bytes of the original,
      so a parcel that came from a dill client is relayed unchanged. */
  lemma RelayLossless(p: Parcel)
    ensures Capped(Capped(p)) == Capped(p)
    ensures Encode(Capped(p)) == Encode(p)
    ensures Decode(Encode(Capped(p))) == Some(Capped(p))
  {
    hide LE32, Text, Decode;
    RoundTrip(Capped(p), []);
    assert Encode(Capped(p)) + [] == Encode(Capped(p));
  }

  /** Two parcels have the same bytes exactly when they agree up to the cap. */
  lemma EncodeInjective(p: Parcel, q: Parcel)
    ensures Encode(p) == Encode(q) <==> Capped(p) == Capped(q)
  {
    hide Encode, Decode, Capped;
    RoundTrip(p, []);
    RoundTrip(q, []);
    assert Encode(p) + [] == Encode(p) && Encode(q) + [] == Encode(q);
    RelayLossless(p);
    RelayLossless(q);
  }

  // ---------------------------------------------------------------- the two operations of the source

  /** `b` with `s` written over it from position `at` on. */
  function Overwritten(b: Bytes, at: nat, s: Bytes): (r: Bytes)
    requires at + |s| <= |b|
    ensures |r| == |b|
  {
    b[..at] + s + b[at+|s|..]
  }

  lemma OverwriteNext(b: Bytes, at: nat, s: Bytes, t: Bytes)
    requires at + |s| + |t| <= |b|
    ensures Overwritten(Overwritten(b, at, s), at + |s|, t) == Overwritten(b, at, s + t)
  {
  }

  method Store16(buf: array<Byte>, at: nat, n: UInt16)
    requires at + 2 <= buf.Length
    modifies buf
    ensures buf[..] == Overwritten(old(buf[..]), at, LE16(n))
  {
    hide ByteOf, Rest;
    buf[at], buf[at+1] := ByteOf(n), ByteOf(Rest(n));
  }

  method Store32(buf: array<Byte>, at: nat, n: UInt32)
    requires at + 4 <= buf.Length
    modifies buf
    ensures buf[..] == Overwritten(old(buf[..]), at, LE32(n))
  {
    hide ByteOf, Rest;
    buf[at], buf[at+1], buf[at+2] := ByteOf(n), ByteOf(Rest(n)), ByteOf(Rest(Rest(n)));
    buf[at+3] := ByteOf(Rest(Rest(Rest(n))));
  }

  method CopyInto(buf: array<Byte>, at: nat, s: Bytes)
    requires at + |s| <= buf.Length
    modifies buf
    ensures buf[..] == Overwritten(old(buf[..]), at, s)
  {
    forall k | 0 <= k < |s| {
      buf[at+k] := s[k];
    }
  }

  method StoreText(buf: array<Byte>, at: nat, s: Bytes)
    requires |s| < 0x1_0000 && at + 2 + |s| <= buf.Length
    modifies buf
    ensures buf[..] == Overwritten(old(buf[..]), at, Text(s))
  {
    hide LE16;
    Store16(buf, at, |s|);
    CopyInto(buf, at + 2, s);
    OverwriteNext(old(buf[..]), at, LE16(|s|), s);
  }

  method StoreHeader(p: Parcel, buf: array<Byte>, at: nat)
    requires at + 13 <= buf.Length
    modifies buf
    ensures buf[..] == Overwritten(old(buf[..]), at, Header(p))
  {
    hide LE32;
    ghost var b := buf[..];
    var k := at;
    buf[k] := p.op;
    k := k + 1;
    assert buf[..] == Overwritten(b, at, [p.op]);
    Store32(buf, k, p.id);
    k := k + 4;
    OverwriteNext(b, at, [p.op], LE32(p.id));
    Store32(buf, k, p.timestamp1);
    k := k + 4;
    OverwriteNext(b, at, [p.op] + LE32(p.id), LE32(p.timestamp1));
    Store32(buf, k, p.timestamp2);
    OverwriteNext(b, at, [p.op] + LE32(p.id) + LE32(p.timestamp1), LE32(p.timestamp2));
  }

  /** `deflate`: returns the size, and writes the record at `at` unless the buffer is null. */
  method Deflate(p: Parcel, buf: array?<Byte>, at: nat) returns (total: UInt16)
    requires buf != null ==> at + WireSize(p) <= buf.Length
    modifies if buf == null then {} else {buf}
    ensures total == |Encode(p)|
    ensures buf != null ==> buf[..] == Overwritten(old(buf[..]), at, Encode(p))
  {
    hide Encode;
    var len1: nat := if |p.str1| > 23766 then 23766 else |p.str1|;
    var len2: nat := if |p.str2| > 23766 then 23766 else |p.str2|;
    total := Narrow16(17 + len1 + len2);
    SizeBounds(p);
    if buf != null {
      DeflateBody(p, buf, at, len1, len2);
    }
  }

  method DeflateBody(p: Parcel, buf: array<Byte>, at: nat, len1: nat, len2: nat)
    requires len1 == |Cap(p.str1)| && len2 == |Cap(p.str2)|
    requires at + 17 + len1 + len2 <= buf.Length
    modifies buf
    ensures buf[..] == Overwritten(old(buf[..]), at, Encode(p))
  {
    hide Header, Text, Overwritten;
    ghost var b, h := buf[..], Header(p);
    var s1, s2 := p.str1[..len1], p.str2[..len2];
    assert s1 == Cap(p.str1) && s2 == Cap(p.str2);
    StoreHeader(p, buf, at);
    StoreText(buf, at + 13, s1);
    OverwriteNext(b, at, h, Text(s1));
    StoreText(buf, at + 15 + len1, s2);
    OverwriteNext(b, at, h + Text(s1), Text(s2));
  }

  method Load16(buf: array<Byte>, at: nat) returns (n: UInt16)
    requires at + 2 <= buf.Length
    ensures n == U16At(buf[..], at)
  {
    hide Join16;
    n := Join16(buf[at], buf[at+1]);
  }

  method Load32(buf: array<Byte>, at: nat) returns (n: UInt32)
    requires at + 4 <= buf.Length
    ensures n == U32At(buf[..], at)
  {
    hide Join32;
    n := Join32(buf[at], buf[at+1], buf[at+2], buf[at+3]);
  }

  /** `inflate`: the memory must hold the record its length fields announce.  The 16-bit value
      returned is the size of the record unless the two strings together exceed 65518 bytes. */
  method Inflate(buf: array<Byte>) returns (p: Parcel, total: UInt16)
    requires Decode(buf[..]).Some?
    ensures Decode(buf[..]) == Some(p)
    ensures total == RecordSize(p) <==> RecordSize(p) < 0x1_0000
  {
    hide Join16, Join32;
    var k: nat := 0;
    var op := buf[k];
    k := k + 1;
    var id := Load32(buf, k);
    k := k + 4;
    var timestamp1 := Load32(buf, k);
    k := k + 4;
    var timestamp2 := Load32(buf, k);
    k := k + 4;
    var len1: nat := Load16(buf, k);
    k := k + 2;
    var str1 := buf[k..k+len1];
    k := k + len1;
    var len2: nat := Load16(buf, k);
    k := k + 2;
    var str2 := buf[k..k+len2];
    p := Parcel(op, id, timestamp1, timestamp2, str1, str2);
    total := Narrow16(17 + len1 + len2);
  }
}
