/** Frames on a byte stream: each parcel travels behind its 16-bit length.
    The client reads exactly the bytes it asked for; the server takes whatever one
    `async_read_some` returns and gives the connection up when that is not all it asked for. */
module Framing {
  import opened Wire

  /** Both ends read into, and write from, a buffer of this size. */
  const BUFFER_SIZE := 65538

  // ---------------------------------------------------------------- streams

  /** The content of a frame: bytes that hold a whole record (and perhaps more). */
  predicate IsContent(e: Bytes) { |e| < 0x1_0000 && Decode(e).Some? }

  predicate AllContents(es: seq<Bytes>) { forall k :: 0 <= k < |es| ==> IsContent(es[k]) }

  function Held(e: Bytes): Parcel
    requires IsContent(e)
  {
    Decode(e).value
  }

  function HeldAll(es: seq<Bytes>): (ps: seq<Parcel>)
    requires AllContents(es)
    ensures |ps| == |es|
    ensures forall k :: 0 <= k < |es| ==> ps[k] == Held(es[k])
  {
    seq(|es|, k requires 0 <= k < |es| => Held(es[k]))
  }

  /** A frame: the length, narrowed to 16 bits, and the content. */
  function Frame(e: Bytes): (f: Bytes)
    ensures |f| == 2 + |e|
  {
    LE16(Narrow16(|e|)) + e
  }

  function Stream(es: seq<Bytes>): Bytes { if es == [] then [] else Frame(es[0]) + Stream(es[1..]) }

  function Concat(chunks: seq<Bytes>): Bytes { if chunks == [] then [] else chunks[0] + Concat(chunks[1..]) }

  /** How many whole frames lie in the first `m` bytes of the stream. */
  function FramesIn(es: seq<Bytes>, m: nat): (k: nat)
    ensures k <= |es|
  {
    if es == [] || m < 2 + |es[0]| then 0 else 1 + FramesIn(es[1..], m - 2 - |es[0]|)
  }

  lemma {:induction false} FramesInMaximal(es: seq<Bytes>, m: nat)
    ensures var k := FramesIn(es, m);
            |Stream(es[..k])| <= m && (k < |es| ==> m < |Stream(es[..k+1])|)
  {
    var k := FramesIn(es, m);
    if es == [] {
    } else if m < 2 + |es[0]| {
      assert Stream(es[..1]) == Frame(es[0]) + Stream(es[..1][1..]);
    } else {
      FramesInMaximal(es[1..], m - 2 - |es[0]|);
      assert es[..k][1..] == es[1..][..k-1];
      if k < |es| {
        assert es[..k+1][1..] == es[1..][..k];
      }
    }
  }

  /** What dill itself sends. */
  function Contents(ps: seq<Parcel>): (es: seq<Bytes>)
    ensures |es| == |ps|
    ensures forall k :: 0 <= k < |ps| ==> es[k] == Encode(ps[k])
  {
    seq(|ps|, k requires 0 <= k < |ps| => Encode(ps[k]))
  }

  lemma EncodeIsContent(p: Parcel)
    ensures IsContent(Encode(p)) && Held(Encode(p)) == Capped(p)
  {
    SizeBounds(p);
    RoundTrip(p, []);
    assert Encode(p) + [] == Encode(p);
  }

  lemma ContentsHeld(ps: seq<Parcel>)
    ensures AllContents(Contents(ps)) && HeldAll(Contents(ps)) == CappedAll(ps)
  {
    forall k | 0 <= k < |ps|
      ensures IsContent(Contents(ps)[k]) && Held(Contents(ps)[k]) == Capped(ps[k])
    {
      EncodeIsContent(ps[k]);
    }
  }

  /** A record is read the same whatever follows it. */
  lemma DecodePrefix(e: Bytes, rest: Bytes)
    requires Decode(e).Some?
    ensures Decode(e + rest) == Decode(e)
  {
    hide Join16, Join32;
    var b := e + rest;
    var n1: nat := U16At(e, 13);
    assert forall k :: 0 <= k < |e| ==> b[k] == e[k];
    assert U16At(b, 13) == n1;
    var n2: nat := U16At(e, 15 + n1);
    assert U16At(b, 15 + n1) == n2;
    assert b[15..15+n1] == e[15..15+n1];
    assert b[17+n1..17+n1+n2] == e[17+n1..17+n1+n2];
  }

  // ---------------------------------------------------------------- the reader at either end

  /** `buf` is the receive buffer with whatever earlier reads left in it, `want` the number of
      bytes asked for, `inContent` whether they are a parcel or its length, `queue` bytes that have
      arrived but were not read yet, `out` the parcels handed to the host.  `defined` is lost when
      the lengths inside a parcel send `inflate` past the end of the buffer. */
  datatype Reader = Reader(buf: Bytes, want: nat, inContent: bool, queue: Bytes, out: seq<Parcel>, defined: bool) {
    ghost predicate Valid() {
      && |buf| == BUFFER_SIZE
      && want < 0x1_0000
      && (!inContent ==> want == 2)
    }
  }

  function Fresh(buf: Bytes): Reader { Reader(buf, 2, false, [], [], true) }

  function Push(r: Reader, chunk: Bytes): Reader { r.(queue := r.queue + chunk) }

  /** The completion handler of a read that delivered all of `data`. */
  function Completed(r: Reader, data: Bytes): (r': Reader)
    requires r.Valid() && |data| == r.want
    ensures r'.Valid()
  {
    var buf := data + r.buf[|data|..];
    if !r.inContent then r.(buf := buf, want := U16At(buf, 0), inContent := true)
    else match Decode(buf)
      case Some(p) => r.(buf := buf, want := 2, inContent := false, out := r.out + [p])
      case None => r.(buf := buf, defined := false)
  }

  lemma LengthRead(r: Reader, n: UInt16)
    requires r.Valid() && !r.inContent
    ensures var r' := Completed(r, LE16(n));
            r' == Reader(r'.buf, n, true, r.queue, r.out, r.defined)
  {
    var buf := LE16(n) + r.buf[2..];
    assert buf[0..2] == LE16(n);
    LE16Inverse(n, buf, 0);
  }

  lemma ContentRead(r: Reader, e: Bytes)
    requires IsContent(e) && r.Valid() && r.inContent && r.want == |e|
    ensures var r' := Completed(r, e);
            r' == Reader(r'.buf, 2, false, r.queue, r.out + [Held(e)], r.defined)
  {
    DecodePrefix(e, r.buf[|e|..]);
  }

  // ---------------------------------------------------------------- the client: exact reads

  function Drain(r: Reader): (r': Reader)
    requires r.Valid()
    ensures r'.Valid()
    decreases |r.queue|, r.inContent
  {
    if r.defined && r.want <= |r.queue|
    then
      var next := Completed(r.(queue := r.queue[r.want..]), r.queue[..r.want]);
      if next.defined then Drain(next) else next
    else r
  }

  function Arrive(r: Reader, chunks: seq<Bytes>): (r': Reader)
    requires r.Valid()
    ensures r'.Valid()
    decreases |chunks|
  {
    if chunks == [] then r else Arrive(Drain(Push(r, chunks[0])), chunks[1..])
  }

  /** Reading what has arrived and then what comes next is reading everything at once. */
  lemma {:induction false} DrainPush(r: Reader, chunk: Bytes)
    requires r.Valid()
    ensures Drain(Push(Drain(r), chunk)) == Drain(Push(r, chunk))
    decreases |r.queue|, r.inContent
  {
    if r.defined && r.want <= |r.queue| {
      var q := r.queue + chunk;
      assert q[..r.want] == r.queue[..r.want];
      assert q[r.want..] == r.queue[r.want..] + chunk;
      var next := Completed(r.(queue := r.queue[r.want..]), r.queue[..r.want]);
      assert Completed(Push(r, chunk).(queue := q[r.want..]), q[..r.want]) == Push(next, chunk);
      if next.defined {
        DrainPush(next, chunk);
      }
    }
  }

  lemma PushTwice(r: Reader, a: Bytes, b: Bytes)
    ensures Push(Push(r, a), b) == Push(r, a + b)
    ensures Push(r, []) == r
  {
    assert r.queue + a + b == r.queue + (a + b);
  }

  lemma {:induction false} NextChunk(r: Reader, a: Bytes, b: Bytes)
    requires r.Valid()
    ensures var r1 := Drain(Push(r, a));
            Drain(r1) == r1 && Drain(Push(r1, b)) == Drain(Push(r, a + b))
  {
    hide Drain;
    PushTwice(r, a, b);
    DrainPush(Push(r, a), []);
    PushTwice(Push(r, a), [], []);
    PushTwice(Drain(Push(r, a)), [], []);
    DrainPush(Push(r, a), b);
  }

  /** For every byte stream whatever, the way it is cut into chunks makes no difference. */
  lemma {:induction false} ChunkingIrrelevant(r: Reader, chunks: seq<Bytes>)
    requires r.Valid() && Drain(r) == r
    ensures Arrive(r, chunks) == Drain(Push(r, Concat(chunks)))
    decreases |chunks|
  {
    hide Drain;
    if chunks == [] {
      PushTwice(r, [], []);
    } else {
      NextChunk(r, chunks[0], Concat(chunks[1..]));
      ChunkingIrrelevant(Drain(Push(r, chunks[0])), chunks[1..]);
    }
  }

  lemma DrainOnce(r: Reader, data: Bytes, rest: Bytes)
    requires r.Valid() && r.defined
    requires |data| == r.want && r.queue == data + rest
    ensures var next := Completed(r.(queue := rest), data);
            Drain(r) == if next.defined then Drain(next) else next
  {
    assert r.queue[..r.want] == data && r.queue[r.want..] == rest;
  }

  /** Both reads of a frame that has arrived. */
  lemma DrainFrame(r: Reader, e: Bytes, rest: Bytes) returns (buf: Bytes)
    requires r.Valid() && r.defined && !r.inContent
    requires |e| < 0x1_0000 && IsContent(e)
    requires r.queue == Frame(e) + rest
    ensures |buf| == BUFFER_SIZE
    ensures Drain(r) == Drain(Reader(buf, 2, false, rest, r.out + [Held(e)], true))
  {
    hide Drain, IsContent, Held;
    assert r.queue == LE16(|e|) + (e + rest);
    DrainOnce(r, LE16(|e|), e + rest);
    LengthRead(r.(queue := e + rest), |e|);
    var r1 := Completed(r.(queue := e + rest), LE16(|e|));
    DrainOnce(r1, e, rest);
    ContentRead(r1.(queue := rest), e);
    buf := Completed(r1.(queue := rest), e).buf;
  }

  /** A frame of which only a part has arrived. */
  lemma DrainPartial(r: Reader, e: Bytes, rest: Bytes, m: nat)
    requires r.Valid() && r.defined && !r.inContent
    requires |e| < 0x1_0000
    requires m < 2 + |e| && r.queue == (Frame(e) + rest)[..m]
    ensures Drain(r).defined && Drain(r).out == r.out
  {
    hide Decode;
    if m >= 2 {
      var part := e[..m-2];
      assert r.queue == LE16(|e|) + part;
      DrainOnce(r, LE16(|e|), part);
      LengthRead(r.(queue := part), |e|);
    }
  }

  /** One more frame in front of `k` others. */
  lemma HeldNext(out: seq<Parcel>, es: seq<Bytes>, k: nat)
    requires AllContents(es) && k < |es|
    ensures out + [Held(es[0])] + HeldAll(es[1..][..k]) == out + HeldAll(es[..1+k])
  {
    hide IsContent, Held;
    var t := HeldAll(es[1..][..k]);
    assert HeldAll(es[..1+k]) == [Held(es[0])] + t;
    assert out + [Held(es[0])] + t == out + ([Held(es[0])] + t);
  }

  lemma StreamCut(e: Bytes, rest: Bytes, m: nat)
    requires |Frame(e)| <= m <= |Frame(e)| + |rest|
    ensures (Frame(e) + rest)[..m] == Frame(e) + rest[..m - 2 - |e|]
  {
  }

  lemma NoneHeld(es: seq<Bytes>, out: seq<Parcel>)
    requires AllContents(es)
    ensures AllContents(es[..0]) && out + HeldAll(es[..0]) == out
  {
    hide IsContent, Held;
  }

  lemma DrainNothing(r: Reader, es: seq<Bytes>)
    requires AllContents(es) && es == [] && r.Valid() && r.defined && !r.inContent && r.queue == []
    ensures Drain(r) == r && r.out + HeldAll(es[..FramesIn(es, 0)]) == r.out
  {
    NoneHeld(es, r.out);
  }

  lemma {:induction false} DrainFirst(r: Reader, es: seq<Bytes>, m: nat)
    requires AllContents(es) && r.Valid() && r.defined && !r.inContent
    requires es != [] && 2 + |es[0]| <= m <= |Stream(es)| && r.queue == Stream(es)[..m]
    ensures Drain(r).defined && Drain(r).out == r.out + HeldAll(es[..FramesIn(es, m)])
    decreases |es|, 0
  {
    hide Drain, Held, HeldAll, Frame, Decode;
    var e, k := es[0], m - 2 - |es[0]|;
    var rest := Stream(es[1..])[..k];
    StreamCut(e, Stream(es[1..]), m);
    var buf := DrainFrame(r, e, rest);
    DrainStream(Reader(buf, 2, false, rest, r.out + [Held(e)], true), es[1..], k);
    HeldNext(r.out, es, FramesIn(es[1..], k));
  }

  lemma {:induction false} DrainStream(r: Reader, es: seq<Bytes>, m: nat)
    requires AllContents(es) && r.Valid() && r.defined && !r.inContent
    requires m <= |Stream(es)| && r.queue == Stream(es)[..m]
    ensures Drain(r).defined && Drain(r).out == r.out + HeldAll(es[..FramesIn(es, m)])
    decreases |es|
  {
    if es == [] {
      DrainNothing(r, es);
    } else if m < 2 + |es[0]| {
      DrainPartial(r, es[0], Stream(es[1..]), m);
      NoneHeld(es, r.out);
    } else {
      DrainFirst(r, es, m);
    }
  }

  /** However the stream is chunked and wherever it is cut off, the client hands its host exactly
      the parcels of the frames that arrived whole. */
  lemma {:induction false} ClientDecodesStream(buf: Bytes, es: seq<Bytes>, chunks: seq<Bytes>)
    requires AllContents(es) && |buf| == BUFFER_SIZE
    requires Concat(chunks) <= Stream(es)
    ensures var r := Arrive(Fresh(buf), chunks);
            r.defined && r.out == HeldAll(es[..FramesIn(es, |Concat(chunks)|)])
  {
    var r, bytes := Fresh(buf), Concat(chunks);
    ChunkingIrrelevant(r, chunks);
    assert bytes == Stream(es)[..|bytes|] && [] + bytes == bytes;
    DrainStream(Push(r, bytes), es, |bytes|);
  }

  /** The same for what dill sends: its parcels come out capped. */
  lemma {:induction false} ClientReceivesCapped(buf: Bytes, ps: seq<Parcel>, chunks: seq<Bytes>)
    requires |buf| == BUFFER_SIZE
    requires Concat(chunks) == Stream(Contents(ps))
    ensures Arrive(Fresh(buf), chunks).defined && Arrive(Fresh(buf), chunks).out == CappedAll(ps)
  {
    hide Contents, IsContent, Held, Arrive, Concat, HeldAll, CappedAll;
    var es := Contents(ps);
    ContentsHeld(ps);
    ClientDecodesStream(buf, es, chunks);
    FramesInMaximal(es, |Stream(es)|);
    WholeStream(es, FramesIn(es, |Stream(es)|));
    assert es[..|es|] == es;
  }

  lemma {:induction false} WholeStream(es: seq<Bytes>, k: nat)
    requires k <= |es| && (k < |es| ==> |Stream(es)| < |Stream(es[..k+1])|)
    ensures k == |es|
  {
    if k < |es| {
      StreamGrows(es, k + 1);
    }
  }

  lemma {:induction false} StreamGrows(es: seq<Bytes>, k: nat)
    requires k <= |es|
    ensures |Stream(es[..k])| <= |Stream(es)|
  {
    if k > 0 {
      StreamGrows(es[1..], k - 1);
      assert es[..k][1..] == es[1..][..k-1];
    }
  }

  // ---------------------------------------------------------------- the server: one read_some per step

  /** The server's reader; `alive` is lost when a disconnect is scheduled. */
  datatype ServerReader = ServerReader(reader: Reader, alive: bool)

  /** One completed `async_read_some`: its bytes, or None for an error. */
  function ReadSome(s: ServerReader, got: Option<Bytes>): (s': ServerReader)
    requires s.reader.Valid()
    ensures s'.reader.Valid()
  {
    if !s.alive || !s.reader.defined then s
    else if got.Some? && |got.value| == s.reader.want then s.(reader := Completed(s.reader, got.value))
    else s.(alive := false)
  }

  function ReadAll(s: ServerReader, parts: seq<Option<Bytes>>): (s': ServerReader)
    requires s.reader.Valid()
    ensures s'.reader.Valid()
    decreases |parts|
  {
    if parts == [] then s else ReadAll(ReadSome(s, parts[0]), parts[1..])
  }

  /** The bytes that the reads delivered. */
  function Delivered(parts: seq<Option<Bytes>>): Bytes {
    if parts == [] then [] else (if parts[0].Some? then parts[0].value else []) + Delivered(parts[1..])
  }

  /** The only reads of the stream that the server survives. */
  function Canonical(es: seq<Bytes>): seq<Option<Bytes>> {
    if es == [] then [] else [Some(LE16(Narrow16(|es[0]|))), Some(es[0])] + Canonical(es[1..])
  }

  /** How many frames were read whole, length and content, before the first read that was not. */
  function Handled(es: seq<Bytes>, parts: seq<Option<Bytes>>): (k: nat)
    ensures k <= |es|
  {
    if |parts| < 2 || es == [] || parts[..2] != [Some(LE16(Narrow16(|es[0]|))), Some(es[0])] then 0
    else 1 + Handled(es[1..], parts[2..])
  }

  lemma {:induction false} DeadStaysDead(s: ServerReader, parts: seq<Option<Bytes>>)
    requires s.reader.Valid() && !s.alive
    ensures ReadAll(s, parts) == s
    decreases |parts|
  {
    if parts != [] {
      DeadStaysDead(s, parts[1..]);
    }
  }

  lemma PrefixSplit(a: Bytes, b: Bytes, c: Bytes, d: Bytes)
    requires a + b <= c + d && |a| == |c|
    ensures a == c && b <= d
  {
    assert a == (a + b)[..|a|] == (c + d)[..|c|] == c;
    assert b == (a + b)[|a|..];
    assert d == (c + d)[|c|..];
  }

  /** The read of a length: whole, or the end. */
  lemma LengthPart(s: ServerReader, n: UInt16, parts: seq<Option<Bytes>>, rest: Bytes) returns (s1: ServerReader)
    requires s.reader.Valid() && s.alive && s.reader.defined && !s.reader.inContent
    requires parts != [] && Delivered(parts) <= LE16(n) + rest
    ensures s1.reader.Valid()
    ensures if parts[0].None? || |parts[0].value| != 2
            then parts[0] != Some(LE16(n)) && ReadAll(s, parts) == s.(alive := false)
            else
              && parts[0] == Some(LE16(n))
              && Delivered(parts[1..]) <= rest
              && s1 == ServerReader(Reader(s1.reader.buf, n, true, s.reader.queue, s.reader.out, true), true)
              && ReadAll(s, parts) == ReadAll(s1, parts[1..])
  {
    s1 := ReadSome(s, parts[0]);
    if parts[0].None? || |parts[0].value| != 2 {
      DeadStaysDead(s1, parts[1..]);
    } else {
      PrefixSplit(parts[0].value, Delivered(parts[1..]), LE16(n), rest);
      LengthRead(s.reader, n);
    }
  }

  /** The read of a parcel: whole, or the end. */
  lemma ContentPart(s: ServerReader, e: Bytes, parts: seq<Option<Bytes>>, rest: Bytes) returns (s1: ServerReader)
    requires IsContent(e) && s.reader.Valid() && s.alive && s.reader.defined && s.reader.inContent
               && s.reader.want == |e|
    requires parts != [] && Delivered(parts) <= e + rest
    ensures s1.reader.Valid()
    ensures if parts[0].None? || |parts[0].value| != |e|
            then parts[0] != Some(e) && ReadAll(s, parts) == s.(alive := false)
            else
              && parts[0] == Some(e)
              && Delivered(parts[1..]) <= rest
              && s1 == ServerReader(
                         Reader(s1.reader.buf, 2, false, s.reader.queue, s.reader.out + [Held(e)], true), true)
              && ReadAll(s, parts) == ReadAll(s1, parts[1..])
  {
    s1 := ReadSome(s, parts[0]);
    if parts[0].None? || |parts[0].value| != |e| {
      DeadStaysDead(s1, parts[1..]);
    } else {
      PrefixSplit(parts[0].value, Delivered(parts[1..]), e, rest);
      ContentRead(s.reader, e);
    }
  }

  ghost predicate ReadsFrom(s: ServerReader, es: seq<Bytes>, parts: seq<Option<Bytes>>, k: nat)
    requires s.reader.Valid() && AllContents(es) && k <= |es|
  {
    var s' := ReadAll(s, parts);
    && s'.reader.defined
    && (s'.alive <==> parts <= Canonical(es))
    && s'.reader.out == s.reader.out + HeldAll(es[..k])
  }

  lemma PrefixTwo(x: Option<Bytes>, y: Option<Bytes>, parts: seq<Option<Bytes>>, c: seq<Option<Bytes>>)
    requires |parts| >= 2 && parts[0] == x && parts[1] == y
    ensures parts <= [x, y] + c <==> parts[2..] <= c
  {
    assert parts == [x, y] + parts[2..];
    assert ([x, y] + c)[2..] == c;
  }

  lemma ReadsFromNext(s: ServerReader, s2: ServerReader, es: seq<Bytes>, parts: seq<Option<Bytes>>, k: nat)
    requires AllContents(es) && s.reader.Valid() && s2.reader.Valid()
    requires |parts| >= 2 && k < |es|
    requires parts[0] == Some(LE16(Narrow16(|es[0]|))) && parts[1] == Some(es[0])
    requires ReadAll(s, parts) == ReadAll(s2, parts[2..])
    requires s2.reader.out == s.reader.out + [Held(es[0])]
    requires ReadsFrom(s2, es[1..], parts[2..], k)
    ensures ReadsFrom(s, es, parts, 1 + k)
  {
    hide IsContent, Held, LE16, Narrow16, ReadAll, HeldAll;
    HeldNext(s.reader.out, es, k);
    PrefixTwo(parts[0], parts[1], parts, Canonical(es[1..]));
  }

  /** How the reads compare with the canonical cut, by their first two. */
  lemma FirstParts(es: seq<Bytes>, parts: seq<Option<Bytes>>)
    requires es != [] && parts != []
    ensures var l := Some(LE16(Narrow16(|es[0]|)));
            if parts[0] != l || (|parts| > 1 && parts[1] != Some(es[0]))
            then !(parts <= Canonical(es)) && Handled(es, parts) == 0
            else if |parts| == 1 then parts <= Canonical(es) && Handled(es, parts) == 0
            else Handled(es, parts) == 1 + Handled(es[1..], parts[2..])
  {
    var l, c := Some(LE16(Narrow16(|es[0]|))), Canonical(es);
    hide LE16;
    assert c[0] == l && c[1] == Some(es[0]);
    if |parts| > 1 {
      assert parts[..2] == [parts[0], parts[1]];
    }
  }

  /** Reads of which the last one killed the connection, or that are part of one frame. */
  lemma NothingHandled(s: ServerReader, es: seq<Bytes>, parts: seq<Option<Bytes>>)
    requires AllContents(es) && s.reader.Valid()
    requires var s' := ReadAll(s, parts);
             s'.reader.defined && s'.reader.out == s.reader.out && (s'.alive <==> parts <= Canonical(es))
    ensures ReadsFrom(s, es, parts, 0)
  {
    hide ReadAll, Canonical;
    NoneHeld(es, s.reader.out);
  }

  lemma NoStreamLeft(s: ServerReader, parts: seq<Option<Bytes>>)
    requires s.reader.Valid() && s.alive && s.reader.defined && !s.reader.inContent
    requires parts != [] && Delivered(parts) <= []
    ensures ReadAll(s, parts) == s.(alive := false)
  {
    assert parts[0].None? || parts[0].value == [];
    DeadStaysDead(ReadSome(s, parts[0]), parts[1..]);
  }

  lemma {:induction false} ServerReadsFrom(s: ServerReader, es: seq<Bytes>, parts: seq<Option<Bytes>>)
    requires AllContents(es) && s.reader.Valid() && s.alive && s.reader.defined && !s.reader.inContent
    requires Delivered(parts) <= Stream(es)
    ensures ReadsFrom(s, es, parts, Handled(es, parts))
    decreases |es|
  {
    if parts == [] {
      NothingHandled(s, es, parts);
    } else if es == [] {
      // nothing is left of the stream, so the read was empty, hence short, or failed
      NoStreamLeft(s, parts);
      NothingHandled(s, es, parts);
    } else {
      StreamHead(es);
      ServerReadsFrame(s, es, parts);
    }
  }

  lemma NoMoreReads(s: ServerReader)
    requires s.reader.Valid()
    ensures ReadAll(s, []) == s
  {
  }

  lemma StreamHead(es: seq<Bytes>)
    requires es != []
    ensures Stream(es) == LE16(Narrow16(|es[0]|)) + (es[0] + Stream(es[1..]))
  {
    assert LE16(Narrow16(|es[0]|)) + es[0] + Stream(es[1..]) == LE16(Narrow16(|es[0]|)) + (es[0] + Stream(es[1..]));
  }

  lemma {:induction false} ServerReadsFrame(s: ServerReader, es: seq<Bytes>, parts: seq<Option<Bytes>>)
    requires AllContents(es) && s.reader.Valid() && s.alive && s.reader.defined && !s.reader.inContent
    requires es != [] && parts != []
    requires Delivered(parts) <= LE16(Narrow16(|es[0]|)) + (es[0] + Stream(es[1..]))
    ensures ReadsFrom(s, es, parts, Handled(es, parts))
    decreases |es|, 0
  {
    hide Decode, Held, LE16, Canonical, Handled, ReadSome, ReadAll, Delivered;
    var e, n := es[0], Narrow16(|es[0]|);
    FirstParts(es, parts);
    assert IsContent(e);
    assert n == |e|;
    var s1 := LengthPart(s, n, parts, e + Stream(es[1..]));
    if parts[0] != Some(LE16(n)) {
      NothingHandled(s, es, parts);
    } else if |parts| == 1 {
      assert parts[1..] == [];
      NoMoreReads(s1);
      NothingHandled(s, es, parts);
    } else {
      var s2 := ContentPart(s1, e, parts[1..], Stream(es[1..]));
      if parts[1] != Some(e) {
        NothingHandled(s, es, parts);
      } else {
        assert parts[1..][1..] == parts[2..];
        ServerReadsFrom(s2, es[1..], parts[2..]);
        ReadsFromNext(s, s2, es, parts, Handled(es[1..], parts[2..]));
      }
    }
  }

  /** For every pattern of reads over a stream of frames, short ones and ones that fail included, the
      server handles exactly the parcels whose two reads were both whole, up to the first read that was
      not; and it keeps the connection exactly as long as every read so far ended on a frame part. */
  lemma {:induction false} ServerReadsStream(buf: Bytes, es: seq<Bytes>, parts: seq<Option<Bytes>>)
    requires |buf| == BUFFER_SIZE && AllContents(es)
    requires Delivered(parts) <= Stream(es)
    ensures var s := ReadAll(ServerReader(Fresh(buf), true), parts);
            && s.reader.defined
            && (s.alive <==> parts <= Canonical(es))
            && s.reader.out == HeldAll(es[..Handled(es, parts)])
            && s.reader.out <= HeldAll(es)
  {
    ServerReadsFrom(ServerReader(Fresh(buf), true), es, parts);
    var k := Handled(es, parts);
    assert HeldAll(es[..k]) == HeldAll(es)[..k];
  }
}
