/** The buffers and read handlers of the two ends of a connection, updated in place. */
module NetIo {
  import opened Wire
  import opened Framing

  /** What client and server connections share: a receive buffer, a send buffer, and where the
      reader is.  `incoming` stands for the bytes the socket holds, `handed` for the parcels the
      host was given. */
  class Endpoint {
    const rdBuf: array<Byte>
    const wtBuf: array<Byte>
    var expecting: nat
    var inContent: bool
    var incoming: Bytes
    var handed: seq<Parcel>

    ghost predicate Valid()
      reads this, rdBuf
    {
      && rdBuf != wtBuf
      && wtBuf.Length == BUFFER_SIZE
      && View().Valid()
    }

    ghost function View(): Reader
      reads this, rdBuf
    {
      Reader(rdBuf[..], expecting, inContent, incoming, handed, true)
    }

    constructor ()
      ensures Valid() && fresh(rdBuf) && fresh(wtBuf)
      ensures View() == Fresh(rdBuf[..])
    {
      rdBuf := new Byte[65538](_ => 0);
      wtBuf := new Byte[65538](_ => 0);
      expecting, inContent, incoming, handed := 2, false, [], [];
    }

    /** `onReadParcelLengthFinished` and `onReadParcelContentFinished` of a read that was whole. */
    method ReadFinished(data: Bytes)
      requires Valid() && |data| == expecting
      requires Completed(View(), data).defined
      modifies this, rdBuf
      ensures Valid() && View() == Completed(old(View()), data)
      ensures if old(inContent)
              then
                && expecting == 2 && !inContent
                && |handed| == |old(handed)| + 1 && handed[..|old(handed)|] == old(handed)
              else expecting == data[0] as int + 256 * data[1] as int && inContent && handed == old(handed)
    {
      hide Decode;
      CopyInto(rdBuf, 0, data);
      assert rdBuf[..] == data + old(rdBuf[..])[|data|..];
      if !inContent {
        expecting := Load16(rdBuf, 0);
        inContent := true;
      } else {
        var p, _ := Inflate(rdBuf);
        handed := handed + [p];
        expecting, inContent := 2, false;
      }
    }

    /** The client: every exact read that the arrived bytes satisfy completes. */
    method BytesArrive(chunk: Bytes)
      requires Valid() && Drain(Push(View(), chunk)).defined
      modifies this, rdBuf
      ensures Valid() && View() == Drain(Push(old(View()), chunk))
    {
      incoming := incoming + chunk;
      while expecting <= |incoming|
        invariant Valid() && Drain(View()) == Drain(Push(old(View()), chunk))
        decreases |incoming|, inContent
      {
        var data := incoming[..expecting];
        incoming := incoming[expecting..];
        ReadFinished(data);
      }
    }

    /** The server: one `async_read_some` completes; the result says whether the connection is kept. */
    method ReadSomeFinished(got: Option<Bytes>) returns (keep: bool)
      requires Valid() && ReadSome(ServerReader(View(), true), got).reader.defined
      modifies this, rdBuf
      ensures Valid() && ServerReader(View(), keep) == ReadSome(ServerReader(old(View()), true), got)
    {
      keep := got.Some? && |got.value| == expecting;
      if keep {
        ReadFinished(got.value);
      }
    }

    /** `asyncWriteParcel`, the same at both ends: the frame is laid out at the start of the send buffer. */
    method WriteParcel(p: Parcel) returns (n: nat)
      requires Valid()
      modifies wtBuf
      ensures Valid() && unchanged(this) && unchanged(rdBuf)
      ensures n <= BUFFER_SIZE && wtBuf[..n] == Stream(Contents([p]))
      ensures n == 2 + |Encode(p)| && wtBuf[2..n] == Encode(p)
      ensures wtBuf[0] as int + 256 * wtBuf[1] as int == |Encode(p)|
    {
      hide Encode, WireSize, LE16, Overwritten;
      SizeBounds(p);
      FrameOf(p);
      LengthBytes(|Encode(p)|);
      var len := Deflate(p, wtBuf, 2);
      Store16(wtBuf, 0, len);
      n := len + 2;
      FrameLaid(old(wtBuf[..]), LE16(len), Encode(p));
      assert wtBuf[..n] == LE16(len) + Encode(p);
      assert wtBuf[0] == wtBuf[..n][0] && wtBuf[1] == wtBuf[..n][1] && wtBuf[2..n] == wtBuf[..n][2..];
    }

    static lemma LengthBytes(n: UInt16)
      ensures LE16(n)[0] as int + 256 * LE16(n)[1] as int == n
    {
      hide LE16;
      Value16(n);
    }

    /** The content was written first, then the length before it. */
    static lemma FrameLaid(b: Bytes, l: Bytes, e: Bytes)
      requires |l| == 2 && 2 + |e| <= |b|
      ensures Overwritten(Overwritten(b, 2, e), 0, l)[..2+|e|] == l + e
    {
    }

    static lemma FrameOf(p: Parcel)
      ensures |Encode(p)| <= MAX_WIRE && Stream(Contents([p])) == LE16(|Encode(p)|) + Encode(p)
    {
      SizeBounds(p);
      hide Encode;
      assert Contents([p]) == [Encode(p)];
      assert Stream([Encode(p)]) == Frame(Encode(p)) + Stream([]);
    }
  }
}
