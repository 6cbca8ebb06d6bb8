/** Demultiplexing: what one connection gets for one channel depends only on that channel's
    history and on the connection's own subscriptions.  The server is compared with a family of
    small independent machines, one `Cell` for each connection and channel id. */
module Demux {
  import opened Wire
  import opened Eviction
  import opened ServerModel
  import opened ServerProofs

  /** What can happen to one cell. */
  datatype Act = Update(parcel: Parcel) | Attach(order: seq<Bytes>) | Detach | Idle

  /** `out` is what the connection was sent for the channel, `mark` where the last attach began. */
  datatype Cell = Cell(store: Store, registers: map<Bytes, Bytes>, attached: bool, out: seq<Parcel>, mark: nat)

  const EMPTY_CELL := Cell(EMPTY, map[], false, [], 0)

  ghost function Acted(cell: Cell, a: Act, id: UInt32, capacity: UInt32): Cell {
    match a
    case Update(p) =>
      if p.op == REGISTER
      then cell.(registers := cell.registers[p.str1 := p.str2], out := cell.out + if cell.attached then [p] else [])
      else cell.(store := Archive(cell.store, p, capacity),
                 out := cell.out + if cell.attached && Capable(cell.store, p, capacity) then [p] else [])
    case Attach(order) =>
      if Enumerates(order, cell.registers)
      then cell.(attached := true, mark := |cell.out|,
                 out := cell.out + (cell.store.buffers + RegisterParcels(id, cell.registers, order)))
      else cell
    case Detach => cell.(attached := false)
    case Idle => cell
  }

  ghost function Replay(acts: seq<Act>, id: UInt32, capacity: UInt32): Cell
    decreases |acts|
  {
    if acts == [] then EMPTY_CELL else Acted(Replay(acts[..|acts|-1], id, capacity), acts[|acts|-1], id, capacity)
  }

  lemma ReplaySnoc(acts: seq<Act>, a: Act, id: UInt32, capacity: UInt32)
    ensures Replay(acts + [a], id, capacity) == Acted(Replay(acts, id, capacity), a, id, capacity)
  {
    hide Acted;
    assert (acts + [a])[..|acts + [a]|-1] == acts;
  }

  // ---------------------------------------------------------------- reading the cells off the server

  /** The part of an event that concerns channel `id` and connection `c`. */
  ghost function ActOf<C>(s: Server<C>, ev: Event<C>, id: UInt32, c: C): Act {
    if !Enabled(s, ev) then Idle
    else match ev
      case Accept(_) => Idle
      case Disconnect(x) => if x == c then Detach else Idle
      case Receive(x, p, order) =>
        var mode := NextMode(s.conns[x].mode, p);
        if p.id != id || id >= |s.channels| then Idle
        else if mode == Publisher && IsData(p) then Update(p)
        else if mode == Subscriber && x == c && p.op == SUBSCRIBE then Attach(order)
        else if mode == Subscriber && x == c && p.op == UNSUBSCRIBE then Detach
        else Idle
  }

  /** One act for each event. */
  ghost function Trace<C>(s: Server<C>, evs: seq<Event<C>>, id: UInt32, c: C): (acts: seq<Act>)
    ensures |acts| == |evs|
    decreases |evs|
  {
    if evs == [] then []
    else
      var before := evs[..|evs|-1];
      Trace(s, before, id, c) + [ActOf(Run(s, before), evs[|evs|-1], id, c)]
  }

  /** The log and register parcels for one channel among those written to a connection. */
  function DataFor(out: seq<Parcel>, id: UInt32): seq<Parcel>
    decreases |out|
  {
    if out == [] then []
    else
      var p := out[|out|-1];
      DataFor(out[..|out|-1], id) + if IsData(p) && p.id == id then [p] else []
  }

  /** The cell shows channel `id` as connection `c` sees it. */
  ghost predicate Shows<C>(s: Server<C>, id: UInt32, c: C, cell: Cell) {
    && cell.out == (if c in s.conns then DataFor(s.conns[c].out, id) else [])
    && cell.attached == (id < |s.channels| && c in s.channels[id].subscribers)
    && cell.store == (if id < |s.channels| then s.channels[id].store else EMPTY)
    && cell.registers == (if id < |s.channels| then s.channels[id].registers else map[])
  }

  // ---------------------------------------------------------------- projections

  lemma {:induction false} DataAppend(a: seq<Parcel>, b: seq<Parcel>, id: UInt32)
    ensures DataFor(a + b, id) == DataFor(a, id) + DataFor(b, id)
    decreases |b|
  {
    hide IsData;
    if b == [] {
      assert a + b == a;
      assert DataFor(a, id) + [] == DataFor(a, id);
    } else {
      var n := |b| - 1;
      DataAppend(a, b[..n], id);
      assert (a + b)[..|a + b|-1] == a + b[..n];
      var last := if IsData(b[n]) && b[n].id == id then [b[n]] else [];
      assert DataFor(a, id) + DataFor(b[..n], id) + last == DataFor(a, id) + (DataFor(b[..n], id) + last);
    }
  }

  lemma DataOne(p: Parcel, id: UInt32)
    ensures DataFor([p], id) == if IsData(p) && p.id == id then [p] else []
  {
    assert [p][..0] == [];
    assert DataFor([p][..0], id) == [];
  }

  lemma DataSnoc(a: seq<Parcel>, p: Parcel, id: UInt32)
    ensures DataFor(a + [p], id) == if IsData(p) && p.id == id then DataFor(a, id) + [p] else DataFor(a, id)
  {
    DataAppend(a, [p], id);
    DataOne(p, id);
  }

  /** Parcels that are all for channel `from`. */
  lemma {:induction false} DataAll(ps: seq<Parcel>, from: UInt32, id: UInt32)
    requires forall p :: p in ps ==> IsData(p) && p.id == from
    ensures DataFor(ps, id) == if id == from then ps else []
    decreases |ps|
  {
    hide IsData;
    if ps != [] {
      var n := |ps| - 1;
      assert ps == ps[..n] + [ps[n]];
      DataAll(ps[..n], from, id);
    }
  }

  lemma SnapshotData<C>(ch: Channel<C>, order: seq<Bytes>, id: UInt32)
    requires LogsOf(ch.id, ch.store.buffers) && Enumerates(order, ch.registers)
    ensures DataFor(Snapshot(ch, order), id) == if id == ch.id then Snapshot(ch, order) else []
  {
    var rs := RegisterParcels(ch.id, ch.registers, order);
    forall p | p in Snapshot(ch, order)
      ensures IsData(p) && p.id == ch.id
    {
      if p !in ch.store.buffers {
        assert p in rs;
      }
    }
    DataAll(Snapshot(ch, order), ch.id, id);
  }

  // ---------------------------------------------------------------- the simulation

  lemma DataShows<C>(s: Server<C>, x: C, p: Parcel, id: UInt32, c: C, cell: Cell)
    requires Inv(s) && x in s.conns && Shows(s, id, c, cell) && IsData(p) && p.id < |s.channels|
    ensures Shows(OnPublisherParcel(s, x, p), id, c, Acted(cell, if p.id == id then Update(p) else Idle, id, s.bufsize))
  {
    hide DataFor, Archive, Capable, IsLog, LogsOf;
    if c in s.conns {
      DataSnoc(s.conns[c].out, p, id);
      assert DataFor(s.conns[c].out, id) + [] == DataFor(s.conns[c].out, id);
    }
  }

  lemma PublishShows<C>(s: Server<C>, x: C, p: Parcel, id: UInt32, c: C, cell: Cell)
    requires Inv(s) && x in s.conns && Shows(s, id, c, cell) && p.op == PUBLISH
    ensures Shows(OnPublisherParcel(s, x, p), id, c, cell)
  {
    hide DataFor, CStr, Granted, LogsOf;
    DataSnoc(s.conns[x].out, PublishReply(Granted(s, CStr(p.str1))), id);
  }

  lemma PublisherShows<C>(s: Server<C>, x: C, p: Parcel, id: UInt32, c: C, cell: Cell)
    requires Inv(s) && x in s.conns && Shows(s, id, c, cell)
    ensures var a := if p.id == id && id < |s.channels| && IsData(p) then Update(p) else Idle;
            Shows(OnPublisherParcel(s, x, p), id, c, Acted(cell, a, id, s.bufsize))
  {
    if IsData(p) {
      if p.id < |s.channels| {
        DataShows(s, x, p, id, c, cell);
      }
    } else if p.op == PUBLISH {
      PublishShows(s, x, p, id, c, cell);
    }
  }

  lemma AttachShows<C>(s: Server<C>, x: C, p: Parcel, order: seq<Bytes>, id: UInt32, c: C, cell: Cell)
    requires Inv(s) && x in s.conns && Shows(s, id, c, cell)
    requires p.op == SUBSCRIBE && p.id < |s.channels| && Enumerates(order, s.channels[p.id].registers)
    ensures Shows(OnSubscribeParcel(s, x, p, order), id, c,
              Acted(cell, if p.id == id && x == c then Attach(order) else Idle, id, s.bufsize))
  {
    hide DataFor, RegisterParcels, LogsOf;
    var out := s.conns[x].out;
    SnapshotData(s.channels[p.id], order, id);
    DataAppend(out, Snapshot(s.channels[p.id], order), id);
    assert DataFor(out, id) + [] == DataFor(out, id);
  }

  lemma SubscriberShows<C>(s: Server<C>, x: C, p: Parcel, order: seq<Bytes>, id: UInt32, c: C, cell: Cell)
    requires Inv(s) && x in s.conns && Shows(s, id, c, cell)
    requires p.op == AVAILCH ==> p.id < |s.channels| || |s.channels| == 0
    requires p.op == SUBSCRIBE && p.id < |s.channels| ==> Enumerates(order, s.channels[p.id].registers)
    ensures var a := if p.id == id && id < |s.channels| && x == c
                     then if p.op == SUBSCRIBE then Attach(order) else if p.op == UNSUBSCRIBE then Detach else Idle
                     else Idle;
            Shows(OnSubscribeParcel(s, x, p, order), id, c, Acted(cell, a, id, s.bufsize))
  {
    hide DataFor, Snapshot, LogsOf, Enumerates;
    if p.op == AVAILCH {
      DataSnoc(s.conns[x].out, AvailReply(s, p), id);
    } else if p.op == SUBSCRIBE && p.id < |s.channels| {
      AttachShows(s, x, p, order, id, c, cell);
    }
  }

  lemma StepShows<C>(s: Server<C>, ev: Event<C>, id: UInt32, c: C, cell: Cell)
    requires Inv(s) && Shows(s, id, c, cell)
    ensures Shows(Step(s, ev), id, c, Acted(cell, ActOf(s, ev, id, c), id, s.bufsize))
  {
    if Enabled(s, ev) && ev.Receive? {
      var x, p := ev.conn, ev.parcel;
      var mode := NextMode(s.conns[x].mode, p);
      var s1 := WithMode(s, x, mode);
      assert Inv(s1) && Shows(s1, id, c, cell);
      if mode == Publisher {
        PublisherShows(s1, x, p, id, c, cell);
      } else if mode == Subscriber {
        SubscriberShows(s1, x, p, ev.order, id, c, cell);
      }
    }
  }

  /** Over every run, for every connection and channel: the connection's output for the channel,
      the stored logs, the registers and the subscription are those of the cell replaying its own
      trace, and nothing else that happened matters. */
  lemma {:induction false} Demultiplexed<C>(bufsize: UInt32, maxchannels: UInt32, evs: seq<Event<C>>, id: UInt32, c: C)
    ensures var s := Initial<C>(bufsize, maxchannels);
            Shows(Run(s, evs), id, c, Replay(Trace(s, evs, id, c), id, bufsize))
    decreases |evs|
  {
    var s := Initial<C>(bufsize, maxchannels);
    if evs != [] {
      var before := evs[..|evs|-1];
      Demultiplexed(bufsize, maxchannels, before, id, c);
      ReachableInv(bufsize, maxchannels, before);
      var acts := Trace(s, before, id, c);
      var a := ActOf(Run(s, before), evs[|evs|-1], id, c);
      StepShows(Run(s, before), evs[|evs|-1], id, c, Replay(acts, id, bufsize));
      assert (acts + [a])[..|acts + [a]|-1] == acts;
    }
  }

  /** A connection that is not subscribed to a channel, and does not subscribe, is sent nothing for it. */
  lemma {:induction false} SilentWhileDetached<C>(s: Server<C>, evs: seq<Event<C>>, id: UInt32, c: C)
    requires Inv(s) && c in s.conns && (id < |s.channels| ==> c !in s.channels[id].subscribers)
    requires forall e :: e in evs ==> !(e.Receive? && e.conn == c && e.parcel.op == SUBSCRIBE && e.parcel.id == id)
    ensures var t := Run(s, evs);
            && c in t.conns && DataFor(t.conns[c].out, id) == DataFor(s.conns[c].out, id)
            && (id < |t.channels| ==> c !in t.channels[id].subscribers)
    decreases |evs|
  {
    hide DataFor, Step, ActOf, Directory, Subscribed, Stored;
    if evs != [] {
      var before, ev := evs[..|evs|-1], evs[|evs|-1];
      assert ev in evs;
      SilentWhileDetached(s, before, id, c);
      RunInv(s, before);
      SilentStep(Run(s, before), ev, id, c);
    }
  }

  lemma SilentStep<C>(s: Server<C>, ev: Event<C>, id: UInt32, c: C)
    requires Inv(s) && c in s.conns && (id < |s.channels| ==> c !in s.channels[id].subscribers)
    requires !(ev.Receive? && ev.conn == c && ev.parcel.op == SUBSCRIBE && ev.parcel.id == id)
    ensures var t := Step(s, ev);
            && c in t.conns && DataFor(t.conns[c].out, id) == DataFor(s.conns[c].out, id)
            && (id < |t.channels| ==> c !in t.channels[id].subscribers)
  {
    hide DataFor, Step, Inv, Archive, Capable;
    var out := DataFor(s.conns[c].out, id);
    var cell := Cell(if id < |s.channels| then s.channels[id].store else EMPTY,
                     if id < |s.channels| then s.channels[id].registers else map[], false, out, 0);
    StepShows(s, ev, id, c, cell);
    StepExtends(s, ev);
    assert out + [] == out;
  }

  /** Isolation: two runs in which the channel had the same updates and the connection the same
      subscriptions, in the same order, send the connection the same for that channel, whatever
      else happened and in however many events. */
  lemma Isolated<C>(bufsize: UInt32, max1: UInt32, max2: UInt32, evs1: seq<Event<C>>, evs2: seq<Event<C>>,
                    id: UInt32, c: C)
    requires Busy(Trace(Initial(bufsize, max1), evs1, id, c)) == Busy(Trace(Initial(bufsize, max2), evs2, id, c))
    requires c in Run(Initial(bufsize, max1), evs1).conns && c in Run(Initial(bufsize, max2), evs2).conns
    ensures DataFor(Run(Initial(bufsize, max1), evs1).conns[c].out, id) ==
              DataFor(Run(Initial(bufsize, max2), evs2).conns[c].out, id)
  {
    Demultiplexed(bufsize, max1, evs1, id, c);
    Demultiplexed(bufsize, max2, evs2, id, c);
    ReplayBusy(Trace(Initial(bufsize, max1), evs1, id, c), id, bufsize);
    ReplayBusy(Trace(Initial(bufsize, max2), evs2, id, c), id, bufsize);
  }

  /** The acts without the idle ones. */
  function Busy(acts: seq<Act>): seq<Act>
    decreases |acts|
  {
    if acts == [] then []
    else Busy(acts[..|acts|-1]) + if acts[|acts|-1] == Idle then [] else [acts[|acts|-1]]
  }

  lemma {:induction false} ReplayBusy(acts: seq<Act>, id: UInt32, capacity: UInt32)
    ensures Replay(Busy(acts), id, capacity) == Replay(acts, id, capacity)
    decreases |acts|
  {
    if acts != [] {
      var n := |acts| - 1;
      ReplayBusy(acts[..n], id, capacity);
      var b := Busy(acts[..n]);
      if acts[n] == Idle {
        assert b + [] == b;
      } else {
        assert (b + [acts[n]])[..|b + [acts[n]]|-1] == b;
      }
    }
  }
}
