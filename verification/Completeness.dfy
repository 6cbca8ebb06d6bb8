/** What a subscriber is owed of a channel's logs, and when it is sent all of that. */
module Completeness {
  import opened Wire
  import opened Eviction
  import opened ServerModel
  import opened ServerProofs
  import opened Demux
  import opened Convergence

  // ---------------------------------------------------------------- what a connection is owed

  /** Of the logs, an attach owes what is stored then, and being attached owes each log from then on. */
  ghost function OwedNext(owed: seq<Parcel>, cell: Cell, a: Act): seq<Parcel> {
    match a
    case Update(p) => if cell.attached && IsLog(p) then owed + [p] else owed
    case Attach(order) => if Enumerates(order, cell.registers) then cell.store.buffers else owed
    case _ => owed
  }

  /** What is owed since the last attach. */
  ghost function Owed(acts: seq<Act>, id: UInt32, capacity: UInt32): seq<Parcel>
    decreases |acts|
  {
    if acts == [] then []
    else
      var before := acts[..|acts|-1];
      OwedNext(Owed(before, id, capacity), Replay(before, id, capacity), acts[|acts|-1])
  }

  lemma OwedSnoc(acts: seq<Act>, a: Act, id: UInt32, capacity: UInt32)
    ensures Owed(acts + [a], id, capacity) == OwedNext(Owed(acts, id, capacity), Replay(acts, id, capacity), a)
  {
    hide OwedNext, Replay;
    assert (acts + [a])[..|acts|] == acts;
  }

  /** The logs sent since the last attach are exactly those owed. */
  ghost predicate Hears(cell: Cell, owed: seq<Parcel>) {
    cell.mark <= |cell.out| && Logs(cell.out[cell.mark..]) == owed
  }

  lemma NothingOwed(id: UInt32, capacity: UInt32)
    ensures Hears(Replay([], id, capacity), Owed([], id, capacity))
  {
  }

  lemma LogHeard(cell: Cell, p: Parcel, owed: seq<Parcel>, id: UInt32, capacity: UInt32)
    requires IsLog(p) && Hears(cell, owed)
    ensures Hears(Acted(cell, Update(p), id, capacity), OwedNext(owed, cell, Update(p))) <==>
              !cell.attached || Capable(cell.store, p, capacity)
  {
    hide Logs, Archive, Capable;
    var next := Acted(cell, Update(p), id, capacity);
    assert cell.out + [] == cell.out;
    assert |owed + [p]| == |owed| + 1;
    if next.out != cell.out {
      assert next.out[cell.mark..] == cell.out[cell.mark..] + [p];
      LogsSnoc(cell.out[cell.mark..], p);
    }
  }

  lemma OtherHeard(cell: Cell, a: Act, owed: seq<Parcel>, id: UInt32, capacity: UInt32)
    requires Hears(cell, owed) && (a.Update? ==> a.parcel.op == REGISTER)
    requires forall p :: p in cell.store.buffers ==> IsLog(p)
    ensures Hears(Acted(cell, a, id, capacity), OwedNext(owed, cell, a))
  {
    hide Logs, Archive, Capable;
    var next := Acted(cell, a, id, capacity);
    match a
    case Update(p) =>
      assert cell.out + [] == cell.out;
      if cell.attached {
        assert next.out[cell.mark..] == cell.out[cell.mark..] + [p];
        LogsSnoc(cell.out[cell.mark..], p);
      }
    case Attach(order) =>
      if Enumerates(order, cell.registers) {
        SnapshotLogs(cell.store.buffers, id, cell.registers, order);
        assert next.out[next.mark..] == cell.store.buffers + RegisterParcels(id, cell.registers, order);
      }
    case _ =>
  }

  /** A channel that has room for any one parcel sends each connection every log it is owed, whether or
      not its 32-bit accounting wraps. */
  lemma {:induction false} NothingMissed(acts: seq<Act>, id: UInt32, capacity: UInt32)
    requires Plausible(acts) && capacity >= MAX_WIRE
    ensures Hears(Replay(acts, id, capacity), Owed(acts, id, capacity))
    decreases |acts|
  {
    hide Acted, Owed, OwedNext, Replay, Hears, History, LogPositions, Folded, Logs, IsSuffix, IsLog, Congruent;
    if acts == [] {
      NothingOwed(id, capacity);
    } else {
      var n := |acts| - 1;
      var before, a := acts[..n], acts[n];
      assert acts == before + [a] && a in acts;
      NothingMissed(before, id, capacity);
      ReplaySnoc(before, a, id, capacity);
      OwedSnoc(before, a, id, capacity);
      if a.Update? && IsLog(a.parcel) {
        StoreOfHistory(before, id, capacity);
        AlwaysCongruent(History(before), capacity);
        CapableOfAny(Replay(before, id, capacity).store, a.parcel, capacity);
        LogHeard(Replay(before, id, capacity), a.parcel, Owed(before, id, capacity), id, capacity);
      } else {
        CellConverges(before, id, capacity);
        OtherHeard(Replay(before, id, capacity), a, Owed(before, id, capacity), id, capacity);
      }
    }
  }

  // ---------------------------------------------------------------- what is owed is the end of the history

  lemma OwedStaysSuffix(cell: Cell, a: Act, owed: seq<Parcel>, h: seq<Parcel>, id: UInt32, capacity: UInt32)
    requires cell.attached ==> IsSuffix(owed, h)
    requires IsSuffix(cell.store.buffers, h)
    ensures Acted(cell, a, id, capacity).attached ==>
              IsSuffix(OwedNext(owed, cell, a), if a.Update? && IsLog(a.parcel) then h + [a.parcel] else h)
  {
    hide IsSuffix, IsLog, Archive, Capable;
    if a.Update? && cell.attached && IsLog(a.parcel) {
      SuffixSnoc(owed, h, a.parcel);
    }
  }

  /** What an attached connection is owed is an unbroken end of all logs the channel ever took. */
  lemma {:induction false} OwedIsSuffix(acts: seq<Act>, id: UInt32, capacity: UInt32)
    requires Plausible(acts)
    ensures Replay(acts, id, capacity).attached ==> IsSuffix(Owed(acts, id, capacity), History(acts))
    decreases |acts|
  {
    hide Acted, OwedNext, Replay, History, LogPositions, IsSuffix, IsLog;
    if acts == [] {
      NothingAttached(id, capacity);
    } else {
      var n := |acts| - 1;
      var before, a := acts[..n], acts[n];
      assert acts == before + [a];
      OwedIsSuffix(before, id, capacity);
      StoredAreLast(before, id, capacity);
      ReplaySnoc(before, a, id, capacity);
      HistorySnoc(before, a);
      OwedStaysSuffix(Replay(before, id, capacity), a, Owed(before, id, capacity), History(before), id, capacity);
    }
  }

  lemma NothingAttached(id: UInt32, capacity: UInt32)
    ensures !Replay([], id, capacity).attached
  {
  }

  // ---------------------------------------------------------------- runs of the server

  /** For a channel that is there after the run, the logs that connection `c` was sent since it last
      attached are exactly those it is owed. */
  ghost predicate HearsAll<C>(bufsize: UInt32, maxchannels: UInt32, evs: seq<Event<C>>, id: UInt32, c: C) {
    var s := Run(Initial<C>(bufsize, maxchannels), evs);
    var acts := Trace(Initial<C>(bufsize, maxchannels), evs, id, c);
    var mark := Replay(acts, id, bufsize).mark;
    id < |s.channels| && c in s.conns ==>
      && mark <= |DataFor(s.conns[c].out, id)|
      && Logs(DataFor(s.conns[c].out, id)[mark..]) == Owed(acts, id, bufsize)
  }

  /** The server run and the cell's replay of it hear the same. */
  lemma HearsAsCell<C>(bufsize: UInt32, maxchannels: UInt32, evs: seq<Event<C>>, id: UInt32, c: C)
    ensures var s := Run(Initial<C>(bufsize, maxchannels), evs);
            var acts := Trace(Initial<C>(bufsize, maxchannels), evs, id, c);
            && Plausible(acts)
            && (HearsAll(bufsize, maxchannels, evs, id, c) <==>
                  (id < |s.channels| && c in s.conns ==> Hears(Replay(acts, id, bufsize), Owed(acts, id, bufsize))))
            && (Replay(acts, id, bufsize).attached ==> id < |s.channels| && c in s.conns)
  {
    hide Logs, DataFor, Run, Trace, Replay, Owed, Directory, Stored, Plausible;
    ReachableInv(bufsize, maxchannels, evs);
    Demultiplexed(bufsize, maxchannels, evs, id, c);
    TracePlausible(Initial<C>(bufsize, maxchannels), evs, id, c);
  }

  /** With room for any one parcel every connection is sent all it is owed, in every run. */
  lemma {:induction false} SubscribersMissNothing<C>(bufsize: UInt32, maxchannels: UInt32, evs: seq<Event<C>>,
                                                     id: UInt32, c: C)
    requires bufsize >= MAX_WIRE
    ensures HearsAll(bufsize, maxchannels, evs, id, c)
  {
    hide HearsAll, Hears, Plausible, Trace, Replay, Owed, Run;
    HearsAsCell(bufsize, maxchannels, evs, id, c);
    NothingMissed(Trace(Initial<C>(bufsize, maxchannels), evs, id, c), id, bufsize);
  }

  lemma {:induction false} OwedBusy(acts: seq<Act>, id: UInt32, capacity: UInt32)
    ensures Owed(Busy(acts), id, capacity) == Owed(acts, id, capacity)
    decreases |acts|
  {
    hide Acted, Replay;
    if acts != [] {
      var n := |acts| - 1;
      OwedBusy(acts[..n], id, capacity);
      ReplayBusy(acts[..n], id, capacity);
      if acts[n] == Idle {
        assert Busy(acts[..n]) + [] == Busy(acts[..n]);
      } else {
        OwedSnoc(Busy(acts[..n]), acts[n], id, capacity);
      }
    }
  }

  /** One more event of a run, and what it is to connection 1 and channel 0. */
  lemma OneMore(s: Server<nat>, evs: seq<Event<nat>>, ev: Event<nat>)
    ensures Run(s, evs + [ev]) == Step(Run(s, evs), ev)
    ensures var a := ActOf(Run(s, evs), ev, 0, 1);
            Busy(Trace(s, evs + [ev], 0, 1)) == Busy(Trace(s, evs, 0, 1)) + if a == Idle then [] else [a]
  {
    hide Step, ActOf;
    assert (evs + [ev])[..|evs + [ev]|-1] == evs;
    var acts, a := Trace(s, evs, 0, 1), ActOf(Run(s, evs), ev, 0, 1);
    assert (acts + [a])[..|acts + [a]|-1] == acts;
  }

  /** Connection 0 publishes a channel, and connection 1 subscribes to it. */
  function Setting(): seq<Event<nat>> {
    [Accept(0)] + [Receive(0, Parcel(PUBLISH, 0, 0, 0, [], []), [])] + [Accept(1)]
      + [Receive(1, Parcel(SUBSCRIBE, 0, 0, 0, [], []), [])]
  }

  /** Channel 0 is there, and connection 0 publishes. */
  ghost predicate ChannelOpen(s: Server<nat>) {
    |s.channels| == 1 && 0 in s.conns && s.conns[0].alive && s.conns[0].mode == Publisher
  }

  lemma FirstAccept(bufsize: UInt32, maxchannels: UInt32)
    requires maxchannels > 0
    ensures var s0 := Initial<nat>(bufsize, maxchannels);
            var s1 := Step(s0, Accept(0));
            && s1.conns == map[0 := Conn(true, Unknown, [], [])] && s1.channels == [] && s1.maxchannels == maxchannels
            && ActOf(s0, Accept(0), 0, 1) == Idle
  {
  }

  lemma FirstPublish(s: Server<nat>)
    requires s.conns == map[0 := Conn(true, Unknown, [], [])] && s.channels == [] && s.maxchannels > 0
    ensures var ev := Receive(0, Parcel(PUBLISH, 0, 0, 0, [], []), []);
            var t := Step(s, ev);
            && ActOf(s, ev, 0, 1) == Idle
            && ChannelOpen(t) && 1 !in t.conns && t.channels[0].registers == map[] && t.channels[0].subscribers == {}
  {
    assert CStr([]) == [];
    assert Find(s.channels, []) == 0;
  }

  lemma SecondAccept(s: Server<nat>)
    requires ChannelOpen(s) && 1 !in s.conns && s.channels[0].registers == map[]
    ensures var t := Step(s, Accept(1));
            && ActOf(s, Accept(1), 0, 1) == Idle
            && ChannelOpen(t) && t.channels[0].registers == map[]
            && 1 in t.conns && t.conns[1] == Conn(true, Unknown, [], [])
  {
  }

  lemma FirstSubscribe(s: Server<nat>)
    requires ChannelOpen(s) && s.channels[0].registers == map[]
    requires 1 in s.conns && s.conns[1] == Conn(true, Unknown, [], [])
    ensures var ev := Receive(1, Parcel(SUBSCRIBE, 0, 0, 0, [], []), []);
            ActOf(s, ev, 0, 1) == Attach([]) && ChannelOpen(Step(s, ev))
  {
    hide Snapshot;
    assert Enumerates([], s.channels[0].registers);
  }

  lemma LogTaken(s: Server<nat>, p: Parcel)
    requires ChannelOpen(s) && IsLog(p) && p.id == 0
    ensures var ev := Receive(0, p, []);
            ActOf(s, ev, 0, 1) == Update(p) && ChannelOpen(Step(s, ev))
  {
    hide Archive, Capable;
  }

  lemma SettingActs(bufsize: UInt32, maxchannels: UInt32)
    requires maxchannels > 0
    ensures var s0 := Initial<nat>(bufsize, maxchannels);
            ChannelOpen(Run(s0, Setting())) && Busy(Trace(s0, Setting(), 0, 1)) == [Attach([])]
  {
    hide Run, Trace, Busy, Step, ActOf, ChannelOpen;
    var s0 := Initial<nat>(bufsize, maxchannels);
    var publish := Receive(0, Parcel(PUBLISH, 0, 0, 0, [], []), []);
    var subscribe := Receive(1, Parcel(SUBSCRIBE, 0, 0, 0, [], []), []);
    var e1: seq<Event<nat>> := [Accept(0)];
    var e2 := e1 + [publish];
    var e3 := e2 + [Accept(1)];
    NoActs(s0);
    assert [] + e1 == e1;
    OneMore(s0, [], Accept(0));
    FirstAccept(bufsize, maxchannels);
    OneMore(s0, e1, publish);
    FirstPublish(Run(s0, e1));
    OneMore(s0, e2, Accept(1));
    SecondAccept(Run(s0, e2));
    OneMore(s0, e3, subscribe);
    FirstSubscribe(Run(s0, e3));
    assert [] + [Attach([])] == [Attach([])];
  }

  lemma NoActs(s: Server<nat>)
    ensures Run(s, []) == s && Busy(Trace(s, [], 0, 1)) == []
  {
  }

  function OversizeRun(large: Parcel): seq<Event<nat>> { Setting() + [Receive(0, large, [])] }

  lemma OversizeRunActs(bufsize: UInt32, maxchannels: UInt32, large: Parcel)
    requires maxchannels > 0 && IsLog(large) && large.id == 0
    ensures Busy(Trace(Initial<nat>(bufsize, maxchannels), OversizeRun(large), 0, 1)) == [Attach([])] + [Update(large)]
  {
    hide Run, Trace, Busy, Step, ActOf, ChannelOpen, IsLog, Setting;
    var s0 := Initial<nat>(bufsize, maxchannels);
    SettingActs(bufsize, maxchannels);
    OneMore(s0, Setting(), Receive(0, large, []));
    LogTaken(Run(s0, Setting()), large);
  }

  /** An attached connection is owed a log that does not fit, and is not sent it. */
  lemma OversizeUnheard(large: Parcel, id: UInt32, capacity: UInt32)
    requires IsLog(large) && WireSize(large) > capacity
    ensures var acts := [Attach([])] + [Update(large)];
            Replay(acts, id, capacity).attached && !Hears(Replay(acts, id, capacity), Owed(acts, id, capacity))
  {
    hide Replay, Owed, Logs, Archive, Capable, WireSize, IsLog;
    var attach := [Attach([])];
    NothingOwed(id, capacity);
    NothingReplayed(id, capacity);
    ReplaySnoc([], Attach([]), id, capacity);
    OwedSnoc([], Attach([]), id, capacity);
    assert [] + attach == attach;
    assert Enumerates([], map[]) && RegisterParcels(id, map[], []) == [];
    LogsAll([]);
    assert Replay(attach, id, capacity).out[0..] == [];
    RejectedByEmpty(large, capacity);
    ReplaySnoc(attach, Update(large), id, capacity);
    OwedSnoc(attach, Update(large), id, capacity);
    LogHeard(Replay(attach, id, capacity), large, Owed(attach, id, capacity), id, capacity);
  }

  lemma NothingReplayed(id: UInt32, capacity: UInt32)
    ensures Replay([], id, capacity) == EMPTY_CELL
  {
  }

  lemma LargestLog()
    ensures IsLog(Sized(MAX_WIRE)) && Sized(MAX_WIRE).id == 0
  {
  }

  /** A log too large for the buffer is one that an attached subscriber misses: a run of the server for
      every buffer size below that of the largest log. */
  lemma Oversize(bufsize: UInt32, maxchannels: UInt32) returns (evs: seq<Event<nat>>)
    requires bufsize < MAX_WIRE && maxchannels > 0
    ensures evs == OversizeRun(Sized(MAX_WIRE))
    ensures !HearsAll(bufsize, maxchannels, evs, 0, 1)
  {
    var large := Sized(MAX_WIRE);
    evs := OversizeRun(large);
    LargestLog();
    hide WireSize, Sized, Run, Trace, Busy, Replay, Owed, Hears, OversizeRun, IsLog, HearsAll;
    var acts := Trace(Initial<nat>(bufsize, maxchannels), evs, 0, 1);
    OversizeRunActs(bufsize, maxchannels, large);
    ReplayBusy(acts, 0, bufsize);
    OwedBusy(acts, 0, bufsize);
    OversizeUnheard(large, 0, bufsize);
    HearsAsCell(bufsize, maxchannels, evs, 0, 1);
  }

  /** In all runs of the server every connection is sent every log it is owed exactly when a channel has
      room for the largest log there is, or there are no channels. */
  lemma {:induction false} NothingMissedExactlyWhen(bufsize: UInt32, maxchannels: UInt32)
    ensures (forall evs: seq<Event<nat>>, id: UInt32, c: nat :: HearsAll(bufsize, maxchannels, evs, id, c))
              <==> maxchannels == 0 || bufsize >= MAX_WIRE
  {
    hide HearsAll;
    if maxchannels > 0 && bufsize < MAX_WIRE {
      var evs := Oversize(bufsize, maxchannels);
    } else {
      forall evs: seq<Event<nat>>, id: UInt32, c: nat
        ensures HearsAll(bufsize, maxchannels, evs, id, c)
      {
        if maxchannels == 0 {
          NoChannels(bufsize, evs, id, c);
        } else {
          SubscribersMissNothing(bufsize, maxchannels, evs, id, c);
        }
      }
    }
  }

  lemma NoChannels(bufsize: UInt32, evs: seq<Event<nat>>, id: UInt32, c: nat)
    ensures HearsAll(bufsize, 0, evs, id, c)
  {
    hide Run, Trace, Replay, Logs, Owed;
    ReachableInv(bufsize, 0, evs);
  }
}
