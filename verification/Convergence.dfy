/** What a subscriber of one channel ends up with. */
module Convergence {
  import opened Wire
  import opened Eviction
  import opened ServerModel
  import opened ServerProofs
  import opened Demux

  /** The register map a receiver builds from what it was sent. */
  function Folded(out: seq<Parcel>): map<Bytes, Bytes>
    decreases |out|
  {
    if out == [] then map[]
    else
      var p, m := out[|out|-1], Folded(out[..|out|-1]);
      if p.op == REGISTER then m[p.str1 := p.str2] else m
  }

  function Logs(out: seq<Parcel>): seq<Parcel>
    decreases |out|
  {
    if out == [] then [] else Logs(out[..|out|-1]) + if IsLog(out[|out|-1]) then [out[|out|-1]] else []
  }

  lemma FoldedSnoc(out: seq<Parcel>, p: Parcel)
    ensures Folded(out + [p]) == if p.op == REGISTER then Folded(out)[p.str1 := p.str2] else Folded(out)
  {
    assert (out + [p])[..|out + [p]|-1] == out;
  }

  lemma LogsSnoc(out: seq<Parcel>, p: Parcel)
    ensures Logs(out + [p]) == if IsLog(p) then Logs(out) + [p] else Logs(out)
  {
    assert (out + [p])[..|out + [p]|-1] == out;
  }

  lemma {:induction false} LogsAppend(a: seq<Parcel>, b: seq<Parcel>)
    ensures Logs(a + b) == Logs(a) + Logs(b)
    decreases |b|
  {
    hide IsLog;
    if b == [] {
      assert a + b == a;
      assert Logs(a) + [] == Logs(a);
    } else {
      var n := |b| - 1;
      LogsAppend(a, b[..n]);
      assert (a + b)[..|a + b|-1] == a + b[..n];
      var last := if IsLog(b[n]) then [b[n]] else [];
      assert Logs(a) + Logs(b[..n]) + last == Logs(a) + (Logs(b[..n]) + last);
    }
  }

  lemma {:induction false} LogsAll(ps: seq<Parcel>)
    requires forall p :: p in ps ==> IsLog(p)
    ensures Logs(ps) == ps
    decreases |ps|
  {
    hide IsLog, Logs;
    if ps == [] {
      LogsNone();
    } else {
      var n := |ps| - 1;
      LogsAll(ps[..n]);
      assert ps == ps[..n] + [ps[n]];
      LogsSnoc(ps[..n], ps[n]);
    }
  }

  lemma LogsNone()
    ensures Logs([]) == []
  {
  }

  lemma {:induction false} NoLogs(ps: seq<Parcel>)
    requires forall p :: p in ps ==> !IsLog(p)
    ensures Logs(ps) == []
    decreases |ps|
  {
    hide IsLog, Logs;
    if ps == [] {
      LogsNone();
    } else {
      var n := |ps| - 1;
      NoLogs(ps[..n]);
      assert ps == ps[..n] + [ps[n]];
      LogsSnoc(ps[..n], ps[n]);
    }
  }

  /** Logs leave the fold alone. */
  lemma {:induction false} FoldedLogs(out: seq<Parcel>, ps: seq<Parcel>)
    requires forall p :: p in ps ==> IsLog(p)
    ensures Folded(out + ps) == Folded(out)
    decreases |ps|
  {
    if ps == [] {
      assert out + ps == out;
    } else {
      var n := |ps| - 1;
      FoldedLogs(out, ps[..n]);
      assert IsLog(ps[n]);
      FoldedSnoc(out + ps[..n], ps[n]);
      assert out + ps[..n] + [ps[n]] == out + ps;
    }
  }

  /** `m` is `base` with the registers of `order` set. */
  ghost predicate Overlaid(m: map<Bytes, Bytes>, base: map<Bytes, Bytes>, registers: map<Bytes, Bytes>,
                           order: seq<Bytes>)
    requires forall k :: k in order ==> k in registers
  {
    && (forall k :: k in m <==> k in order || k in base)
    && (forall k :: k in m ==> m[k] == if k in order then registers[k] else base[k])
  }

  lemma OverlaidNext(m: map<Bytes, Bytes>, base: map<Bytes, Bytes>, registers: map<Bytes, Bytes>,
                     order: seq<Bytes>, k: Bytes)
    requires k in registers && forall l :: l in order ==> l in registers
    requires Overlaid(m, base, registers, order)
    ensures Overlaid(m[k := registers[k]], base, registers, order + [k])
  {
  }

  lemma {:induction false} FoldedRegisters(out: seq<Parcel>, id: UInt32, registers: map<Bytes, Bytes>,
                                           order: seq<Bytes>)
    requires forall k :: k in order ==> k in registers
    ensures Overlaid(Folded(out + RegisterParcels(id, registers, order)), Folded(out), registers, order)
    decreases |order|
  {
    hide Folded;
    if order == [] {
      assert out + RegisterParcels(id, registers, order) == out;
    } else {
      var n := |order| - 1;
      var k, init := order[n], order[..n];
      assert order == init + [k];
      FoldedRegisters(out, id, registers, init);
      var ps, p := RegisterParcels(id, registers, init), RegisterParcel(id, k, registers[k]);
      assert RegisterParcels(id, registers, order) == ps + [p];
      FoldedSnoc(out + ps, p);
      assert out + (ps + [p]) == out + ps + [p];
      OverlaidNext(Folded(out + ps), Folded(out), registers, init, k);
    }
  }

  // ---------------------------------------------------------------- convergence of one cell

  ghost predicate Converged(cell: Cell) {
    && (forall p :: p in cell.store.buffers ==> IsLog(p))
    && Folded(cell.out).Keys <= cell.registers.Keys
    && (cell.attached ==>
          && Folded(cell.out) == cell.registers
          && cell.mark <= |cell.out|
          && IsSuffix(cell.store.buffers, Logs(cell.out[cell.mark..])))
  }

  lemma LogConverges(cell: Cell, p: Parcel, id: UInt32, capacity: UInt32)
    requires Converged(cell) && IsLog(p)
    ensures Converged(Acted(cell, Update(p), id, capacity))
  {
    hide Archive, Capable, Folded, Logs;
    var next := Acted(cell, Update(p), id, capacity);
    FoldedSnoc(cell.out, p);
    assert cell.out + [] == cell.out;
    ArchiveIsSuffix(cell.store, p, capacity);
    RejectedEmpties(cell.store, p, capacity);
    var b := cell.store.buffers + [p];
    assert forall q :: q in b ==> IsLog(q);
    if cell.attached && Capable(cell.store, p, capacity) {
      var heard := Logs(cell.out[cell.mark..]);
      assert next.out[cell.mark..] == cell.out[cell.mark..] + [p];
      LogsSnoc(cell.out[cell.mark..], p);
      SuffixSnoc(cell.store.buffers, heard, p);
      SuffixTrans(next.store.buffers, b, heard + [p]);
    }
  }

  lemma RegisterConverges(cell: Cell, p: Parcel, id: UInt32, capacity: UInt32)
    requires Converged(cell) && p.op == REGISTER
    ensures Converged(Acted(cell, Update(p), id, capacity))
  {
    hide Folded, Logs;
    var next := Acted(cell, Update(p), id, capacity);
    FoldedSnoc(cell.out, p);
    assert cell.out + [] == cell.out;
    if cell.attached {
      assert next.out[cell.mark..] == cell.out[cell.mark..] + [p];
      LogsSnoc(cell.out[cell.mark..], p);
    }
  }

  /** The snapshot brings any receiver up to date. */
  lemma SnapshotFolds(out: seq<Parcel>, buffers: seq<Parcel>, id: UInt32, registers: map<Bytes, Bytes>,
                      order: seq<Bytes>)
    requires forall p :: p in buffers ==> IsLog(p)
    requires Folded(out).Keys <= registers.Keys && Enumerates(order, registers)
    ensures Folded(out + (buffers + RegisterParcels(id, registers, order))) == registers
  {
    hide Folded, IsLog;
    FoldedLogs(out, buffers);
    FoldedRegisters(out + buffers, id, registers, order);
    var rs := RegisterParcels(id, registers, order);
    assert out + buffers + rs == out + (buffers + rs);
    var m := Folded(out + (buffers + rs));
    assert m.Keys == registers.Keys;
  }

  lemma SnapshotLogs(buffers: seq<Parcel>, id: UInt32, registers: map<Bytes, Bytes>, order: seq<Bytes>)
    requires forall p :: p in buffers ==> IsLog(p)
    requires forall k :: k in order ==> k in registers
    ensures Logs(buffers + RegisterParcels(id, registers, order)) == buffers
  {
    var rs := RegisterParcels(id, registers, order);
    LogsAll(buffers);
    NoLogs(rs);
    LogsAppend(buffers, rs);
  }

  lemma AttachConverges(cell: Cell, order: seq<Bytes>, id: UInt32, capacity: UInt32)
    requires Converged(cell)
    ensures Converged(Acted(cell, Attach(order), id, capacity))
  {
    hide Folded, Logs, IsLog;
    if Enumerates(order, cell.registers) {
      var next := Acted(cell, Attach(order), id, capacity);
      var sent := cell.store.buffers + RegisterParcels(id, cell.registers, order);
      SnapshotFolds(cell.out, cell.store.buffers, id, cell.registers, order);
      SnapshotLogs(cell.store.buffers, id, cell.registers, order);
      assert next.out[next.mark..] == sent;
    }
  }

  ghost predicate Plausible(acts: seq<Act>) {
    forall a :: a in acts && a.Update? ==> IsData(a.parcel)
  }

  /** However often the connection subscribes, unsubscribes and subscribes again, and whatever logs
      are too large to keep: while it is attached, the registers it was sent fold to the channel's
      registers, and the logs the channel stores are the last ones it was sent. */
  lemma {:induction false} CellConverges(acts: seq<Act>, id: UInt32, capacity: UInt32)
    requires Plausible(acts)
    ensures Converged(Replay(acts, id, capacity))
    decreases |acts|
  {
    hide Converged, Acted;
    if acts != [] {
      var n := |acts| - 1;
      CellConverges(acts[..n], id, capacity);
      var cell := Replay(acts[..n], id, capacity);
      match acts[n]
      case Update(p) =>
        assert acts[n] in acts;
        if IsLog(p) {
          LogConverges(cell, p, id, capacity);
        } else {
          RegisterConverges(cell, p, id, capacity);
        }
      case Attach(order) => AttachConverges(cell, order, id, capacity);
      case _ => DetachConverges(cell, acts[n], id, capacity);
    } else {
      EmptyConverges();
    }
  }

  lemma DetachConverges(cell: Cell, a: Act, id: UInt32, capacity: UInt32)
    requires Converged(cell) && (a.Detach? || a.Idle?)
    ensures Converged(Acted(cell, a, id, capacity))
  {
  }

  lemma EmptyConverges()
    ensures Converged(EMPTY_CELL)
  {
  }

  lemma {:induction false} TracePlausible<C>(s: Server<C>, evs: seq<Event<C>>, id: UInt32, c: C)
    ensures Plausible(Trace(s, evs, id, c))
    decreases |evs|
  {
    if evs != [] {
      TracePlausible(s, evs[..|evs|-1], id, c);
    }
  }

  lemma WholeOutput(cell: Cell)
    requires Converged(cell) && cell.attached
    ensures IsSuffix(cell.store.buffers, Logs(cell.out))
  {
    hide Folded, Logs, IsLog;
    LogsAppend(cell.out[..cell.mark], cell.out[cell.mark..]);
    assert cell.out == cell.out[..cell.mark] + cell.out[cell.mark..];
    SuffixOfAppend(cell.store.buffers, Logs(cell.out[..cell.mark]), Logs(cell.out[cell.mark..]));
  }

  /** Subscriber convergence, in every reachable state of the server: whatever the connection did
      before, while it is attached all the registers ever sent to it for the channel fold to the
      channel's registers, and the stored logs are the last logs it was sent. */
  lemma {:induction false} SubscribersConverge<C>(bufsize: UInt32, maxchannels: UInt32, evs: seq<Event<C>>,
                                                  id: UInt32, c: C)
    ensures var s := Run(Initial<C>(bufsize, maxchannels), evs);
            id < |s.channels| && c in s.channels[id].subscribers ==>
              && c in s.conns
              && Folded(DataFor(s.conns[c].out, id)) == s.channels[id].registers
              && IsSuffix(s.channels[id].store.buffers, Logs(DataFor(s.conns[c].out, id)))
  {
    hide Folded, Logs, IsSuffix, DataFor, Run, Trace, Replay, Directory, Stored, IsLog;
    var s0 := Initial<C>(bufsize, maxchannels);
    var acts := Trace(s0, evs, id, c);
    var s := Run(s0, evs);
    ReachableInv(bufsize, maxchannels, evs);
    Demultiplexed(bufsize, maxchannels, evs, id, c);
    TracePlausible(s0, evs, id, c);
    CellConverges(acts, id, bufsize);
    if id < |s.channels| && c in s.channels[id].subscribers {
      WholeOutput(Replay(acts, id, bufsize));
    }
  }

  lemma SuffixOfAppend<T>(b: seq<T>, a: seq<T>, h: seq<T>)
    requires IsSuffix(b, h)
    ensures IsSuffix(b, a + h)
  {
  }

  // ---------------------------------------------------------------- which logs an attached connection has heard

  /** Where in a trace the channel took a log. */
  function LogPositions(acts: seq<Act>): (js: seq<nat>)
    ensures Picks(js, acts)
    decreases |acts|
  {
    if acts == [] then []
    else
      var n := |acts| - 1;
      var js := LogPositions(acts[..n]);
      if acts[n].Update? && IsLog(acts[n].parcel) then js + [n] else js
  }

  /** Strictly increasing positions of logs. */
  ghost predicate Picks(js: seq<nat>, acts: seq<Act>) {
    && (forall k :: 0 <= k < |js| ==> js[k] < |acts| && acts[js[k]].Update? && IsLog(acts[js[k]].parcel))
    && (forall k, l :: 0 <= k < l < |js| ==> js[k] < js[l])
  }

  function ParcelsAt(js: seq<nat>, acts: seq<Act>): (ps: seq<Parcel>)
    requires forall k :: 0 <= k < |js| ==> js[k] < |acts| && acts[js[k]].Update?
    ensures |ps| == |js|
    ensures forall k :: 0 <= k < |js| ==> ps[k] == acts[js[k]].parcel
  {
    seq(|js|, k requires 0 <= k < |js| => acts[js[k]].parcel)
  }

  /** The log history of the channel. */
  function History(acts: seq<Act>): seq<Parcel> { ParcelsAt(LogPositions(acts), acts) }

  /** The positions of the logs sent since the last attach, after one more act. */
  ghost function HeardNext(js: seq<nat>, cell: Cell, logs: seq<nat>, a: Act, n: nat, capacity: UInt32): seq<nat> {
    match a
    case Update(p) => if cell.attached && IsLog(p) && Capable(cell.store, p, capacity) then js + [n] else js
    case Attach(order) =>
      if Enumerates(order, cell.registers) && |cell.store.buffers| <= |logs|
      then logs[|logs| - |cell.store.buffers|..] else js
    case _ => js
  }

  ghost function Heard(acts: seq<Act>, id: UInt32, capacity: UInt32): seq<nat>
    decreases |acts|
  {
    if acts == [] then []
    else
      var n := |acts| - 1;
      HeardNext(Heard(acts[..n], id, capacity), Replay(acts[..n], id, capacity), LogPositions(acts[..n]),
                acts[n], n, capacity)
  }

  lemma PicksMore(js: seq<nat>, acts: seq<Act>, a: Act)
    requires Picks(js, acts)
    ensures Picks(js, acts + [a]) && ParcelsAt(js, acts + [a]) == ParcelsAt(js, acts)
    ensures a.Update? && IsLog(a.parcel) ==>
              && Picks(js + [|acts|], acts + [a])
              && ParcelsAt(js + [|acts|], acts + [a]) == ParcelsAt(js, acts) + [a.parcel]
  {
    hide IsLog;
  }

  lemma PositionsSnoc(acts: seq<Act>, a: Act)
    ensures LogPositions(acts + [a]) ==
              if a.Update? && IsLog(a.parcel) then LogPositions(acts) + [|acts|] else LogPositions(acts)
  {
    hide IsLog, Picks;
    assert (acts + [a])[..|acts + [a]|-1] == acts;
  }

  lemma HistorySnoc(acts: seq<Act>, a: Act)
    ensures History(acts + [a]) == if a.Update? && IsLog(a.parcel) then History(acts) + [a.parcel] else History(acts)
    ensures LogPositions(acts + [a]) ==
              if a.Update? && IsLog(a.parcel) then LogPositions(acts) + [|acts|] else LogPositions(acts)
  {
    hide IsLog, LogPositions, Picks, ParcelsAt;
    PositionsSnoc(acts, a);
    PicksMore(LogPositions(acts), acts, a);
  }

  lemma StoreNext(cell: Cell, a: Act, h: seq<Parcel>, id: UInt32, capacity: UInt32)
    requires cell.store == ArchiveAll(EMPTY, h, capacity) && (a.Update? ==> IsData(a.parcel))
    ensures Acted(cell, a, id, capacity).store ==
              ArchiveAll(EMPTY, if a.Update? && IsLog(a.parcel) then h + [a.parcel] else h, capacity)
  {
    hide Archive, ArchiveAll, Capable, Enumerates, RegisterParcels;
    if a.Update? && IsLog(a.parcel) {
      ArchiveAllSnoc(EMPTY, h, a.parcel, capacity);
    }
  }

  /** The channel's store is what archiving its log history leaves. */
  lemma {:induction false} StoreOfHistory(acts: seq<Act>, id: UInt32, capacity: UInt32)
    requires Plausible(acts)
    ensures Replay(acts, id, capacity).store == ArchiveAll(EMPTY, History(acts), capacity)
    decreases |acts|
  {
    hide Acted, ArchiveAll, Replay, History, LogPositions, IsData, IsLog;
    if acts == [] {
      NoHistory();
      NothingStored(id, capacity);
    } else {
      var n := |acts| - 1;
      var before, a := acts[..n], acts[n];
      assert a in acts && acts == before + [a];
      StoreOfHistory(before, id, capacity);
      ReplaySnoc(before, a, id, capacity);
      HistorySnoc(before, a);
      StoreNext(Replay(before, id, capacity), a, History(before), id, capacity);
    }
  }

  lemma NothingStored(id: UInt32, capacity: UInt32)
    ensures Replay([], id, capacity).store == ArchiveAll(EMPTY, [], capacity)
  {
  }

  lemma NoHistory()
    ensures History([]) == []
  {
  }

  lemma {:induction false} StoredAreLast(acts: seq<Act>, id: UInt32, capacity: UInt32)
    requires Plausible(acts)
    ensures IsSuffix(Replay(acts, id, capacity).store.buffers, History(acts))
  {
    hide IsSuffix, History, Replay;
    StoreOfHistory(acts, id, capacity);
    BufferIsSuffix(History(acts), capacity);
  }

  /** In every reachable state each channel stores the longest end of its whole log history that
      fits its capacity, and counts it exactly, provided the capacity cannot make the sums wrap. */
  lemma {:induction false} ChannelsKeepLongestFit<C>(bufsize: UInt32, maxchannels: UInt32, evs: seq<Event<C>>,
                                                     id: UInt32, c: C)
    requires NeverWraps(bufsize)
    ensures var s := Run(Initial<C>(bufsize, maxchannels), evs);
            var h := History(Trace(Initial<C>(bufsize, maxchannels), evs, id, c));
            id < |s.channels| ==>
              && Accounted(s.channels[id].store, bufsize)
              && IsLongestFit(s.channels[id].store.buffers, h, bufsize)
              && |s.channels[id].store.buffers| <= bufsize / MIN_WIRE
  {
    hide History, Trace, Replay, Run, IsLongestFit, Accounted, DataFor;
    var acts := Trace(Initial<C>(bufsize, maxchannels), evs, id, c);
    Demultiplexed(bufsize, maxchannels, evs, id, c);
    TracePlausible(Initial<C>(bufsize, maxchannels), evs, id, c);
    StoreOfHistory(acts, id, bufsize);
    BufferRefines(History(acts), bufsize);
  }

  // ---------------------------------------------------------------- what an attached connection has heard

  ghost predicate HeardRight(acts: seq<Act>, cell: Cell, js: seq<nat>) {
    && Picks(js, acts)
    && cell.mark <= |cell.out| && Logs(cell.out[cell.mark..]) == ParcelsAt(js, acts)
  }

  lemma NothingHeard()
    ensures HeardRight([], EMPTY_CELL, [])
  {
  }

  lemma AttachHears(acts: seq<Act>, cell: Cell, order: seq<Bytes>, id: UInt32, capacity: UInt32)
    requires IsSuffix(cell.store.buffers, History(acts)) && (forall p :: p in cell.store.buffers ==> IsLog(p))
    requires Enumerates(order, cell.registers)
    ensures var js := LogPositions(acts);
            && |cell.store.buffers| <= |js|
            && HeardRight(acts, Acted(cell, Attach(order), id, capacity), js[|js| - |cell.store.buffers|..])
  {
    hide Logs, IsLog, LogPositions;
    var js, b := LogPositions(acts), cell.store.buffers;
    var last := js[|js| - |b|..];
    assert ParcelsAt(last, acts) == History(acts)[|js| - |b|..];
    var next := Acted(cell, Attach(order), id, capacity);
    SnapshotLogs(b, id, cell.registers, order);
    assert next.out[next.mark..] == b + RegisterParcels(id, cell.registers, order);
  }

  lemma UpdateHears(acts: seq<Act>, cell: Cell, p: Parcel, js: seq<nat>, id: UInt32, capacity: UInt32)
    requires HeardRight(acts, cell, js)
    ensures var told := cell.attached && IsLog(p) && Capable(cell.store, p, capacity);
            HeardRight(acts + [Update(p)], Acted(cell, Update(p), id, capacity), if told then js + [|acts|] else js)
  {
    hide Logs, Archive, Capable, Picks, ParcelsAt;
    var next := Acted(cell, Update(p), id, capacity);
    PicksMore(js, acts, Update(p));
    assert cell.out + [] == cell.out;
    if next.out != cell.out {
      assert next.out[cell.mark..] == cell.out[cell.mark..] + [p];
      LogsSnoc(cell.out[cell.mark..], p);
    }
  }

  lemma ActHears(acts: seq<Act>, a: Act, cell: Cell, js: seq<nat>, id: UInt32, capacity: UInt32)
    requires HeardRight(acts, cell, js)
    requires IsSuffix(cell.store.buffers, History(acts)) && (forall p :: p in cell.store.buffers ==> IsLog(p))
    ensures HeardRight(acts + [a], Acted(cell, a, id, capacity),
              HeardNext(js, cell, LogPositions(acts), a, |acts|, capacity))
  {
    hide Logs, Archive, Capable, IsLog, Picks, ParcelsAt, LogPositions, RegisterParcels;
    PicksMore(js, acts, a);
    match a
    case Update(p) => UpdateHears(acts, cell, p, js, id, capacity);
    case Attach(order) =>
      if Enumerates(order, cell.registers) {
        AttachHears(acts, cell, order, id, capacity);
        PicksMore(LogPositions(acts)[|LogPositions(acts)| - |cell.store.buffers|..], acts, a);
      }
    case _ =>
  }

  /** What a connection has heard since it last attached, whether or not it is attached still, is an
      order-preserving, duplicate-free selection of the channel's log history. */
  lemma {:induction false} HeardExactly(acts: seq<Act>, id: UInt32, capacity: UInt32)
    requires Plausible(acts)
    ensures HeardRight(acts, Replay(acts, id, capacity), Heard(acts, id, capacity))
    decreases |acts|
  {
    hide HeardRight, HeardNext, Acted, History, LogPositions, Folded, Logs, IsSuffix, IsLog;
    if acts == [] {
      NothingHeard();
    } else {
      var n := |acts| - 1;
      HeardExactly(acts[..n], id, capacity);
      StoredAreLast(acts[..n], id, capacity);
      CellConverges(acts[..n], id, capacity);
      ActHears(acts[..n], acts[n], Replay(acts[..n], id, capacity), Heard(acts[..n], id, capacity), id, capacity);
      assert acts[..n] + [acts[n]] == acts;
    }
  }
}
