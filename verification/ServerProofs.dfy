/** What every reachable server state satisfies, whatever the connections send and whenever they go. */
module ServerProofs {
  import opened Wire
  import opened Eviction
  import opened ServerModel

  // ---------------------------------------------------------------- the invariant

  /** The channel directory: ids are positions, names are distinct C strings, there are at most
      `maxchannels` of them and all have the configured capacity. */
  ghost predicate Directory<C>(s: Server<C>) {
    && |s.channels| <= s.maxchannels
    && (forall i :: 0 <= i < |s.channels| ==>
          s.channels[i].id == i && s.channels[i].capacity == s.bufsize && 0 !in s.channels[i].name)
    && (forall i, j :: 0 <= i < j < |s.channels| ==> s.channels[i].name != s.channels[j].name)
  }

  /** No dangling subscribers: who is in a subscriber set is held by the server and works as a subscriber. */
  ghost predicate Subscribed<C>(s: Server<C>) {
    forall i, c :: 0 <= i < |s.channels| && c in s.channels[i].subscribers ==>
      c in s.conns && s.conns[c].alive && s.conns[c].mode == Subscriber
  }

  ghost predicate LogsOf(id: nat, ps: seq<Parcel>) {
    forall p :: p in ps ==> IsLog(p) && p.id == id
  }

  /** What a channel has stored are logs that bear its id. */
  ghost predicate Stored<C>(s: Server<C>) {
    forall i :: 0 <= i < |s.channels| ==> LogsOf(i, s.channels[i].store.buffers)
  }

  ghost predicate Inv<C>(s: Server<C>) { Directory(s) && Subscribed(s) && Stored(s) }

  lemma InitialInv<C>(bufsize: UInt32, maxchannels: UInt32)
    ensures Inv(Initial<C>(bufsize, maxchannels))
  {
  }

  lemma ArchiveLogs(s: Store, p: Parcel, capacity: UInt32, id: nat)
    requires LogsOf(id, s.buffers) && LogsOf(id, [p])
    ensures LogsOf(id, Archive(s, p, capacity).buffers)
  {
    ArchiveIsSuffix(s, p, capacity);
    hide Archive;
    hide IsLog;
    var b := s.buffers + [p];
    assert p in [p];
    assert forall q :: q in b ==> q in s.buffers || q == p;
  }

  lemma UpdatedStored<C>(ch: Channel<C>, p: Parcel)
    requires LogsOf(p.id, ch.store.buffers) && IsData(p)
    ensures LogsOf(p.id, Updated(ch, p).store.buffers)
  {
    if p.op != REGISTER {
      ArchiveLogs(ch.store, p, ch.capacity, p.id);
    }
  }

  lemma DataInv<C>(s: Server<C>, c: C, p: Parcel)
    requires Inv(s) && c in s.conns && IsData(p) && p.id < |s.channels|
    ensures Inv(OnPublisherParcel(s, c, p))
  {
    UpdatedStored(s.channels[p.id], p);
    hide Archive;
    hide Capable;
    hide LogsOf;
    var t := OnPublisherParcel(s, c, p);
    assert Directory(t);
    assert Subscribed(t);
    assert Stored(t);
  }

  lemma PublishedInv<C>(s: Server<C>, name: Bytes)
    requires Inv(s) && 0 !in name
    ensures Inv(Published(s, name))
  {
    assert LogsOf(|s.channels|, []);
    hide LogsOf;
    var t := Published(s, name);
    assert Directory(t);
    assert Subscribed(t);
    assert Stored(t);
  }

  /** Nothing but what a connection has been sent, and its name, differs. */
  lemma WrittenInv<C>(s: Server<C>, c: C, conn: Conn)
    requires Inv(s) && c in s.conns && conn.alive == s.conns[c].alive && conn.mode == s.conns[c].mode
    ensures Inv(s.(conns := s.conns[c := conn]))
  {
    hide LogsOf;
  }

  lemma PublishInv<C>(s: Server<C>, c: C, p: Parcel)
    requires Inv(s) && c in s.conns && p.op == PUBLISH
    ensures Inv(OnPublisherParcel(s, c, p))
  {
    hide Inv, CStr, Published, Granted;
    var name := CStr(p.str1);
    PublishedInv(s, name);
    PublishedConns(s, name);
    WrittenInv(Published(s, name), c, Wrote(s.conns[c].(chname := p.str1), [PublishReply(Granted(s, name))]));
  }

  lemma PublishedConns<C>(s: Server<C>, name: Bytes)
    ensures Published(s, name).conns == s.conns
  {
  }

  lemma PublisherInv<C>(s: Server<C>, c: C, p: Parcel)
    requires Inv(s) && c in s.conns
    ensures Inv(OnPublisherParcel(s, c, p))
  {
    if IsData(p) {
      if p.id < |s.channels| {
        DataInv(s, c, p);
      }
    } else if p.op == PUBLISH {
      PublishInv(s, c, p);
    }
  }

  lemma SubscriberInv<C>(s: Server<C>, c: C, p: Parcel, order: seq<Bytes>)
    requires Inv(s) && c in s.conns && s.conns[c].alive && s.conns[c].mode == Subscriber
    requires p.op == AVAILCH ==> p.id < |s.channels| || |s.channels| == 0
    requires p.op == SUBSCRIBE && p.id < |s.channels| ==> Enumerates(order, s.channels[p.id].registers)
    ensures Inv(OnSubscribeParcel(s, c, p, order))
  {
  }

  lemma StepInv<C>(s: Server<C>, ev: Event<C>)
    requires Inv(s)
    ensures Inv(Step(s, ev))
  {
    if Enabled(s, ev) && ev.Receive? {
      var c, p := ev.conn, ev.parcel;
      var mode := NextMode(s.conns[c].mode, p);
      var s1 := WithMode(s, c, mode);
      hide IsData;
      assert Inv(s1);
      if mode == Publisher {
        PublisherInv(s1, c, p);
      } else if mode == Subscriber {
        SubscriberInv(s1, c, p, ev.order);
      }
    }
  }

  lemma {:induction false} RunInv<C>(s: Server<C>, evs: seq<Event<C>>)
    requires Inv(s)
    ensures Inv(Run(s, evs))
    decreases |evs|
  {
    if evs != [] {
      RunInv(s, evs[..|evs|-1]);
      StepInv(Run(s, evs[..|evs|-1]), evs[|evs|-1]);
    }
  }

  /** Directory, subscriber sets and stored logs are as they should be in every state that any
      sequence of events leads to. */
  lemma ReachableInv<C>(bufsize: UInt32, maxchannels: UInt32, evs: seq<Event<C>>)
    ensures var s := Run(Initial(bufsize, maxchannels), evs);
            Directory(s) && Subscribed(s) && Stored(s) && s.bufsize == bufsize && s.maxchannels == maxchannels
  {
    InitialInv<C>(bufsize, maxchannels);
    RunInv(Initial(bufsize, maxchannels), evs);
    RunExtends(Initial(bufsize, maxchannels), evs);
  }

  // ---------------------------------------------------------------- what never changes

  /** The directory only grows at its end, and a connection keeps its identity: a mode once set
      stays, what was written stays written, and a dead connection stays as it is. */
  ghost predicate Extends<C>(s: Server<C>, t: Server<C>) {
    && s.bufsize == t.bufsize && s.maxchannels == t.maxchannels
    && |s.channels| <= |t.channels|
    && (forall i :: 0 <= i < |s.channels| ==>
          s.channels[i].id == t.channels[i].id && s.channels[i].name == t.channels[i].name)
    && (forall c :: c in s.conns ==> c in t.conns && Continues(s.conns[c], t.conns[c]))
  }

  ghost predicate Continues(a: Conn, b: Conn) {
    && (a.mode != Unknown ==> b.mode == a.mode)
    && a.out <= b.out
    && (!a.alive ==> b == a)
  }

  lemma PublisherExtends<C>(s: Server<C>, c: C, p: Parcel)
    requires Inv(s) && c in s.conns && s.conns[c].alive
    ensures Extends(s, OnPublisherParcel(s, c, p))
  {
    hide Archive;
    hide Capable;
    hide IsData;
    hide CStr;
  }

  lemma SubscriberExtends<C>(s: Server<C>, c: C, p: Parcel, order: seq<Bytes>)
    requires Inv(s) && c in s.conns && s.conns[c].alive
    requires p.op == AVAILCH ==> p.id < |s.channels| || |s.channels| == 0
    requires p.op == SUBSCRIBE && p.id < |s.channels| ==> Enumerates(order, s.channels[p.id].registers)
    ensures Extends(s, OnSubscribeParcel(s, c, p, order))
  {
    hide Snapshot;
    hide AvailReply;
  }

  lemma StepExtends<C>(s: Server<C>, ev: Event<C>)
    requires Inv(s)
    ensures Extends(s, Step(s, ev))
  {
    if Enabled(s, ev) && ev.Receive? {
      var c, p := ev.conn, ev.parcel;
      var mode := NextMode(s.conns[c].mode, p);
      var s1 := WithMode(s, c, mode);
      assert Inv(s1) && Extends(s, s1);
      if mode == Publisher {
        PublisherExtends(s1, c, p);
        ExtendsTrans(s, s1, OnPublisherParcel(s1, c, p));
      } else if mode == Subscriber {
        SubscriberExtends(s1, c, p, ev.order);
        ExtendsTrans(s, s1, OnSubscribeParcel(s1, c, p, ev.order));
      }
    }
  }

  lemma ExtendsTrans<C>(s: Server<C>, t: Server<C>, u: Server<C>)
    requires Extends(s, t) && Extends(t, u)
    ensures Extends(s, u)
  {
  }

  lemma {:induction false} RunExtends<C>(s: Server<C>, evs: seq<Event<C>>)
    requires Inv(s)
    ensures Extends(s, Run(s, evs))
    decreases |evs|
  {
    if evs != [] {
      var t := Run(s, evs[..|evs|-1]);
      RunExtends(s, evs[..|evs|-1]);
      RunInv(s, evs[..|evs|-1]);
      StepExtends(t, evs[|evs|-1]);
    }
  }

  // ---------------------------------------------------------------- the directory

  lemma FindUnique<C>(s: Server<C>, i: nat)
    requires Directory(s) && i < |s.channels|
    ensures Find(s.channels, s.channels[i].name) == i
  {
  }

  lemma KnownName<C>(s: Server<C>, id: UInt32, name: Bytes)
    requires Directory(s) && id < |s.channels| && s.channels[id].name == name
    ensures Granted(s, name) == Some(id)
  {
    FindUnique(s, id);
  }

  ghost predicate Absent<C>(s: Server<C>, name: Bytes) {
    forall i :: 0 <= i < |s.channels| ==> s.channels[i].name != name
  }

  /** Everything a PUBLISH does: an absent name is added at the end of a directory that is not full, as
      an empty channel; the connection, and nobody else, is written one parcel, which is REPLY_FULL if
      the name is absent and the directory full, and otherwise REPLY_OK with the id of that name. */
  lemma GrantStep<C>(s: Server<C>, c: C, p: Parcel, order: seq<Bytes>)
    requires Inv(s) && p.op == 254
    requires c in s.conns && s.conns[c].alive && s.conns[c].mode != Subscriber
    ensures var name := CStr(p.str1);
            var full := Absent(s, name) && |s.channels| == s.maxchannels;
            var s1 := Step(s, Receive(c, p, order));
            && s1.channels == (if Absent(s, name) && !full
                               then s.channels + [Channel(|s.channels|, name, s.bufsize, Store(0, []), map[], {})]
                               else s.channels)
            && s1.conns.Keys == s.conns.Keys && (forall x :: x in s.conns && x != c ==> s1.conns[x] == s.conns[x])
            && s1.conns[c].mode == Publisher && s1.conns[c].alive && s1.conns[c].chname == p.str1
            && |s1.conns[c].out| == |s.conns[c].out| + 1 && s1.conns[c].out[..|s.conns[c].out|] == s.conns[c].out
            && var reply := s1.conns[c].out[|s.conns[c].out|];
            && reply.op == (if full then 250 else 249)
            && reply.timestamp1 == 0 && reply.timestamp2 == 0 && reply.str1 == [] && reply.str2 == []
            && (if full then reply.id == 0 else reply.id < |s1.channels| && s1.channels[reply.id].name == name)
  {
    hide CStr;
  }

  /** A PUBLISH is answered REPLY_FULL exactly when the name is absent and the directory is full;
      otherwise it is answered REPLY_OK, and the id in that answer is what every later PUBLISH of that
      name gets, from anybody, in every run from there. */
  lemma GrantIsForever<C>(s: Server<C>, c: C, p: Parcel, order: seq<Bytes>, evs: seq<Event<C>>)
    requires Inv(s) && p.op == 254
    requires c in s.conns && s.conns[c].alive && s.conns[c].mode != Subscriber
    ensures var name := CStr(p.str1);
            var full := Absent(s, name) && |s.channels| == s.maxchannels;
            var s1 := Step(s, Receive(c, p, order));
            var t := Run(s1, evs);
            && |s1.conns[c].out| == |s.conns[c].out| + 1 && s1.conns[c].out[..|s.conns[c].out|] == s.conns[c].out
            && var reply := s1.conns[c].out[|s.conns[c].out|];
            && (reply.op == 250 <==> full)
            && (!full ==>
                  && reply.op == 249
                  && reply.id < |t.channels| && t.channels[reply.id].name == name && Granted(t, name) == Some(reply.id))
  {
    hide Step, Run, CStr, Granted, Directory, Subscribed, Stored, Absent;
    var name := CStr(p.str1);
    var s1 := Step(s, Receive(c, p, order));
    GrantStep(s, c, p, order);
    StepInv(s, Receive(c, p, order));
    RunInv(s1, evs);
    RunExtends(s1, evs);
    var reply := s1.conns[c].out[|s.conns[c].out|];
    if reply.op == 249 {
      KnownName(Run(s1, evs), reply.id, name);
    }
  }

  /** Everything an AVAILCH does: the connection, and nobody else, is written the parcel again with the
      number of channels and, if there are any, the name of the one asked for. */
  lemma AvailStep<C>(s: Server<C>, c: C, p: Parcel, order: seq<Bytes>)
    requires Inv(s) && p.op == 251 && Enabled(s, Receive(c, p, order)) && s.conns[c].mode != Publisher
    ensures var s1 := Step(s, Receive(c, p, order));
            && s1.channels == s.channels
            && s1.conns.Keys == s.conns.Keys && (forall x :: x in s.conns && x != c ==> s1.conns[x] == s.conns[x])
            && s1.conns[c].mode == Subscriber && s1.conns[c].alive && s1.conns[c].chname == s.conns[c].chname
            && |s1.conns[c].out| == |s.conns[c].out| + 1 && s1.conns[c].out[..|s.conns[c].out|] == s.conns[c].out
            && var reply := s1.conns[c].out[|s.conns[c].out|];
            && reply.op == 251 && reply.id == p.id
            && reply.timestamp1 == |s.channels| && reply.timestamp2 == 0
            && reply.str1 == (if s.channels == [] then p.str1 else s.channels[p.id].name) && reply.str2 == p.str2
  {
  }

  /** The count and the name that an AVAILCH reports are exact, and every id below the count keeps its
      name from then on. */
  lemma ReportedNamesStay<C>(s: Server<C>, c: C, p: Parcel, order: seq<Bytes>, evs: seq<Event<C>>)
    requires Inv(s) && p.op == 251 && Enabled(s, Receive(c, p, order)) && s.conns[c].mode != Publisher
    ensures var s1 := Step(s, Receive(c, p, order));
            var t := Run(s1, evs);
            && |s1.conns[c].out| == |s.conns[c].out| + 1 && s1.conns[c].out[..|s.conns[c].out|] == s.conns[c].out
            && var reply := s1.conns[c].out[|s.conns[c].out|];
            && reply.op == 251 && reply.id == p.id && reply.timestamp1 == |s.channels|
            && (s.channels != [] ==> reply.str1 == s.channels[p.id].name)
            && |s.channels| <= |t.channels|
            && forall i :: 0 <= i < |s.channels| ==> t.channels[i].name == s.channels[i].name
  {
    hide Step, Run, Directory, Subscribed, Stored;
    AvailStep(s, c, p, order);
    var s1 := Step(s, Receive(c, p, order));
    StepInv(s, Receive(c, p, order));
    StepExtends(s, Receive(c, p, order));
    RunExtends(s1, evs);
  }

  // ---------------------------------------------------------------- connections, subscriptions, and what is ignored

  /** Everything an accept does. */
  lemma AcceptStep<C>(s: Server<C>, c: C)
    requires c !in s.conns
    ensures var t := Step(s, Accept(c));
            && t.channels == s.channels
            && t.conns.Keys == s.conns.Keys + {c} && (forall x :: x in s.conns ==> t.conns[x] == s.conns[x])
            && t.conns[c] == Conn(true, Unknown, [], [])
  {
  }

  /** Everything a disconnect does: the connection is gone from every channel, and nothing else changes. */
  lemma DisconnectStep<C>(s: Server<C>, c: C)
    requires Inv(s) && c in s.conns && s.conns[c].alive
    ensures var t := Step(s, Disconnect(c));
            && |t.channels| == |s.channels|
            && (forall i :: 0 <= i < |s.channels| ==>
                  t.channels[i] == s.channels[i].(subscribers := s.channels[i].subscribers - {c}))
            && t.conns == s.conns[c := s.conns[c].(alive := false)]
  {
    hide LogsOf;
    assert forall i :: 0 <= i < |s.channels| && c !in s.channels[i].subscribers ==>
      s.channels[i].subscribers - {c} == s.channels[i].subscribers;
  }

  /** Everything a SUBSCRIBE to a channel that exists does: the connection is one of its subscribers and
      is written the stored logs in order, and after them each register once, as a REGISTER parcel of
      the channel without timestamps. */
  lemma AttachStep<C>(s: Server<C>, c: C, p: Parcel, order: seq<Bytes>)
    requires Inv(s) && p.op == 252 && Enabled(s, Receive(c, p, order)) && s.conns[c].mode != Publisher
    requires p.id < |s.channels|
    ensures var s1, ch := Step(s, Receive(c, p, order)), s.channels[p.id];
            && s1.channels == s.channels[p.id := ch.(subscribers := ch.subscribers + {c})]
            && s1.conns.Keys == s.conns.Keys && (forall x :: x in s.conns && x != c ==> s1.conns[x] == s.conns[x])
            && s1.conns[c].mode == Subscriber && s1.conns[c].alive && s1.conns[c].chname == s.conns[c].chname
            && var out, logs := s.conns[c].out, ch.store.buffers;
            && |s1.conns[c].out| == |out| + |logs| + |order|
            && s1.conns[c].out[..|out|+|logs|] == out + logs
            && (forall k :: k in order <==> k in ch.registers)
            && (forall i, j :: 0 <= i < j < |order| ==> order[i] != order[j])
            && (forall i :: 0 <= i < |order| ==>
                  && order[i] in ch.registers
                  && s1.conns[c].out[|out|+|logs|+i] == Parcel(255, p.id, 0, 0, order[i], ch.registers[order[i]]))
  {
    hide LogsOf;
    var out, ch := s.conns[c].out, s.channels[p.id];
    var rs := RegisterParcels(ch.id, ch.registers, order);
    assert out + Snapshot(ch, order) == out + ch.store.buffers + rs;
  }

  /** Everything an UNSUBSCRIBE does. */
  lemma DetachStep<C>(s: Server<C>, c: C, p: Parcel, order: seq<Bytes>)
    requires Inv(s) && p.op == 253 && Enabled(s, Receive(c, p, order)) && s.conns[c].mode != Publisher
    requires p.id < |s.channels|
    ensures var s1, ch := Step(s, Receive(c, p, order)), s.channels[p.id];
            && s1.channels == s.channels[p.id := ch.(subscribers := ch.subscribers - {c})]
            && s1.conns == s.conns[c := s.conns[c].(mode := Subscriber)]
  {
  }

  /** What the first parcel with a known op makes of a connection, for good. */
  lemma ModeByOp(mode: Mode, p: Parcel)
    ensures NextMode(mode, p) ==
              if mode != Unknown then mode
              else if p.op in {0, 1, 2, 3, 4, 254, 255} then Publisher
              else if p.op in {251, 252, 253} then Subscriber
              else Unknown
  {
  }

  /** A parcel whose op its connection's mode does not know, or that names no channel where it must,
      changes nothing but the mode. */
  lemma NothingElse<C>(s: Server<C>, c: C, p: Parcel, order: seq<Bytes>)
    requires Inv(s) && Enabled(s, Receive(c, p, order))
    requires var mode := NextMode(s.conns[c].mode, p);
             || mode == Unknown
             || (mode == Publisher && p.op != 254 && !(p.op in {0, 1, 2, 3, 4, 255} && p.id < |s.channels|))
             || (mode == Subscriber && p.op != 251 && !(p.op in {252, 253} && p.id < |s.channels|))
    ensures var conn := s.conns[c].(mode := NextMode(s.conns[c].mode, p));
            Step(s, Receive(c, p, order)) == s.(conns := s.conns[c := conn])
  {
    hide LogsOf;
  }

  // ---------------------------------------------------------------- fan-out

  lemma TakenIsLast(s: Store, p: Parcel, capacity: UInt32)
    ensures Capable(s, p, capacity) ==>
              var b := Archive(s, p, capacity).buffers; b != [] && b[|b|-1] == p
  {
    hide Evict, WireSize;
  }

  /** A publisher's data parcel for a channel that exists changes no other channel and nobody's
      subscription; if the channel takes it, each current subscriber is written that parcel once, and
      nobody else is written anything.  Registers are always taken; a log is, when sums cannot wrap,
      exactly when it is not larger than the whole buffer. */
  lemma FanOut<C>(s: Server<C>, c: C, p: Parcel, order: seq<Bytes>)
    requires Inv(s) && Enabled(s, Receive(c, p, order)) && s.conns[c].mode != Subscriber
    requires (p.op <= 4 || p.op == 255) && p.id < |s.channels|
    ensures var t, ch := Step(s, Receive(c, p, order)), s.channels[p.id];
            && |t.channels| == |s.channels| && t.conns.Keys == s.conns.Keys
            && (forall i :: 0 <= i < |s.channels| && i != p.id ==> t.channels[i] == s.channels[i])
            && t.channels[p.id].subscribers == ch.subscribers
            && (p.op == 255 ==> Relayed(ch, p) && t.channels[p.id] == ch.(registers := ch.registers[p.str1 := p.str2]))
            && (p.op <= 4 ==> t.channels[p.id].registers == ch.registers)
            && (forall x :: x in s.conns ==>
                  t.conns[x].out == s.conns[x].out + if x in ch.subscribers && Relayed(ch, p) then [p] else [])
            && (Relayed(ch, p) && p.op <= 4 ==>
                  var stored := t.channels[p.id].store.buffers;
                  stored != [] && stored[|stored|-1] == p)
            && (NeverWraps(s.bufsize) && Accounted(ch.store, s.bufsize) && p.op <= 4 ==>
                  (Relayed(ch, p) <==> WireSize(p) <= s.bufsize))
  {
    hide WireSize, LogsOf, Archive, Capable;
    if IsLog(p) {
      TakenIsLast(s.channels[p.id].store, p, s.channels[p.id].capacity);
    }
    if NeverWraps(s.bufsize) && Accounted(s.channels[p.id].store, s.bufsize) {
      StoredFits(s.channels[p.id].store, s.bufsize);
      ArchiveKeepsFit(s.channels[p.id].store, s.channels[p.id].store.buffers, p, s.bufsize);
    }
  }

  lemma StoredFits(s: Store, capacity: UInt32)
    requires Accounted(s, capacity)
    ensures s.buffers == Fit(s.buffers, capacity)
  {
  }

  /** A disconnected connection is in no subscriber set and is never written to again, although
      `disconnect` looks for it only when it worked as a subscriber. */
  lemma DisconnectIsFinal<C>(s: Server<C>, c: C, evs: seq<Event<C>>)
    requires Inv(s) && Enabled(s, Disconnect(c))
    ensures var t := Run(Step(s, Disconnect(c)), evs);
            && c in t.conns && t.conns[c] == s.conns[c].(alive := false)
            && forall i :: 0 <= i < |t.channels| ==> c !in t.channels[i].subscribers
  {
    var s1 := Step(s, Disconnect(c));
    StepInv(s, Disconnect(c));
    RunInv(s1, evs);
    RunExtends(s1, evs);
  }
}
