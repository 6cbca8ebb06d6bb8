/** From the registers that agents post, over the maps that channels keep, to the tables that
    subscribers build. */
module Registers {
  import opened Wire
  import opened Eviction
  import opened ServerModel
  import opened ServerProofs
  import opened Demux
  import opened Convergence
  import opened Subscriber
  import opened System
  import opened EndToEnd
  import opened Calls
  import A = AgentModel

  // ---------------------------------------------------------------- the server passes plain registers on

  /** A string that no hop and no `c_str()` shortens. */
  predicate PlainText(s: Bytes) { |s| <= STRING_CAP && 0 !in s }

  predicate Plain(p: Parcel) { p.op == REGISTER ==> PlainText(p.str1) && PlainText(p.str2) }

  ghost predicate PlainTable(registers: map<Bytes, Bytes>) {
    forall k :: k in registers ==> PlainText(k) && PlainText(registers[k])
  }

  ghost predicate AllPlain(ps: seq<Parcel>) { forall p :: p in ps ==> Plain(p) }

  ghost predicate PlainServer<C>(s: Server<C>) {
    && (forall i :: 0 <= i < |s.channels| ==> PlainTable(s.channels[i].registers))
    && (forall c :: c in s.conns ==> AllPlain(s.conns[c].out))
  }

  lemma PlainAppend(a: seq<Parcel>, b: seq<Parcel>)
    requires AllPlain(a) && AllPlain(b)
    ensures AllPlain(a + b)
  {
    hide Plain;
  }

  lemma SnapshotPlain<C>(ch: Channel<C>, order: seq<Bytes>)
    requires LogsOf(ch.id, ch.store.buffers) && PlainTable(ch.registers) && Enumerates(order, ch.registers)
    ensures AllPlain(Snapshot(ch, order))
  {
    hide PlainText, Enumerates;
    OnlyKeys(order, ch.registers);
    var rs := RegisterParcels(ch.id, ch.registers, order);
    assert AllPlain(ch.store.buffers);
    forall p | p in rs
      ensures Plain(p)
    {
      var i :| 0 <= i < |rs| && rs[i] == p;
      assert order[i] in order;
    }
    PlainAppend(ch.store.buffers, rs);
  }

  lemma PublisherPlain<C>(s: Server<C>, c: C, p: Parcel)
    requires PlainServer(s) && c in s.conns && Plain(p)
    ensures PlainServer(OnPublisherParcel(s, c, p))
  {
    hide PlainText, Archive, Capable, CStr, Find;
    forall x | x in s.conns
      ensures AllPlain(s.conns[x].out + [p])
      ensures AllPlain(s.conns[x].out + [PublishReply(Granted(s, CStr(p.str1)))])
    {
      PlainAppend(s.conns[x].out, [p]);
      PlainAppend(s.conns[x].out, [PublishReply(Granted(s, CStr(p.str1)))]);
    }
  }

  lemma SubscriberPlain<C>(s: Server<C>, c: C, p: Parcel, order: seq<Bytes>)
    requires Inv(s) && PlainServer(s) && c in s.conns
    requires p.op == AVAILCH ==> p.id < |s.channels| || |s.channels| == 0
    requires p.op == SUBSCRIBE && p.id < |s.channels| ==> Enumerates(order, s.channels[p.id].registers)
    ensures PlainServer(OnSubscribeParcel(s, c, p, order))
  {
    hide PlainText, Snapshot, LogsOf;
    if p.op == AVAILCH {
      PlainAppend(s.conns[c].out, [AvailReply(s, p)]);
    } else if p.op == SUBSCRIBE && p.id < |s.channels| {
      SnapshotPlain(s.channels[p.id], order);
      PlainAppend(s.conns[c].out, Snapshot(s.channels[p.id], order));
    }
  }

  lemma StepPlain<C>(s: Server<C>, ev: Event<C>)
    requires Inv(s) && PlainServer(s) && (ev.Receive? ==> Plain(ev.parcel))
    ensures PlainServer(Step(s, ev))
  {
    hide PlainTable, AllPlain, LogsOf;
    if Enabled(s, ev) {
      match ev
      case Accept(_) => NothingPlain();
      case Disconnect(_) =>
      case Receive(c, p, order) =>
        var mode := NextMode(s.conns[c].mode, p);
        var s1 := WithMode(s, c, mode);
        assert Inv(s1) && PlainServer(s1);
        if mode == Publisher {
          PublisherPlain(s1, c, p);
        } else if mode == Subscriber {
          SubscriberPlain(s1, c, p, order);
        }
    }
  }

  lemma NothingPlain()
    ensures AllPlain([])
  {
  }

  lemma {:induction false} RunPlain<C>(bufsize: UInt32, maxchannels: UInt32, evs: seq<Event<C>>)
    requires forall e :: e in evs && e.Receive? ==> Plain(e.parcel)
    ensures PlainServer(Run(Initial<C>(bufsize, maxchannels), evs))
    decreases |evs|
  {
    hide Step, PlainServer, Plain, Directory, Subscribed, Stored;
    if evs == [] {
      InitialPlain<C>(bufsize, maxchannels);
    } else {
      var before := evs[..|evs|-1];
      RunPlain(bufsize, maxchannels, before);
      ReachableInv(bufsize, maxchannels, before);
      assert evs[|evs|-1] in evs;
      StepPlain(Run(Initial<C>(bufsize, maxchannels), before), evs[|evs|-1]);
    }
  }

  lemma InitialPlain<C>(bufsize: UInt32, maxchannels: UInt32)
    ensures PlainServer(Initial<C>(bufsize, maxchannels))
  {
  }

  // ---------------------------------------------------------------- the table a callback can build

  /** The latest content of each register of one channel, by the events a callback was given. */
  function TableOf(events: seq<ClientEvent>, id: UInt32): map<Bytes, Bytes>
    decreases |events|
  {
    if events == [] then map[]
    else
      var e, m := events[|events|-1], TableOf(events[..|events|-1], id);
      if e.RegisterEvent? && e.id == id then m[e.name := e.content] else m
  }

  lemma TableSnoc(events: seq<ClientEvent>, e: ClientEvent, id: UInt32)
    ensures TableOf(events + [e], id) ==
              if e.RegisterEvent? && e.id == id then TableOf(events, id)[e.name := e.content] else TableOf(events, id)
  {
    assert (events + [e])[..|events + [e]|-1] == events;
  }

  lemma NotifiedSnoc(ps: seq<Parcel>, p: Parcel)
    ensures Notified(CappedAll(ps + [p])) == Notified(CappedAll(ps)) + EventsOf(Capped(p))
  {
    hide EventsOf, Cap;
    var cs := CappedAll(ps + [p]);
    assert cs[..|cs|-1] == CappedAll(ps);
  }

  lemma PlainEvents(p: Parcel)
    requires p.op == REGISTER && Plain(p)
    ensures EventsOf(Capped(p)) == [RegisterEvent(p.id, p.str1, p.str2)]
  {
    hide CStr;
  }

  lemma OtherEvents(p: Parcel)
    requires p.op != REGISTER
    ensures |EventsOf(Capped(p))| <= 1 && (EventsOf(Capped(p)) != [] ==> EventsOf(Capped(p))[0].LogEvent?)
  {
    hide CStr, Cap;
  }

  lemma TableNext(events: seq<ClientEvent>, p: Parcel, id: UInt32)
    requires Plain(p)
    ensures TableOf(events + EventsOf(Capped(p)), id) ==
              if p.op == REGISTER && p.id == id then TableOf(events, id)[p.str1 := p.str2] else TableOf(events, id)
  {
    hide EventsOf, Plain, Capped, TableOf;
    if p.op == REGISTER {
      PlainEvents(p);
      TableSnoc(events, RegisterEvent(p.id, p.str1, p.str2), id);
    } else {
      OtherEvents(p);
      if EventsOf(Capped(p)) == [] {
        assert events + [] == events;
      } else {
        assert EventsOf(Capped(p)) == [EventsOf(Capped(p))[0]];
        TableSnoc(events, EventsOf(Capped(p))[0], id);
      }
    }
  }

  /** Events of plain registers fold to what the parcels fold to. */
  lemma {:induction false} TableIsFold(ps: seq<Parcel>, id: UInt32)
    requires AllPlain(ps)
    ensures TableOf(Notified(CappedAll(ps)), id) == Folded(DataFor(ps, id))
    decreases |ps|
  {
    hide EventsOf, Plain, Capped, TableOf, Notified, Folded, DataFor, CappedAll;
    if ps == [] {
      EmptyTable(id);
    } else {
      var n := |ps| - 1;
      var p := ps[n];
      assert ps == ps[..n] + [p] && p in ps;
      TableIsFold(ps[..n], id);
      NotifiedSnoc(ps[..n], p);
      TableNext(Notified(CappedAll(ps[..n])), p, id);
      DataSnoc(ps[..n], p, id);
      FoldedSnoc(DataFor(ps[..n], id), p);
    }
  }

  lemma EmptyTable(id: UInt32)
    ensures TableOf(Notified(CappedAll([])), id) == Folded(DataFor([], id))
  {
  }

  /** In every run of the server in which registers come as dill clients send them: the table that an
      attached subscriber's callback can build from all that was written to it is the channel's map. */
  lemma {:induction false} TablesConverge<C>(bufsize: UInt32, maxchannels: UInt32, evs: seq<Event<C>>, id: UInt32, c: C)
    requires forall e :: e in evs && e.Receive? ==> Plain(e.parcel)
    ensures var s := Run(Initial<C>(bufsize, maxchannels), evs);
            id < |s.channels| && c in s.channels[id].subscribers ==>
              c in s.conns && TableOf(Notified(CappedAll(s.conns[c].out)), id) == s.channels[id].registers
  {
    hide Plain, AllPlain, Run, Folded, DataFor, Logs, TableOf, Notified, IsSuffix;
    var s := Run(Initial<C>(bufsize, maxchannels), evs);
    RunPlain(bufsize, maxchannels, evs);
    SubscribersConverge(bufsize, maxchannels, evs, id, c);
    if id < |s.channels| && c in s.channels[id].subscribers {
      TableIsFold(s.conns[c].out, id);
    }
  }

  // ---------------------------------------------------------------- the closed system

  lemma CappedPlain(p: Parcel)
    requires NulFree(p)
    ensures Plain(Capped(p))
  {
  }

  /** A register that the server received was posted, so it is plain. */
  lemma ReceivedPlain(s: System, e: nat)
    requires SysInv(s, ServerOf(s)) && e < |s.evs| && s.evs[e].Receive?
    ensures Plain(s.evs[e].parcel)
  {
    hide SysInv, Rank, Run, Cap, PlainText, Accepted;
    if s.evs[e].parcel.op == REGISTER {
      ReceivedFromAgent(s, e);
      var x := s.evs[e].conn;
      var r := Rank(s.evs[..e], x);
      SentWasPosted(s, x, r);
      AcceptedPlain(s, s.links[x].sent[r].id, Source(x, s.links[x].from[r-1]), s.links[x].sent[r]);
      CappedPlain(s.links[x].sent[r]);
    }
  }

  /** End to end for registers, in every run of any agents, one server and any subscribers: once a
      client attached to a channel has read all it was sent, the table built by its callback is
      exactly the channel's register map. */
  lemma {:induction false} RegistersArrive(bufsize: UInt32, maxchannels: UInt32, channels: seq<Bytes>,
                                           acts: seq<Action>, id: UInt32, y: nat)
    ensures var srv := ServerOf(DoAll(Begin(bufsize, maxchannels, channels), acts));
            id < |srv.channels| && y in srv.channels[id].subscribers ==>
              y in srv.conns && TableOf(Notified(CappedAll(srv.conns[y].out)), id) == srv.channels[id].registers
  {
    hide DoAll, Begin, SysInv, Plain, Run, TableOf, Notified, CappedAll;
    AlwaysOk(bufsize, maxchannels, channels, acts);
    var s := DoAll(Begin(bufsize, maxchannels, channels), acts);
    forall e | e in s.evs && e.Receive?
      ensures Plain(e.parcel)
    {
      var i :| 0 <= i < |s.evs| && s.evs[i] == e;
      ReceivedPlain(s, i);
    }
    TablesConverge(s.bufsize, s.maxchannels, s.evs, id, y);
  }

  // ---------------------------------------------------------------- where the channel's map comes from

  /** The channel takes a REGISTER of that name. */
  predicate Sets(a: Act, name: Bytes) { a.Update? && a.parcel.op == REGISTER && a.parcel.str1 == name }

  function LastSet(acts: seq<Act>, name: Bytes): (j: Option<nat>)
    ensures j.Some? ==> j.value < |acts| && Sets(acts[j.value], name)
    decreases |acts|
  {
    if acts == [] then None
    else if Sets(acts[|acts|-1], name) then Some(|acts| - 1)
    else LastSet(acts[..|acts|-1], name)
  }

  lemma {:induction false} LastSetIsLast(acts: seq<Act>, name: Bytes)
    ensures var last := LastSet(acts, name);
            forall l :: 0 <= l < |acts| && (last.Some? ==> last.value < l) ==> !Sets(acts[l], name)
    decreases |acts|
  {
    if acts != [] {
      var n := |acts| - 1;
      LastSetIsLast(acts[..n], name);
      assert forall l :: 0 <= l < n ==> acts[..n][l] == acts[l];
    }
  }

  /** A cell's registers are the names set so far, each with the content it was last set to. */
  lemma {:induction false} RegistersAreLatest(acts: seq<Act>, id: UInt32, capacity: UInt32, name: Bytes)
    ensures var registers := Replay(acts, id, capacity).registers;
            && (name in registers <==> LastSet(acts, name).Some?)
            && (name in registers ==> registers[name] == acts[LastSet(acts, name).value].parcel.str2)
    decreases |acts|
  {
    hide Archive, Capable, Enumerates, RegisterParcels;
    if acts != [] {
      RegistersAreLatest(acts[..|acts|-1], id, capacity, name);
    }
  }

  /** What a channel took; it is the same seen from any connection, here from 0. */
  ghost function TakenBy(s: System, id: UInt32): (acts: seq<Act>)
    ensures |acts| == |s.evs|
  {
    Trace(Initial(s.bufsize, s.maxchannels), s.evs, id, 0)
  }

  /** The call posts the register: its name is the tag, its content the message, both cut. */
  predicate SetsRegister(call: A.Event, name: Bytes, content: Bytes) {
    match call
    case Post(op, tag, msg, _, _) => op == 255 && name == Cap(tag) && content == Cap(msg)
    case PostFill(_, op, tag, msg, _, _) => op == 255 && name == Cap(tag) && content == Cap(msg)
    case _ => false
  }

  /** The `n`-th action posts the register, by an agent whose name is that of the channel. */
  ghost predicate SetByCall(s: System, acts: seq<Action>, channels: seq<Bytes>, n: nat,
                            id: UInt32, name: Bytes, content: Bytes)
  {
    && n < |acts| && acts[n].AgentSteps? && SetsRegister(acts[n].ev, name, content)
    && acts[n].k < |channels| && Bears(ServerOf(s).channels, id, channels[acts[n].k])
  }

  lemma RegisterCalled(bufsize: UInt32, maxchannels: UInt32, channels: seq<Bytes>, acts: seq<Action>,
                       id: UInt32, p: Parcel, src: Source)
    requires p.op == 255 && FromPost(DoAll(Begin(bufsize, maxchannels, channels), acts), id, p, src)
    ensures var s0 := Begin(bufsize, maxchannels, channels);
            SetByCall(DoAll(s0, acts), acts, channels, CallAt(s0, acts, src), id, p.str1, p.str2)
  {
    hide DoAll, Begin, ServerOf, Bears, Accepted, CallAt, Cap;
    var s := DoAll(Begin(bufsize, maxchannels, channels), acts);
    var post :| Accepted(s, id, src, post) && p == Capped(post);
    AcceptedCall(bufsize, maxchannels, channels, acts, id, src, post);
  }

  /** In every run of the closed system, a channel's map has exactly the names of the registers it took,
      each with the content of the last one of that name; and that one is the capped form of a post
      that an agent accepted for the channel of its name: of a call of `post` in that run, whose tag is
      the register's name and whose message is its content. */
  lemma {:induction false} RegistersWerePosted(bufsize: UInt32, maxchannels: UInt32, channels: seq<Bytes>,
                                               acts: seq<Action>, id: UInt32, name: Bytes)
    ensures var s := DoAll(Begin(bufsize, maxchannels, channels), acts);
            id < |ServerOf(s).channels| ==>
              var registers, last := ServerOf(s).channels[id].registers, LastSet(TakenBy(s, id), name);
              && (name in registers <==> last.Some?)
              && (forall l :: 0 <= l < |s.evs| && (last.Some? ==> last.value < l) ==> !Sets(TakenBy(s, id)[l], name))
              && (name in registers ==>
                    var ev := s.evs[last.value];
                    && ev.Receive? && ev.parcel.op == REGISTER
                    && ev.parcel.str1 == name && ev.parcel.str2 == registers[name]
                    && FromPost(s, id, ev.parcel, SourceOf(s, last.value))
                    && var n := CallAt(Begin(bufsize, maxchannels, channels), acts, SourceOf(s, last.value));
                    && SetByCall(s, acts, channels, n, id, name, registers[name]))
  {
    hide DoAll, Begin, SysInv, Run, Trace, Replay, LastSet, FromPost, SourceOf, Rank, SetByCall, CallAt;
    AlwaysOk(bufsize, maxchannels, channels, acts);
    var s := DoAll(Begin(bufsize, maxchannels, channels), acts);
    if id < |ServerOf(s).channels| {
      var taken := TakenBy(s, id);
      Demultiplexed(s.bufsize, s.maxchannels, s.evs, id, 0);
      RegistersAreLatest(taken, id, s.bufsize, name);
      LastSetIsLast(taken, name);
      if name in ServerOf(s).channels[id].registers {
        var last := LastSet(taken, name).value;
        TakenWasPosted(s, id, 0, last);
        RegisterCalled(bufsize, maxchannels, channels, acts, id, s.evs[last].parcel, SourceOf(s, last));
      }
    }
  }

  // ---------------------------------------------------------------- the answer to a client's question

  /** A client that reads the answer to its AVAILCH has the number of channels and, if there are any,
      the name of the one it asked for, and waits no longer. */
  lemma AnswerRead<C>(s: Server<C>, c: C, p: Parcel, order: seq<Bytes>, rpc: Rpc)
    requires Inv(s) && p.op == 251 && Enabled(s, Receive(c, p, order)) && s.conns[c].mode != Publisher
    ensures var out := Step(s, Receive(c, p, order)).conns[c].out;
            && out != []
            && var heard := Answered(rpc, Capped(out[|out|-1]));
            && heard.availch == |s.channels| && !heard.onRpc
            && (s.channels != [] ==> heard.chname == Cap(s.channels[p.id].name))
  {
    hide Step, Cap;
    AvailStep(s, c, p, order);
  }
}
