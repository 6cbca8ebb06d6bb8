/** The objects of the server, updated in place, each operation proved against the state machine. */
module ServerObjects {
  import opened Wire
  import opened Eviction
  import opened ServerModel
  import opened ServerProofs

  /** A connection; `written` records the parcels handed to `asyncWriteParcel`. */
  class Connection {
    var mode: Mode
    var chname: Bytes
    var written: seq<Parcel>

    constructor ()
      ensures mode == Unknown && chname == [] && written == []
    {
      mode, chname, written := Unknown, [], [];
    }

    function View(alive: bool): Conn
      reads this
    {
      Conn(alive, mode, chname, written)
    }

    method AsyncWriteParcel(p: Parcel)
      modifies this`written
      ensures written == old(written) + [p]
    {
      written := written + [p];
    }
  }

  class ChannelData {
    const id: UInt32
    const name: Bytes
    const capacity: UInt32
    var subscribers: set<Connection>
    var buffers: seq<Parcel>
    var used: UInt32
    var registers: map<Bytes, Bytes>

    function View(): Channel<Connection>
      reads this
    {
      Channel(id, name, capacity, Store(used, buffers), registers, subscribers)
    }

    constructor (id: UInt32, capacity: UInt32, name: Bytes)
      ensures View() == Channel(id, name, capacity, EMPTY, map[], {})
    {
      this.id, this.name, this.capacity := id, name, capacity;
      subscribers, buffers, used, registers := {}, [], 0, map[];
    }

    /** Evicts what must go, stores what then fits, and passes an accepted parcel to every subscriber. */
    method UpdateChannel(p: Parcel)
      modifies this, subscribers`written
      ensures View() == Updated(old(View()), p)
      ensures forall c :: c in subscribers ==>
                c.written == if Relayed(old(View()), p) then old(c.written) + [p] else old(c.written)
    {
      hide WireSize, Encode;
      var broadcast := false;
      if p.op == REGISTER {
        registers := registers[p.str1 := p.str2];
        broadcast := subscribers != {};
      } else {
        var psize := Size(p);
        ghost var before := Store(used, buffers);
        var purgedSize: UInt32 := 0;
        while Add32(used, psize) > capacity && buffers != []
          invariant Evict(Store(used, buffers), psize, capacity) == Evict(before, psize, capacity)
          invariant subscribers == old(subscribers) && registers == old(registers)
          modifies this
          decreases |buffers|
        {
          var oldpsize := Size(buffers[0]);
          used := Sub32(used, oldpsize);
          buffers := buffers[1..];
          purgedSize := Add32(purgedSize, oldpsize);
        }
        var capable := Add32(used, psize) <= capacity;
        if capable {
          buffers := buffers + [p];
          used := Add32(used, psize);
          broadcast := subscribers != {};
        }
      }
      if broadcast {
        Broadcast(p);
      }
    }

    static method Size(p: Parcel) returns (n: UInt32)
      ensures n == WireSize(p)
    {
      SizeBounds(p);
      n := Deflate(p, null, 0);
    }

    method Broadcast(p: Parcel)
      modifies subscribers`written
      ensures forall c :: c in subscribers ==> c.written == old(c.written) + [p]
    {
      var rest := subscribers;
      while rest != {}
        invariant rest <= subscribers
        invariant forall c :: c in subscribers ==>
                    c.written == if c in rest then old(c.written) else old(c.written) + [p]
        decreases rest
      {
        var c :| c in rest;
        c.AsyncWriteParcel(p);
        rest := rest - {c};
      }
    }

    /** Replays the stored logs and then the registers, in whatever order the map yields them. */
    method AttachSubscriber(conn: Connection) returns (ghost order: seq<Bytes>)
      modifies this`subscribers, conn`written
      ensures Enumerates(order, registers)
      ensures View() == old(View()).(subscribers := old(subscribers) + {conn})
      ensures conn.written == old(conn.written) + Snapshot(old(View()), order)
    {
      subscribers := subscribers + {conn};
      var i := 0;
      while i < |buffers|
        modifies conn`written
        invariant i <= |buffers| && conn.written == old(conn.written) + buffers[..i]
      {
        conn.AsyncWriteParcel(buffers[i]);
        i := i + 1;
        assert buffers[..i] == buffers[..i-1] + [buffers[i-1]];
      }
      assert buffers[..i] == buffers;
      order := WriteRegisters(conn);
      assert old(conn.written) + buffers + RegisterParcels(id, registers, order) ==
          old(conn.written) + (buffers + RegisterParcels(id, registers, order));
    }

    method WriteRegisters(conn: Connection) returns (ghost order: seq<Bytes>)
      modifies conn`written
      ensures Enumerates(order, registers)
      ensures conn.written == old(conn.written) + RegisterParcels(id, registers, order)
    {
      order := [];
      var rest := registers.Keys;
      assert conn.written == conn.written + RegisterParcels(id, registers, []);
      while rest != {}
        invariant rest <= registers.Keys
        invariant forall k :: k in order <==> k in registers && k !in rest
        invariant forall i, j :: 0 <= i < j < |order| ==> order[i] != order[j]
        invariant conn.written == old(conn.written) + RegisterParcels(id, registers, order)
        decreases rest
      {
        var k :| k in rest;
        conn.AsyncWriteParcel(RegisterParcel(id, k, registers[k]));
        ghost var next := order + [k];
        assert RegisterParcels(id, registers, next) ==
            RegisterParcels(id, registers, order) + [RegisterParcel(id, k, registers[k])];
        order := next;
        rest := rest - {k};
      }
    }

    method DetachSubscriber(conn: Connection)
      modifies this`subscribers
      ensures View() == Detached(old(View()), conn)
    {
      subscribers := subscribers - {conn};
    }
  }

  class DillServer {
    const bufsize: UInt32
    const maxchannels: UInt32
    var connSet: set<Connection>
    var channelData: seq<ChannelData>
    /** The abstract state; it also remembers connections that are gone. */
    ghost var model: Server<Connection>

    ghost predicate ChannelsAre(channels: seq<Channel<Connection>>)
      reads this`channelData, channelData
    {
      && |channelData| == |channels|
      && (forall i :: 0 <= i < |channelData| ==> channelData[i].View() == channels[i])
      && (forall i, j :: 0 <= i < j < |channelData| ==> channelData[i] != channelData[j])
    }

    ghost predicate ConnsAre(conns: map<Connection, Conn>)
      reads this`connSet, conns.Keys
    {
      && connSet <= conns.Keys
      && (forall c :: c in conns ==> conns[c] == c.View(c in connSet))
    }

    ghost predicate Valid()
      reads this, channelData, model.conns.Keys
    {
      && model.bufsize == bufsize && model.maxchannels == maxchannels
      && ChannelsAre(model.channels)
      && ConnsAre(model.conns)
      && Inv(model)
    }

    constructor (bufsize: UInt32, maxchannels: UInt32)
      ensures Valid() && model == Initial(bufsize, maxchannels)
    {
      this.bufsize, this.maxchannels := bufsize, maxchannels;
      connSet, channelData := {}, [];
      model := Initial(bufsize, maxchannels);
      InitialInv<Connection>(bufsize, maxchannels);
    }

    method OnAcceptFinished() returns (conn: Connection)
      requires Valid()
      modifies this
      ensures Valid() && fresh(conn) && conn in connSet
      ensures Enabled(old(model), Accept(conn)) && model == Step(old(model), Accept(conn))
    {
      conn := new Connection();
      connSet := connSet + {conn};
      StepInv(model, Accept(conn));
      model := Step(model, Accept(conn));
    }

    method FindChannelByName(name: Bytes) returns (i: nat)
      requires Valid()
      ensures i == Find(model.channels, name)
    {
      i := 0;
      while i < |channelData| && channelData[i].name != name
        invariant i <= |channelData|
        invariant forall j :: 0 <= j < i ==> model.channels[j].name != name
      {
        i := i + 1;
      }
    }

    method DetachEverywhere(conn: Connection)
      requires ChannelsAre(model.channels)
      modifies channelData
      ensures ChannelsAre(DetachedAll(model.channels, conn))
    {
      var i := 0;
      while i < |channelData|
        modifies channelData
        invariant i <= |channelData|
        invariant forall j :: 0 <= j < |channelData| ==>
                    channelData[j].View() == if j < i then Detached(model.channels[j], conn) else model.channels[j]
      {
        channelData[i].DetachSubscriber(conn);
        i := i + 1;
      }
    }

    static lemma DisconnectedIs(s: Server<Connection>, conn: Connection)
      requires Inv(s) && conn in s.conns && s.conns[conn].alive
      ensures var next := Disconnected(s, conn);
              && Enabled(s, ServerModel.Disconnect(conn)) && Step(s, ServerModel.Disconnect(conn)) == next
              && Inv(next)
              && next.bufsize == s.bufsize && next.maxchannels == s.maxchannels
              && next.channels ==
                   (if s.conns[conn].mode == Subscriber then DetachedAll(s.channels, conn) else s.channels)
              && next.conns == s.conns[conn := s.conns[conn].(alive := false)]
    {
      hide Inv, DetachedAll;
      StepInv(s, ServerModel.Disconnect(conn));
    }

    /** `disconnect` of a connection the server holds. */
    method Disconnect(conn: Connection)
      requires Valid() && conn in connSet
      modifies this, channelData
      ensures Valid() && conn !in connSet
      ensures Enabled(old(model), ServerModel.Disconnect(conn))
      ensures model == Step(old(model), ServerModel.Disconnect(conn))
    {
      hide Inv, DetachedAll, Disconnected;
      DisconnectedIs(model, conn);
      ghost var next := Disconnected(model, conn);
      if conn.mode == Subscriber {
        DetachEverywhere(conn);
      }
      assert ChannelsAre(next.channels);
      connSet := connSet - {conn};
      assert ConnsAre(next.conns);
      model := next;
    }

    // ---------------------------------------------------------------- parcels

    method OnPublisherParcel(conn: Connection, p: Parcel)
      requires Valid() && conn in connSet
      modifies this, channelData, model.conns.Keys
      ensures Valid() && connSet == old(connSet)
      ensures model == ServerModel.OnPublisherParcel(old(model), conn, p)
    {
      if IsData(p) {
        if p.id < |channelData| {
          UpdateData(conn, p);
        }
      } else if p.op == PUBLISH {
        Publish(conn, p);
      }
    }

    /** The channel's part of a data parcel: its own state, and what its subscribers are written. */
    method Relay(i: nat, p: Parcel)
      requires Valid() && i < |channelData|
      modifies channelData[i], channelData[i].subscribers`written
      ensures ChannelsAre(model.channels[i := Updated(model.channels[i], p)])
      ensures forall c :: c in model.conns ==>
                c.View(c in connSet) ==
                  if c in model.channels[i].subscribers && Relayed(model.channels[i], p)
                  then Wrote(model.conns[c], [p]) else model.conns[c]
    {
      hide Archive, Capable, Inv;
      channelData[i].UpdateChannel(p);
    }

    method UpdateData(conn: Connection, p: Parcel)
      requires Valid() && conn in connSet && IsData(p) && p.id < |channelData|
      modifies this, channelData, model.conns.Keys
      ensures Valid() && connSet == old(connSet)
      ensures model == ServerModel.OnPublisherParcel(old(model), conn, p)
    {
      hide Updated, Relayed, Wrote, Inv, IsData, ServerModel.OnPublisherParcel;
      DataStep(model, conn, p);
      PublisherInv(model, conn, p);
      SubscribersHeld(p.id);
      ghost var next := ServerModel.OnPublisherParcel(model, conn, p);
      Relay(p.id, p);
      assert ChannelsAre(next.channels);
      assert ConnsAre(next.conns);
      model := next;
    }

    static lemma DataStep(s: Server<Connection>, conn: Connection, p: Parcel)
      requires conn in s.conns && IsData(p) && p.id < |s.channels|
      ensures var ch := s.channels[p.id];
              var next := ServerModel.OnPublisherParcel(s, conn, p);
              && next.bufsize == s.bufsize && next.maxchannels == s.maxchannels
              && next.channels == s.channels[p.id := Updated(ch, p)]
              && next.conns.Keys == s.conns.Keys
              && forall c :: c in s.conns ==>
                   next.conns[c] == if c in ch.subscribers && Relayed(ch, p) then Wrote(s.conns[c], [p]) else s.conns[c]
    {
      hide Archive, Capable;
    }

    static lemma PublishStep(s: Server<Connection>, conn: Connection, p: Parcel)
      requires conn in s.conns && p.op == PUBLISH
      ensures var name := CStr(p.str1);
              ServerModel.OnPublisherParcel(s, conn, p) ==
                Published(s, name).(
                  conns := s.conns[conn := Wrote(s.conns[conn].(chname := p.str1), [PublishReply(Granted(s, name))])])
    {
      hide Published, Granted, CStr;
    }

    /** Every subscriber is a connection the model knows. */
    lemma SubscribersHeld(i: nat)
      requires Valid() && i < |channelData|
      ensures channelData[i].subscribers <= model.conns.Keys
    {
      assert channelData[i].View() == model.channels[i];
    }

    /** The channel of that name, created if it can be. */
    method FindOrCreate(name: Bytes) returns (granted: Option<UInt32>)
      requires Valid() && 0 !in name
      modifies this
      ensures Valid() && connSet == old(connSet)
      ensures model == Published(old(model), name) && granted == Granted(old(model), name)
    {
      hide Inv;
      PublishedInv(model, name);
      assert |model.channels| <= model.maxchannels by {
        InvDirectory(model);
      }
      granted := None;
      var i := FindChannelByName(name);
      if i < |channelData| {
        granted := Some(channelData[i].id);
      } else if |channelData| < maxchannels {
        var data := new ChannelData(|channelData|, bufsize, name);
        channelData := channelData + [data];
        granted := Some(data.id);
      }
      model := Published(model, name);
    }

    static lemma InvDirectory(s: Server<Connection>)
      requires Inv(s)
      ensures |s.channels| <= s.maxchannels
    {
    }

    method Publish(conn: Connection, p: Parcel)
      requires Valid() && conn in connSet && p.op == PUBLISH
      modifies this, conn
      ensures Valid() && connSet == old(connSet)
      ensures model == ServerModel.OnPublisherParcel(old(model), conn, p)
    {
      hide CStr, Inv, Published, Granted, ServerModel.OnPublisherParcel, PublishReply;
      PublishStep(model, conn, p);
      PublisherInv(model, conn, p);
      ghost var next := ServerModel.OnPublisherParcel(model, conn, p);
      PublishedConns(model, CStr(p.str1));
      var granted := FindOrCreate(CStr(p.str1));
      Answer(conn, p.str1, PublishReply(granted));
      model := next;
    }

    /** Notes the channel name on the connection and writes the answer. */
    method Answer(conn: Connection, chname: Bytes, reply: Parcel)
      requires Valid() && conn in connSet
      modifies conn
      ensures ChannelsAre(model.channels)
      ensures ConnsAre(model.conns[conn := Wrote(model.conns[conn].(chname := chname), [reply])])
    {
      hide Inv;
      conn.chname := chname;
      conn.AsyncWriteParcel(reply);
    }

    method ReportAvailable(conn: Connection, p: Parcel)
      requires Valid() && conn in connSet && conn.mode == Subscriber
      requires p.op == AVAILCH && (p.id < |channelData| || |channelData| == 0)
      modifies this`model, conn`written
      ensures Valid()
      ensures model == ServerModel.OnSubscribeParcel(old(model), conn, p, [])
    {
      hide Inv;
      SubscriberInv(model, conn, p, []);
      var reply := p.(timestamp1 := Narrow32(|channelData|), timestamp2 := 0);
      if reply.timestamp1 > 0 {
        reply := reply.(str1 := channelData[p.id].name);
      }
      assert reply == AvailReply(model, p);
      conn.AsyncWriteParcel(reply);
      model := ServerModel.OnSubscribeParcel(model, conn, p, []);
    }

    method Subscribe(conn: Connection, p: Parcel) returns (ghost order: seq<Bytes>)
      requires Valid() && conn in connSet && conn.mode == Subscriber
      requires p.op == SUBSCRIBE && p.id < |channelData|
      modifies this`model, channelData[p.id], conn`written
      ensures Valid()
      ensures Enumerates(order, old(model).channels[p.id].registers)
      ensures model == ServerModel.OnSubscribeParcel(old(model), conn, p, order)
    {
      hide Inv, Snapshot, Enumerates;
      order := channelData[p.id].AttachSubscriber(conn);
      SubscriberInv(model, conn, p, order);
      OnlyKeys(order, model.channels[p.id].registers);
      ghost var next := ServerModel.OnSubscribeParcel(model, conn, p, order);
      assert ChannelsAre(next.channels);
      assert ConnsAre(next.conns);
      model := next;
    }

    method Unsubscribe(conn: Connection, p: Parcel)
      requires Valid() && conn in connSet && conn.mode == Subscriber
      requires p.op == UNSUBSCRIBE && p.id < |channelData|
      modifies this`model, channelData[p.id]
      ensures Valid()
      ensures model == ServerModel.OnSubscribeParcel(old(model), conn, p, [])
    {
      hide Inv;
      SubscriberInv(model, conn, p, []);
      ghost var next := ServerModel.OnSubscribeParcel(model, conn, p, []);
      channelData[p.id].DetachSubscriber(conn);
      assert ChannelsAre(next.channels);
      assert ConnsAre(next.conns);
      model := next;
    }

    method OnSubscribeParcel(conn: Connection, p: Parcel) returns (ghost order: seq<Bytes>)
      requires Valid() && conn in connSet && conn.mode == Subscriber
      requires p.op == AVAILCH ==> p.id < |channelData| || |channelData| == 0
      modifies this`model, channelData, conn`written
      ensures Valid()
      ensures p.op == SUBSCRIBE && p.id < |old(model).channels| ==>
                Enumerates(order, old(model).channels[p.id].registers)
      ensures model == ServerModel.OnSubscribeParcel(old(model), conn, p, order)
    {
      hide Inv, Snapshot, Enumerates;
      order := [];
      if p.op == AVAILCH {
        ReportAvailable(conn, p);
      } else if p.op == SUBSCRIBE && p.id < |channelData| {
        order := Subscribe(conn, p);
      } else if p.op == UNSUBSCRIBE && p.id < |channelData| {
        Unsubscribe(conn, p);
      }
    }

    /** `onReadParcelContentFinished` once the parcel is there: dispatch by the connection's mode. */
    method OnParcel(conn: Connection, p: Parcel) returns (ghost order: seq<Bytes>)
      requires Valid() && conn in connSet
      requires NextMode(conn.mode, p) == Subscriber && p.op == AVAILCH ==> p.id < |channelData| || |channelData| == 0
      modifies this, channelData, model.conns.Keys
      ensures Valid() && connSet == old(connSet)
      ensures Enabled(old(model), Receive(conn, p, order)) && model == Step(old(model), Receive(conn, p, order))
    {
      hide Inv, Enumerates, WithMode, NextMode, ServerModel.OnPublisherParcel, ServerModel.OnSubscribeParcel, IsData;
      order := [];
      DecideMode(conn, p);
      match conn.mode
      case Publisher => OnPublisherParcel(conn, p);
      case Subscriber => order := OnSubscribeParcel(conn, p);
      case Unknown =>
    }

    /** The first parcel that tells decides for good what the connection works as. */
    method DecideMode(conn: Connection, p: Parcel)
      requires Valid() && conn in connSet
      modifies this`model, conn
      ensures Valid() && model == WithMode(old(model), conn, NextMode(old(conn.mode), p))
      ensures conn.mode == NextMode(old(conn.mode), p)
      ensures model.conns.Keys == old(model).conns.Keys && old(model).conns[conn].mode == old(conn.mode)
    {
      hide Inv, NextMode;
      ModeInv(model, conn, p);
      ghost var next := WithMode(model, conn, NextMode(conn.mode, p));
      conn.mode := NextMode(conn.mode, p);
      assert ChannelsAre(next.channels);
      assert ConnsAre(next.conns);
      model := next;
    }

    static lemma ModeInv(s: Server<Connection>, conn: Connection, p: Parcel)
      requires Inv(s) && conn in s.conns
      ensures Inv(WithMode(s, conn, NextMode(s.conns[conn].mode, p)))
    {
      hide LogsOf;
    }
  }
}
