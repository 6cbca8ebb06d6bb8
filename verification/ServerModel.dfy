/** The server as a state machine on values.  A connection is identified by a value of type `C`;
    `out` lists the parcels ever passed to its `asyncWriteParcel`. */
module ServerModel {
  import opened Wire
  import opened Eviction

  datatype Mode = Unknown | Publisher | Subscriber

  /** `alive` says whether the server still holds the connection. */
  datatype Conn = Conn(alive: bool, mode: Mode, chname: Bytes, out: seq<Parcel>)

  datatype Channel<C> = Channel(id: UInt32, name: Bytes, capacity: UInt32, store: Store,
                                registers: map<Bytes, Bytes>, subscribers: set<C>)

  datatype Server<C> = Server(bufsize: UInt32, maxchannels: UInt32, channels: seq<Channel<C>>, conns: map<C, Conn>)

  /** `order` is the order in which an attach happens to enumerate the registers. */
  datatype Event<C> =
    | Accept(conn: C)
    | Receive(conn: C, parcel: Parcel, order: seq<Bytes>)
    | Disconnect(conn: C)

  function Initial<C>(bufsize: UInt32, maxchannels: UInt32): Server<C> { Server(bufsize, maxchannels, [], map[]) }

  // ---------------------------------------------------------------- channels

  /** The channel after `updateChannel`. */
  function Updated<C>(ch: Channel<C>, p: Parcel): Channel<C> {
    if p.op == REGISTER then ch.(registers := ch.registers[p.str1 := p.str2])
    else ch.(store := Archive(ch.store, p, ch.capacity))
  }

  /** Whether `updateChannel` sends the parcel on to the subscribers. */
  predicate Relayed<C>(ch: Channel<C>, p: Parcel) { p.op == REGISTER || Capable(ch.store, p, ch.capacity) }

  /** `order` enumerates the keys of the register map. */
  ghost predicate Enumerates(order: seq<Bytes>, registers: map<Bytes, Bytes>) {
    && (forall k :: k in order <==> k in registers)
    && (forall i, j :: 0 <= i < j < |order| ==> order[i] != order[j])
  }

  lemma OnlyKeys(order: seq<Bytes>, registers: map<Bytes, Bytes>)
    requires Enumerates(order, registers)
    ensures forall k :: k in order ==> k in registers
  {
  }

  function RegisterParcel(id: UInt32, name: Bytes, content: Bytes): Parcel { Parcel(REGISTER, id, 0, 0, name, content) }

  function RegisterParcels(id: UInt32, registers: map<Bytes, Bytes>, order: seq<Bytes>): (ps: seq<Parcel>)
    requires forall k :: k in order ==> k in registers
  {
    seq(|order|, i requires 0 <= i < |order| => RegisterParcel(id, order[i], registers[order[i]]))
  }

  /** What `attachSubscriber` writes. */
  function Snapshot<C>(ch: Channel<C>, order: seq<Bytes>): seq<Parcel>
    requires forall k :: k in order ==> k in ch.registers
  {
    ch.store.buffers + RegisterParcels(ch.id, ch.registers, order)
  }

  function Find<C>(channels: seq<Channel<C>>, name: Bytes): (i: nat)
    ensures i <= |channels|
    ensures i < |channels| ==> channels[i].name == name
    ensures forall j :: 0 <= j < i ==> channels[j].name != name
  {
    if channels == [] || channels[0].name == name then 0 else 1 + Find(channels[1..], name)
  }

  // ---------------------------------------------------------------- connections

  function Wrote(c: Conn, ps: seq<Parcel>): Conn { c.(out := c.out + ps) }

  function WroteAll<C>(conns: map<C, Conn>, to: set<C>, p: Parcel): map<C, Conn> {
    map c | c in conns :: if c in to then Wrote(conns[c], [p]) else conns[c]
  }

  // ---------------------------------------------------------------- steps

  /** The channel id a PUBLISH of `name` gets, or None when the directory is full. */
  function Granted<C>(s: Server<C>, name: Bytes): Option<UInt32> {
    var i := Find(s.channels, name);
    if i < |s.channels| then Some(s.channels[i].id)
    else if |s.channels| < s.maxchannels then Some(|s.channels|)
    else None
  }

  function Published<C>(s: Server<C>, name: Bytes): Server<C> {
    if Find(s.channels, name) == |s.channels| < s.maxchannels
    then s.(channels := s.channels + [Channel(|s.channels|, name, s.bufsize, EMPTY, map[], {})])
    else s
  }

  function PublishReply(granted: Option<UInt32>): Parcel {
    match granted
    case Some(id) => Parcel(REPLY_OK, id, 0, 0, [], [])
    case None => Parcel(REPLY_FULL, 0, 0, 0, [], [])
  }

  function OnPublisherParcel<C>(s: Server<C>, c: C, p: Parcel): Server<C>
    requires c in s.conns
  {
    if IsData(p) then
      if p.id < |s.channels| then
        var ch := s.channels[p.id];
        s.(channels := s.channels[p.id := Updated(ch, p)],
           conns := if Relayed(ch, p) then WroteAll(s.conns, ch.subscribers, p) else s.conns)
      else s
    else if p.op == PUBLISH then
      var name := CStr(p.str1);
      var conn := s.conns[c].(chname := p.str1);
      Published(s, name).(conns := s.conns[c := Wrote(conn, [PublishReply(Granted(s, name))])])
    else s
  }

  function AvailReply<C>(s: Server<C>, p: Parcel): Parcel
    requires p.id < |s.channels| || |s.channels| == 0
  {
    var n := Narrow32(|s.channels|);
    p.(timestamp1 := n, timestamp2 := 0, str1 := if n > 0 && p.id < |s.channels| then s.channels[p.id].name else p.str1)
  }

  function OnSubscribeParcel<C>(s: Server<C>, c: C, p: Parcel, order: seq<Bytes>): Server<C>
    requires c in s.conns
    requires p.op == AVAILCH ==> p.id < |s.channels| || |s.channels| == 0
    requires p.op == SUBSCRIBE && p.id < |s.channels| ==> forall k :: k in order ==> k in s.channels[p.id].registers
  {
    if p.op == AVAILCH then s.(conns := s.conns[c := Wrote(s.conns[c], [AvailReply(s, p)])])
    else if p.op == SUBSCRIBE && p.id < |s.channels| then
      var ch := s.channels[p.id];
      s.(channels := s.channels[p.id := ch.(subscribers := ch.subscribers + {c})],
         conns := s.conns[c := Wrote(s.conns[c], Snapshot(ch, order))])
    else if p.op == UNSUBSCRIBE && p.id < |s.channels| then
      var ch := s.channels[p.id];
      s.(channels := s.channels[p.id := ch.(subscribers := ch.subscribers - {c})])
    else s
  }

  /** The mode a connection works in once the parcel has been looked at. */
  function NextMode(mode: Mode, p: Parcel): Mode {
    if mode != Unknown then mode
    else if IsData(p) || p.op == PUBLISH then Publisher
    else if p.op == AVAILCH || p.op == SUBSCRIBE || p.op == UNSUBSCRIBE then Subscriber
    else Unknown
  }

  function WithMode<C>(s: Server<C>, c: C, mode: Mode): Server<C>
    requires c in s.conns
  {
    s.(conns := s.conns[c := s.conns[c].(mode := mode)])
  }

  function Detached<C>(ch: Channel<C>, c: C): Channel<C> { ch.(subscribers := ch.subscribers - {c}) }

  function DetachedAll<C>(channels: seq<Channel<C>>, c: C): (r: seq<Channel<C>>)
    ensures |r| == |channels|
    ensures forall i :: 0 <= i < |channels| ==> r[i] == Detached(channels[i], c)
  {
    seq(|channels|, i requires 0 <= i < |channels| => Detached(channels[i], c))
  }

  /** `disconnect` looks through the channels only for a subscriber. */
  function Disconnected<C>(s: Server<C>, c: C): Server<C>
    requires c in s.conns
  {
    s.(channels := if s.conns[c].mode == Subscriber then DetachedAll(s.channels, c) else s.channels,
       conns := s.conns[c := s.conns[c].(alive := false)])
  }

  /** What can happen to a server.  Asking for the name of a channel that is not there, on a server
      that has channels, makes the source assign a null pointer to a string: no step is defined. */
  ghost predicate Enabled<C>(s: Server<C>, ev: Event<C>) {
    match ev
    case Accept(c) => c !in s.conns
    case Disconnect(c) => c in s.conns && s.conns[c].alive
    case Receive(c, p, order) =>
      && c in s.conns && s.conns[c].alive
      && (NextMode(s.conns[c].mode, p) == Subscriber && p.op == AVAILCH ==> p.id < |s.channels| || |s.channels| == 0)
      && (NextMode(s.conns[c].mode, p) == Subscriber && p.op == SUBSCRIBE && p.id < |s.channels| ==>
            Enumerates(order, s.channels[p.id].registers))
  }

  function Taken<C>(s: Server<C>, ev: Event<C>): Server<C>
    requires Enabled(s, ev)
  {
    match ev
    case Accept(c) => s.(conns := s.conns[c := Conn(true, Unknown, [], [])])
    case Disconnect(c) => Disconnected(s, c)
    case Receive(c, p, order) =>
      var mode := NextMode(s.conns[c].mode, p);
      var s1 := WithMode(s, c, mode);
      if mode == Publisher then OnPublisherParcel(s1, c, p)
      else if mode == Subscriber then OnSubscribeParcel(s1, c, p, order)
      else s1
  }

  /** An event that cannot happen changes nothing. */
  ghost function Step<C>(s: Server<C>, ev: Event<C>): Server<C> {
    if Enabled(s, ev) then Taken(s, ev) else s
  }

  ghost function Run<C>(s: Server<C>, evs: seq<Event<C>>): Server<C>
    decreases |evs|
  {
    if evs == [] then s else Step(Run(s, evs[..|evs|-1]), evs[|evs|-1])
  }
}
