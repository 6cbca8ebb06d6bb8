/** Publishing agents, one server and subscribers, joined by transports that deliver what each side
    hands to `asyncWriteParcel`, in order and capped, until a connection breaks. */
module System {
  import opened Wire
  import opened Eviction
  import opened ServerModel
  import opened ServerProofs
  import opened Demux
  import opened Convergence
  import A = AgentModel

  datatype Owner = AgentLink(k: nat) | ClientLink

  /** A connection seen from its client end: all parcels ever written to it, how many of them the
      server has received, and, for an agent, which of the posts it ever accepted the parcels after the
      first are. */
  datatype Link = Link(owner: Owner, sent: seq<Parcel>, taken: nat, from: seq<nat>)

  /** An agent, and the connection of its current session. */
  datatype LogPublisher = LogPublisher(channel: Bytes, agent: A.Agent, session: Option<nat>)

  datatype System = System(bufsize: UInt32, maxchannels: UInt32, evs: seq<Event<nat>>, links: map<nat, Link>,
                           publishers: seq<LogPublisher>)

  /** `AgentSteps` is any part of a post, by any thread, or the completion of a write; `AgentFails` is
      anything by which an agent loses its connection or does not get one. */
  datatype Action =
    | AgentConnects(k: nat, x: nat, id: UInt32, timestamp1: UInt32, timestamp2: UInt32)
    | AgentSteps(k: nat, ev: A.Event)
    | AgentReads(k: nat)
    | AgentFails(k: nat, ev: A.Event)
    | ClientConnects(x: nat)
    | ClientSends(x: nat, parcel: Parcel)
    | ServerReceives(x: nat, order: seq<Bytes>)
    | ServerDrops(x: nat)

  ghost function ServerOf(s: System): Server<nat> { Run(Initial(s.bufsize, s.maxchannels), s.evs) }

  function Begin(bufsize: UInt32, maxchannels: UInt32, channels: seq<Bytes>): System {
    System(bufsize, maxchannels, [], map[],
           seq(|channels|, k requires 0 <= k < |channels| => LogPublisher(channels[k], A.START, None)))
  }

  /** Posts are given C strings. */
  predicate IsLocal(ev: A.Event) {
    match ev
    case Post(_, tag, msg, _, _) => 0 !in tag && 0 !in msg
    case PostFill(_, _, tag, msg, _, _) => 0 !in tag && 0 !in msg
    case PostLook(_) => true
    case PostEnd(_) => true
    case ParcelSent(ok) => ok
    case _ => false
  }

  predicate IsFailure(ev: A.Event) {
    match ev
    case IoError => true
    case ParcelSent(ok) => !ok
    case Connected(ok, _) => !ok
    case _ => false
  }

  function ParcelsOf(ws: seq<A.Write>): (ps: seq<Parcel>)
    ensures |ps| == |ws|
  {
    seq(|ws|, i requires 0 <= i < |ws| => ws[i].parcel)
  }

  /** What a step of an agent writes. */
  function Written(a: A.Agent, ev: A.Event): seq<Parcel> {
    var b := A.Step(a, ev);
    if |a.writes| <= |b.writes| then ParcelsOf(b.writes[|a.writes|..]) else []
  }

  /** Which of the accepted posts the front of the queue is, or the next one would be. */
  function Front(a: A.Agent): int { |a.accepted| - |a.queue| }

  /** Which post a step writes. */
  function Numbers(a: A.Agent, ev: A.Event): seq<nat> {
    var front := Front(A.Step(a, ev));
    if Written(a, ev) == [] || front < 0 then [] else [front]
  }

  function WithAgent(s: System, k: nat, ev: A.Event, session: Option<nat>): System
    requires k < |s.publishers|
  {
    var pub := s.publishers[k];
    s.(publishers := s.publishers[k := LogPublisher(pub.channel, A.Step(pub.agent, ev), session)])
  }

  /** A step of an agent in session `x`. */
  function InSession(s: System, k: nat, x: nat, ev: A.Event): System
    requires k < |s.publishers| && x in s.links
  {
    var a, link := s.publishers[k].agent, s.links[x];
    var next := link.(sent := link.sent + Written(a, ev), from := link.from + Numbers(a, ev));
    WithAgent(s, k, ev, Some(x)).(links := s.links[x := next])
  }

  predicate FromClient(op: Byte) { op == AVAILCH || op == SUBSCRIBE || op == UNSUBSCRIBE }

  /** An action that cannot happen changes nothing.  What an agent writes without a session is lost. */
  ghost function Do(s: System, act: Action): System {
    match act
    case AgentConnects(k, x, id, timestamp1, timestamp2) =>
      if k < |s.publishers| && s.publishers[k].session == None && x !in s.links then
        var request := Parcel(PUBLISH, id, timestamp1, timestamp2, s.publishers[k].channel, []);
        WithAgent(s, k, A.Connected(true, request), Some(x)).(
          evs := s.evs + [Accept(x)],
          links := s.links[x := Link(AgentLink(k), [request], 0, [])])
      else s
    case AgentSteps(k, ev) =>
      if k < |s.publishers| && IsLocal(ev) then
        match s.publishers[k].session
        case None => WithAgent(s, k, ev, None)
        case Some(x) => if x in s.links then InSession(s, k, x, ev) else s
      else s
    case AgentReads(k) =>
      if k < |s.publishers| && s.publishers[k].session.Some? && !s.publishers[k].agent.loggable then
        var x := s.publishers[k].session.value;
        if x in ServerOf(s).conns && ServerOf(s).conns[x].out != [] then
          var p := Capped(ServerOf(s).conns[x].out[0]);
          WithAgent(s, k, A.ParcelRead(p), if p.op == REPLY_OK then Some(x) else None)
        else s
      else s
    case AgentFails(k, ev) =>
      if k < |s.publishers| && IsFailure(ev) then WithAgent(s, k, ev, None) else s
    case ClientConnects(x) =>
      if x in s.links then s
      else s.(evs := s.evs + [Accept(x)], links := s.links[x := Link(ClientLink, [], 0, [])])
    case ClientSends(x, p) =>
      if x in s.links && s.links[x].owner == ClientLink && FromClient(p.op)
      then s.(links := s.links[x := s.links[x].(sent := s.links[x].sent + [p])]) else s
    case ServerReceives(x, order) =>
      if x in s.links && s.links[x].taken < |s.links[x].sent| then
        var ev := Receive(x, Capped(s.links[x].sent[s.links[x].taken]), order);
        if Enabled(ServerOf(s), ev)
        then s.(evs := s.evs + [ev], links := s.links[x := s.links[x].(taken := s.links[x].taken + 1)]) else s
      else s
    case ServerDrops(x) =>
      if Enabled(ServerOf(s), Disconnect(x)) then s.(evs := s.evs + [Disconnect(x)]) else s
  }

  ghost function DoAll(s: System, acts: seq<Action>): System
    decreases |acts|
  {
    if acts == [] then s else Do(DoAll(s, acts[..|acts|-1]), acts[|acts|-1])
  }

  // ---------------------------------------------------------------- where a received parcel comes from

  /** How many parcels the server has received from `x`. */
  function Rank(evs: seq<Event<nat>>, x: nat): nat
    decreases |evs|
  {
    if evs == [] then 0
    else Rank(evs[..|evs|-1], x) + if evs[|evs|-1].Receive? && evs[|evs|-1].conn == x then 1 else 0
  }

  lemma RankSnoc(evs: seq<Event<nat>>, ev: Event<nat>, x: nat)
    ensures Rank(evs + [ev], x) == Rank(evs, x) + if ev.Receive? && ev.conn == x then 1 else 0
  {
    assert (evs + [ev])[..|evs + [ev]|-1] == evs;
  }

  /** The `e`-th event, a parcel from `x`, is the one the client sent as number `Rank`. */
  ghost predicate Carried(evs: seq<Event<nat>>, e: nat, links: map<nat, Link>)
    requires e < |evs|
  {
    evs[e].Receive? ==>
      var x := evs[e].conn;
      && x in links
      && Rank(evs[..e], x) < links[x].taken
      && Rank(evs[..e], x) < |links[x].sent|
      && evs[e].parcel == Capped(links[x].sent[Rank(evs[..e], x)])
  }

  ghost predicate AllCarried(evs: seq<Event<nat>>, links: map<nat, Link>) {
    forall e :: 0 <= e < |evs| ==> Carried(evs, e, links)
  }

  // ---------------------------------------------------------------- the server's side of the invariant

  /** The channel of that id bears the name. */
  ghost predicate Bears<C>(channels: seq<Channel<C>>, id: UInt32, channel: Bytes) {
    id < |channels| && channels[id].name == CStr(Cap(channel))
  }

  /** The first parcel sent is the PUBLISH, and the first one back is its answer. */
  ghost predicate AgentLinkOk<C>(link: Link, conn: Conn, channels: seq<Channel<C>>, channel: Bytes) {
    && link.sent != [] && link.sent[0].op == PUBLISH && link.sent[0].str1 == channel
    && (link.taken == 0 ==> conn.mode == Unknown && conn.out == [])
    && (link.taken > 0 ==> conn.mode == ServerModel.Publisher && conn.out != [])
    && (conn.out != [] && conn.out[0].op == REPLY_OK ==> Bears(channels, conn.out[0].id, channel))
  }

  ghost predicate LinkOk(s: System, srv: Server<nat>, x: nat)
    requires x in s.links
  {
    var link := s.links[x];
    && x in srv.conns
    && link.taken == Rank(s.evs, x) <= |link.sent|
    && match link.owner
       case ClientLink => forall p :: p in link.sent ==> FromClient(p.op)
       case AgentLink(k) => k < |s.publishers| && AgentLinkOk(link, srv.conns[x], srv.channels, s.publishers[k].channel)
  }

  ghost predicate ServerSide(s: System, srv: Server<nat>) {
    && Inv(srv)
    && srv.conns.Keys == s.links.Keys
    && AllCarried(s.evs, s.links)
    && (forall x :: x in s.links ==> LinkOk(s, srv, x))
  }

  // ---------------------------------------------------------------- the agents' side of the invariant

  ghost predicate Posted<C>(p: Parcel, channels: seq<Channel<C>>, channel: Bytes) {
    NulFree(p) && Bears(channels, p.id, channel)
  }

  /** Whatever an agent accepted, prepared or can still prepare names the channel of its name. */
  ghost predicate PublisherOk<C>(a: A.Agent, channels: seq<Channel<C>>, channel: Bytes) {
    && A.Conserved(a)
    && (a.loggable || a.looked != {} ==> Bears(channels, a.channelId, channel))
    && (forall p :: p in a.accepted ==> Posted(p, channels, channel))
    && (forall t :: t in a.prepared ==> Posted(a.prepared[t], channels, channel))
  }

  /** A post written before: it is not behind the front of the queue. */
  ghost predicate Past(n: nat, a: A.Agent) { n < |a.accepted| && (a.queue != [] ==> n <= Front(a)) }

  /** After the first parcel of a connection come accepted posts, in order. */
  ghost predicate Numbered(link: Link, a: A.Agent) {
    && |link.sent| == |link.from| + 1
    && (forall i :: 0 <= i < |link.from| ==> Past(link.from[i], a) && link.sent[i+1] == a.accepted[link.from[i]])
    && (forall i, j :: 0 <= i < j < |link.from| ==> link.from[i] < link.from[j])
  }

  ghost predicate NumbersOk(s: System, x: nat)
    requires x in s.links
  {
    s.links[x].owner.AgentLink? ==>
      s.links[x].owner.k < |s.publishers| && Numbered(s.links[x], s.publishers[s.links[x].owner.k].agent)
  }

  /** No post goes out on two connections. */
  ghost predicate NoneTwice(links: map<nat, Link>) {
    forall x, y, n ::
      x in links && y in links && x != y && links[x].owner == links[y].owner && links[x].owner.AgentLink? ==>
        !(n in links[x].from && n in links[y].from)
  }

  ghost predicate SessionOk(s: System, k: nat)
    requires k < |s.publishers|
  {
    match s.publishers[k].session
    case None => true
    case Some(x) => x in s.links && s.links[x].owner == AgentLink(k)
  }

  ghost predicate AgentSide<C>(s: System, channels: seq<Channel<C>>) {
    && (forall k :: 0 <= k < |s.publishers| ==>
          PublisherOk(s.publishers[k].agent, channels, s.publishers[k].channel) && SessionOk(s, k))
    && (forall x :: x in s.links ==> NumbersOk(s, x))
    && NoneTwice(s.links)
  }

  ghost predicate SysInv(s: System, srv: Server<nat>) { ServerSide(s, srv) && AgentSide(s, srv.channels) }

  // ---------------------------------------------------------------- what one server step does to the rest

  lemma ServerSnoc(s: System, ev: Event<nat>, t: System)
    requires t.bufsize == s.bufsize && t.maxchannels == s.maxchannels && t.evs == s.evs + [ev]
    ensures ServerOf(t) == Step(ServerOf(s), ev)
  {
    hide Step;
    assert t.evs[..|t.evs|-1] == s.evs;
  }

  /** A connection that has sent nothing yet is left alone by everything others do. */
  lemma QuietStep(srv: Server<nat>, ev: Event<nat>, x: nat)
    requires Inv(srv) && x in srv.conns && srv.conns[x].mode == Unknown
    requires !(ev.Receive? && ev.conn == x)
    ensures Step(srv, ev).conns[x].mode == Unknown && Step(srv, ev).conns[x].out == srv.conns[x].out
  {
    hide Archive, Capable, CStr, Snapshot, LogsOf, Enumerates, PublishReply, Granted;
    assert forall i :: 0 <= i < |srv.channels| ==> x !in srv.channels[i].subscribers;
  }

  ghost predicate Full<C>(srv: Server<C>, name: Bytes) { Absent(srv, name) && |srv.channels| == srv.maxchannels }

  /** The first parcel of an agent's connection is its PUBLISH; the first parcel back is the answer. */
  lemma FirstParcel(srv: Server<nat>, x: nat, p: Parcel, order: seq<Bytes>)
    requires Inv(srv) && Enabled(srv, Receive(x, p, order)) && p.op == PUBLISH
    requires srv.conns[x].mode == Unknown && srv.conns[x].out == []
    ensures var t := Step(srv, Receive(x, p, order));
            && x in t.conns && t.conns[x].mode == ServerModel.Publisher && |t.conns[x].out| == 1
            && t.conns[x].out[0].op == (if Full(srv, CStr(p.str1)) then 250 else 249)
            && (t.conns[x].out[0].op == REPLY_OK ==>
                  t.conns[x].out[0].id < |t.channels| && t.channels[t.conns[x].out[0].id].name == CStr(p.str1))
  {
    hide CStr, Step, Absent;
    GrantStep(srv, x, p, order);
  }

  ghost predicate LinksGrow(links: map<nat, Link>, more: map<nat, Link>) {
    forall x :: x in links ==>
      x in more && links[x].sent <= more[x].sent && links[x].taken <= more[x].taken
  }

  lemma CarriedStays(evs: seq<Event<nat>>, links: map<nat, Link>, tail: seq<Event<nat>>, more: map<nat, Link>)
    requires AllCarried(evs, links) && LinksGrow(links, more)
    ensures forall e :: 0 <= e < |evs| ==> Carried(evs + tail, e, more)
  {
    hide Rank;
    forall e | 0 <= e < |evs|
      ensures Carried(evs + tail, e, more)
    {
      assert Carried(evs, e, links);
      assert (evs + tail)[..e] == evs[..e];
    }
  }

  lemma CarriedSnoc(evs: seq<Event<nat>>, links: map<nat, Link>, ev: Event<nat>, more: map<nat, Link>)
    requires AllCarried(evs, links) && LinksGrow(links, more)
    requires ev.Receive? ==>
               && ev.conn in more && Rank(evs, ev.conn) < more[ev.conn].taken
               && Rank(evs, ev.conn) < |more[ev.conn].sent|
               && ev.parcel == Capped(more[ev.conn].sent[Rank(evs, ev.conn)])
    ensures AllCarried(evs + [ev], more)
  {
    hide Rank;
    CarriedStays(evs, links, [ev], more);
    assert (evs + [ev])[..|evs|] == evs;
    assert Carried(evs + [ev], |evs|, more);
  }

  lemma CarriedMore(evs: seq<Event<nat>>, links: map<nat, Link>, more: map<nat, Link>)
    requires AllCarried(evs, links) && LinksGrow(links, more)
    ensures AllCarried(evs, more)
  {
    CarriedStays(evs, links, [], more);
    assert evs + [] == evs;
  }

  lemma AgentLinkStays<C>(link: Link, conn: Conn, channels: seq<Channel<C>>, channel: Bytes, conn': Conn,
                          channels': seq<Channel<C>>)
    requires AgentLinkOk(link, conn, channels, channel)
    requires Continues(conn, conn')
    requires |channels| <= |channels'| && forall i :: 0 <= i < |channels| ==> channels'[i].name == channels[i].name
    requires link.taken == 0 ==> conn'.mode == Unknown && conn'.out == []
    ensures AgentLinkOk(link, conn', channels', channel)
  {
    hide CStr;
    if conn.out != [] {
      assert conn'.out[0] == conn.out[0];
    }
  }

  lemma QuietAgent(srv: Server<nat>, ev: Event<nat>, x: nat, link: Link, channel: Bytes)
    requires Inv(srv) && x in srv.conns && AgentLinkOk(link, srv.conns[x], srv.channels, channel)
    requires !(ev.Receive? && ev.conn == x)
    ensures link.taken == 0 ==> Step(srv, ev).conns[x].mode == Unknown && Step(srv, ev).conns[x].out == []
  {
    hide Step, Inv;
    if link.taken == 0 {
      QuietStep(srv, ev, x);
    }
  }

  ghost predicate SameNames(s: System, t: System) {
    && |s.publishers| == |t.publishers|
    && forall k :: 0 <= k < |s.publishers| ==> t.publishers[k].channel == s.publishers[k].channel
  }

  /** A server step leaves every link in order whose client did not cause it. */
  lemma LinkStays(s: System, srv: Server<nat>, ev: Event<nat>, t: System, x: nat)
    requires Inv(srv) && x in s.links && LinkOk(s, srv, x)
    requires t.evs == s.evs + [ev] && SameNames(s, t) && x in t.links && t.links[x] == s.links[x]
    requires !(ev.Receive? && ev.conn == x)
    ensures LinkOk(t, Step(srv, ev), x)
  {
    hide Step, Rank, Inv, AgentLinkOk;
    RankSnoc(s.evs, ev, x);
    StepExtends(srv, ev);
    var link := s.links[x];
    if link.owner.AgentLink? {
      QuietAgent(srv, ev, x, link, s.publishers[link.owner.k].channel);
      AgentLinkStays(link, srv.conns[x], srv.channels, s.publishers[link.owner.k].channel,
                     Step(srv, ev).conns[x], Step(srv, ev).channels);
    }
  }

  lemma PublisherStays<C>(a: A.Agent, channels: seq<Channel<C>>, channel: Bytes, channels': seq<Channel<C>>)
    requires PublisherOk(a, channels, channel)
    requires |channels| <= |channels'| && forall i :: 0 <= i < |channels| ==> channels'[i].name == channels[i].name
    ensures PublisherOk(a, channels', channel)
  {
    hide A.Conserved, CStr, NulFree;
  }

  /** What neither adds to an agent's link nor steps an agent leaves the agents' side alone. */
  lemma AgentsStay<C>(s: System, channels: seq<Channel<C>>, t: System, channels': seq<Channel<C>>)
    requires AgentSide(s, channels) && t.publishers == s.publishers
    requires |channels| <= |channels'| && forall i :: 0 <= i < |channels| ==> channels'[i].name == channels[i].name
    requires forall x :: x in s.links ==> x in t.links && t.links[x].owner == s.links[x].owner
    requires forall x :: x in t.links && t.links[x].owner.AgentLink? ==>
               x in s.links && t.links[x].sent == s.links[x].sent && t.links[x].from == s.links[x].from
    ensures AgentSide(t, channels')
  {
    hide PublisherOk, Past;
    forall k | 0 <= k < |t.publishers|
      ensures PublisherOk(t.publishers[k].agent, channels', t.publishers[k].channel) && SessionOk(t, k)
    {
      PublisherStays(s.publishers[k].agent, channels, s.publishers[k].channel, channels');
      assert SessionOk(s, k);
    }
    forall x | x in t.links
      ensures NumbersOk(t, x)
    {
      if t.links[x].owner.AgentLink? {
        assert NumbersOk(s, x);
      }
    }
  }

  // ---------------------------------------------------------------- actions of the server and of clients

  lemma StepKeys(srv: Server<nat>, ev: Event<nat>)
    requires Enabled(srv, ev)
    ensures Step(srv, ev).conns.Keys == srv.conns.Keys + if ev.Accept? then {ev.conn} else {}
  {
    hide Archive, Capable, CStr, Snapshot, PublishReply, Granted, Published, AvailReply;
  }

  lemma DropsOk(s: System, srv: Server<nat>, x: nat)
    requires ServerSide(s, srv) && Enabled(srv, Disconnect(x))
    ensures ServerSide(s.(evs := s.evs + [Disconnect(x)]), Step(srv, Disconnect(x)))
  {
    hide Step, Inv, LinkOk, Carried, Enabled;
    var ev: Event<nat> := Disconnect(x);
    var t := s.(evs := s.evs + [ev]);
    StepInv(srv, ev);
    StepKeys(srv, ev);
    CarriedSnoc(s.evs, s.links, ev, s.links);
    forall y | y in t.links
      ensures LinkOk(t, Step(srv, ev), y)
    {
      LinkStays(s, srv, ev, t, y);
    }
  }

  /** Nothing was ever received from a connection that is not there yet. */
  lemma {:induction false} NoRank(evs: seq<Event<nat>>, links: map<nat, Link>, x: nat)
    requires AllCarried(evs, links) && x !in links
    ensures Rank(evs, x) == 0
    decreases |evs|
  {
    if evs != [] {
      var n := |evs| - 1;
      assert Carried(evs, n, links);
      forall e | 0 <= e < n
        ensures Carried(evs[..n], e, links)
      {
        assert Carried(evs, e, links);
        assert evs[..n][..e] == evs[..e];
      }
      NoRank(evs[..n], links, x);
    }
  }

  /** A new connection, of a client or of an agent that has written its PUBLISH. */
  lemma NewLinkOk(s: System, srv: Server<nat>, x: nat, link: Link, t: System)
    requires AllCarried(s.evs, s.links) && x !in s.links && x !in srv.conns
    requires t.evs == s.evs + [Accept(x)] && t.links == s.links[x := link] && link.taken == 0
    requires match link.owner
             case ClientLink => link.sent == []
             case AgentLink(k) =>
               && k < |t.publishers|
               && |link.sent| == 1 && link.sent[0].op == PUBLISH && link.sent[0].str1 == t.publishers[k].channel
    ensures LinkOk(t, Step(srv, Accept(x)), x)
  {
    hide Carried;
    NoRank(s.evs, s.links, x);
    RankSnoc(s.evs, Accept(x), x);
  }

  lemma ConnectsOk(s: System, srv: Server<nat>, x: nat, link: Link, t: System)
    requires ServerSide(s, srv) && x !in s.links && SameNames(s, t)
    requires t.evs == s.evs + [Accept(x)] && t.links == s.links[x := link] && link.taken == 0
    requires match link.owner
             case ClientLink => link.sent == []
             case AgentLink(k) =>
               && k < |t.publishers|
               && |link.sent| == 1 && link.sent[0].op == PUBLISH && link.sent[0].str1 == t.publishers[k].channel
    ensures ServerSide(t, Step(srv, Accept(x)))
  {
    hide Step, Inv, LinkOk, Carried;
    var ev: Event<nat> := Accept(x);
    StepInv(srv, ev);
    StepKeys(srv, ev);
    CarriedSnoc(s.evs, s.links, ev, t.links);
    NewLinkOk(s, srv, x, link, t);
    forall y | y in s.links
      ensures LinkOk(t, Step(srv, ev), y)
    {
      LinkStays(s, srv, ev, t, y);
    }
  }

  lemma SenderOk(s: System, srv: Server<nat>, x: nat, more: seq<Parcel>, from: seq<nat>, t: System)
    requires x in s.links && LinkOk(s, srv, x) && SameNames(s, t) && t.evs == s.evs && x in t.links
    requires t.links[x] == s.links[x].(sent := s.links[x].sent + more, from := from)
    requires s.links[x].owner == ClientLink ==> forall p :: p in more ==> FromClient(p.op)
    ensures LinkOk(t, srv, x)
  {
    hide Rank, FromClient, Bears;
  }

  lemma SameLinkOk(s: System, srv: Server<nat>, y: nat, t: System)
    requires y in s.links && LinkOk(s, srv, y) && SameNames(s, t) && t.evs == s.evs
    requires y in t.links && t.links[y] == s.links[y]
    ensures LinkOk(t, srv, y)
  {
    hide Rank, FromClient, AgentLinkOk;
  }

  /** The client end writes something more; nothing happens at the server. */
  lemma SendsOk(s: System, srv: Server<nat>, x: nat, more: seq<Parcel>, from: seq<nat>, t: System)
    requires ServerSide(s, srv) && x in s.links && SameNames(s, t) && t.evs == s.evs
    requires t.links == s.links[x := s.links[x].(sent := s.links[x].sent + more, from := from)]
    requires s.links[x].owner == ClientLink ==> forall p :: p in more ==> FromClient(p.op)
    ensures ServerSide(t, srv)
  {
    hide Inv, Carried, LinkOk, FromClient;
    CarriedMore(s.evs, s.links, t.links);
    SenderOk(s, srv, x, more, from, t);
    forall y | y in t.links && y != x
      ensures LinkOk(t, srv, y)
    {
      SameLinkOk(s, srv, y, t);
    }
  }

  lemma ReceiverOk(s: System, srv: Server<nat>, x: nat, order: seq<Bytes>, t: System)
    requires Inv(srv) && x in s.links && LinkOk(s, srv, x) && s.links[x].taken < |s.links[x].sent|
    requires var ev := Receive(x, Capped(s.links[x].sent[s.links[x].taken]), order);
             && Enabled(srv, ev)
             && t == s.(evs := s.evs + [ev], links := s.links[x := s.links[x].(taken := s.links[x].taken + 1)])
    ensures LinkOk(t, Step(srv, t.evs[|s.evs|]), x)
  {
    hide Step, Rank, Inv, Enabled, CStr, Cap;
    var link := s.links[x];
    var ev := t.evs[|s.evs|];
    RankSnoc(s.evs, ev, x);
    StepExtends(srv, ev);
    if link.owner.AgentLink? {
      var channel := s.publishers[link.owner.k].channel;
      if link.taken == 0 {
        FirstParcel(srv, x, ev.parcel, order);
      } else {
        AgentLinkStays(link, srv.conns[x], srv.channels, channel, Step(srv, ev).conns[x], Step(srv, ev).channels);
      }
    }
  }

  lemma ReceivesOk(s: System, srv: Server<nat>, x: nat, order: seq<Bytes>)
    requires ServerSide(s, srv) && x in s.links && s.links[x].taken < |s.links[x].sent|
    requires Enabled(srv, Receive(x, Capped(s.links[x].sent[s.links[x].taken]), order))
    ensures var ev := Receive(x, Capped(s.links[x].sent[s.links[x].taken]), order);
            var links := s.links[x := s.links[x].(taken := s.links[x].taken + 1)];
            ServerSide(s.(evs := s.evs + [ev], links := links), Step(srv, ev))
  {
    hide Step, Inv, Carried, Rank, Enabled, AgentLinkOk, FromClient;
    var ev := Receive(x, Capped(s.links[x].sent[s.links[x].taken]), order);
    var t := s.(evs := s.evs + [ev], links := s.links[x := s.links[x].(taken := s.links[x].taken + 1)]);
    StepInv(srv, ev);
    StepKeys(srv, ev);
    assert LinkOk(s, srv, x);
    CarriedSnoc(s.evs, s.links, ev, t.links);
    ReceiverOk(s, srv, x, order, t);
    forall y | y in t.links && y != x
      ensures LinkOk(t, Step(srv, ev), y)
    {
      LinkStays(s, srv, ev, t, y);
    }
  }

  // ---------------------------------------------------------------- one step of an agent

  lemma FrontIsPost(a: A.Agent)
    requires A.Conserved(a) && a.queue != []
    ensures 0 <= Front(a) < |a.accepted| && a.accepted[Front(a)] == a.queue[0]
  {
    hide A.QueuedOf, A.AllAccepted, A.AllWritten;
  }

  /** The queue moves on, and what is written, if anything, has just come to its front. */
  ghost predicate Advances(a: A.Agent, b: A.Agent, written: seq<Parcel>) {
    && a.accepted <= b.accepted
    && (b.queue != [] ==> if a.queue == [] then Front(b) >= |a.accepted| else Front(b) >= Front(a))
    && (written == [] || (b.queue != [] && written == [b.queue[0]] && (a.queue != [] ==> Front(b) > Front(a))))
  }

  lemma NoMoreWrites(ws: seq<A.Write>, w: A.Write)
    ensures ParcelsOf(ws[|ws|..]) == [] && ParcelsOf((ws + [w])[|ws|..]) == [w.parcel]
  {
    assert (ws + [w])[|ws|..] == [w];
  }

  lemma EnqueueAdvances(a: A.Agent, p: Parcel)
    requires A.Conserved(a)
    ensures var b := A.Enqueue(a, p);
            && b.accepted == a.accepted + [p] && |a.writes| <= |b.writes|
            && Advances(a, b, ParcelsOf(b.writes[|a.writes|..]))
  {
    hide A.QueuedOf, A.AllAccepted, A.AllWritten;
    var q := a.queue + [p];
    NoMoreWrites(a.writes, A.Queued(q[0]));
  }

  lemma SentAdvances(a: A.Agent)
    requires A.Conserved(a)
    ensures var b := A.Sent(a);
            && b.accepted == a.accepted && |a.writes| <= |b.writes|
            && Advances(a, b, ParcelsOf(b.writes[|a.writes|..]))
  {
    hide A.QueuedOf, A.AllAccepted, A.AllWritten;
    if a.queue != [] {
      NoMoreWrites(a.writes, A.Queued(if |a.queue| > 1 then a.queue[1] else a.queue[0]));
    } else {
      NoMoreWrites(a.writes, A.Queued(Parcel(0, 0, 0, 0, [], [])));
    }
  }

  lemma StepAdvances(a: A.Agent, ev: A.Event)
    requires A.Conserved(a) && (IsLocal(ev) || IsFailure(ev) || ev.ParcelRead?)
    ensures Advances(a, A.Step(a, ev), Written(a, ev))
    ensures IsFailure(ev) || ev.ParcelRead? ==> Written(a, ev) == []
  {
    hide A.Conserved, A.Enqueue, A.Sent;
    NoMoreWrites(a.writes, A.Queued(Parcel(0, 0, 0, 0, [], [])));
    match ev
    case Post(op, tag, msg, sec, frac) => EnqueueAdvances(a, Parcel(op, a.channelId, sec, frac, tag, msg));
    case PostEnd(t) =>
      if t in a.prepared {
        A.PreparedApart(a, a.prepared - {t});
        EnqueueAdvances(a.(prepared := a.prepared - {t}), a.prepared[t]);
      }
    case ParcelSent(ok) =>
      CompletedApart(a);
      SentAdvances(A.Completed(a));
    case _ =>
  }

  lemma CompletedApart(a: A.Agent)
    requires A.Conserved(a)
    ensures A.Conserved(A.Completed(a))
  {
    hide A.QueuedOf, A.AllAccepted, A.AllWritten;
  }

  lemma PastStays(n: nat, a: A.Agent, b: A.Agent, written: seq<Parcel>)
    requires Past(n, a) && Advances(a, b, written)
    ensures Past(n, b) && b.accepted[n] == a.accepted[n] && (written != [] ==> n < Front(b))
  {
  }

  /** A link that nothing is written to stays numbered. */
  lemma NumberedStays(link: Link, a: A.Agent, b: A.Agent, written: seq<Parcel>)
    requires Numbered(link, a) && Advances(a, b, written)
    ensures Numbered(link, b)
    ensures forall n :: n in link.from && written != [] ==> n < Front(b)
  {
    hide Advances;
    forall i | 0 <= i < |link.from|
      ensures Past(link.from[i], b) && link.sent[i+1] == b.accepted[link.from[i]]
      ensures written != [] ==> link.from[i] < Front(b)
    {
      PastStays(link.from[i], a, b, written);
    }
  }

  /** The link that a step writes to stays numbered. */
  lemma NumberedGrows(link: Link, a: A.Agent, ev: A.Event)
    requires Numbered(link, a) && Advances(a, A.Step(a, ev), Written(a, ev)) && A.Conserved(A.Step(a, ev))
    ensures Numbered(link.(sent := link.sent + Written(a, ev), from := link.from + Numbers(a, ev)), A.Step(a, ev))
  {
    hide A.Step, A.Conserved, Written;
    var b, w := A.Step(a, ev), Written(a, ev);
    NumberedStays(link, a, b, w);
    if w == [] {
      assert link.sent + w == link.sent && link.from + [] == link.from;
    } else {
      FrontIsPost(b);
      var from := link.from + [Front(b)];
      forall i, j | 0 <= i < j < |from|
        ensures from[i] < from[j]
      {
        assert link.from[i] in link.from;
      }
    }
  }

  lemma PublisherStep<C>(a: A.Agent, ev: A.Event, channels: seq<Channel<C>>, channel: Bytes)
    requires PublisherOk(a, channels, channel)
    requires IsLocal(ev) || IsFailure(ev) || ev.Connected? || ev.ParcelRead?
    requires ev.ParcelRead? && ev.parcel.op == REPLY_OK ==> Bears(channels, ev.parcel.id, channel)
    ensures PublisherOk(A.Step(a, ev), channels, channel)
  {
    hide A.Conserved, Bears;
    A.StepConserves(a, ev);
    AcceptsPosted(a, ev, channels, channel);
  }

  lemma AcceptsPosted<C>(a: A.Agent, ev: A.Event, channels: seq<Channel<C>>, channel: Bytes)
    requires PublisherOk(a, channels, channel) && (IsLocal(ev) || IsFailure(ev) || ev.Connected? || ev.ParcelRead?)
    ensures forall p :: p in A.Step(a, ev).accepted ==> Posted(p, channels, channel)
  {
    hide A.Conserved, Bears;
    var b := A.Step(a, ev);
    if b.accepted != a.accepted {
      var p := b.accepted[|a.accepted|];
      assert b.accepted == a.accepted + [p];
      assert Posted(p, channels, channel);
    }
  }

  // ---------------------------------------------------------------- actions of agents

  /** The other agents and their links do not notice a step of agent `k`. */
  lemma AgentStepOk<C>(s: System, channels: seq<Channel<C>>, k: nat, ev: A.Event, t: System)
    requires AgentSide(s, channels) && k < |s.publishers| && SameNames(s, t)
    requires forall j :: 0 <= j < |s.publishers| && j != k ==> t.publishers[j] == s.publishers[j]
    requires t.publishers[k].agent == A.Step(s.publishers[k].agent, ev)
    requires PublisherOk(t.publishers[k].agent, channels, t.publishers[k].channel) && SessionOk(t, k)
    requires forall x :: x in s.links ==> x in t.links && t.links[x].owner == s.links[x].owner
    requires forall x :: x in t.links && t.links[x].owner == AgentLink(k) ==>
               Numbered(t.links[x], t.publishers[k].agent)
    requires forall x :: x in t.links && t.links[x].owner != AgentLink(k) ==> x in s.links && t.links[x] == s.links[x]
    requires NoneTwice(t.links)
    ensures AgentSide(t, channels)
  {
    hide PublisherOk, Numbered, NoneTwice, A.Step;
    forall j | 0 <= j < |t.publishers|
      ensures PublisherOk(t.publishers[j].agent, channels, t.publishers[j].channel) && SessionOk(t, j)
    {
      assert SessionOk(s, j);
    }
    forall x | x in t.links
      ensures NumbersOk(t, x)
    {
      if t.links[x].owner != AgentLink(k) {
        assert NumbersOk(s, x);
      }
    }
  }

  /** A step that writes nothing, or writes it to no connection. */
  lemma NoLinkOk<C>(s: System, channels: seq<Channel<C>>, k: nat, ev: A.Event, session: Option<nat>)
    requires AgentSide(s, channels) && k < |s.publishers|
    requires IsLocal(ev) || IsFailure(ev) || ev.ParcelRead?
    requires ev.ParcelRead? && ev.parcel.op == REPLY_OK ==> Bears(channels, ev.parcel.id, s.publishers[k].channel)
    requires session == None || session == s.publishers[k].session
    ensures AgentSide(WithAgent(s, k, ev, session), channels)
  {
    hide NoneTwice, Numbered, PublisherOk, A.Step, A.Conserved, Advances, Written;
    var t, a, channel := WithAgent(s, k, ev, session), s.publishers[k].agent, s.publishers[k].channel;
    assert PublisherOk(a, channels, channel) && SessionOk(s, k);
    PublisherStep(a, ev, channels, channel);
    IsConserved(a, channels, channel);
    StepAdvances(a, ev);
    forall x | x in t.links && t.links[x].owner == AgentLink(k)
      ensures Numbered(t.links[x], t.publishers[k].agent)
    {
      assert NumbersOk(s, x);
      NumberedStays(s.links[x], a, A.Step(a, ev), Written(a, ev));
    }
    AgentStepOk(s, channels, k, ev, t);
  }

  lemma IsConserved<C>(a: A.Agent, channels: seq<Channel<C>>, channel: Bytes)
    requires PublisherOk(a, channels, channel)
    ensures A.Conserved(a)
  {
  }

  /** The post that a step writes has not gone out on any other connection. */
  lemma WrittenOnce<C>(s: System, channels: seq<Channel<C>>, k: nat, x: nat, ev: A.Event)
    requires AgentSide(s, channels) && k < |s.publishers| && x in s.links && s.links[x].owner == AgentLink(k)
    requires Advances(s.publishers[k].agent, A.Step(s.publishers[k].agent, ev), Written(s.publishers[k].agent, ev))
    ensures NoneTwice(InSession(s, k, x, ev).links)
  {
    hide PublisherOk, A.Step, Written, Advances, Numbered;
    var a := s.publishers[k].agent;
    var b, w, t := A.Step(a, ev), Written(a, ev), InSession(s, k, x, ev);
    forall y | y in s.links && s.links[y].owner == AgentLink(k)
      ensures forall n :: n in s.links[y].from && w != [] ==> n < Front(b)
    {
      assert NumbersOk(s, y);
      NumberedStays(s.links[y], a, b, w);
    }
    assert forall n :: n in t.links[x].from ==> n in s.links[x].from || (w != [] && n == Front(b));
  }

  lemma InSessionOk<C>(s: System, channels: seq<Channel<C>>, k: nat, x: nat, ev: A.Event)
    requires AgentSide(s, channels) && IsLocal(ev)
    requires k < |s.publishers| && s.publishers[k].session == Some(x) && x in s.links
    ensures AgentSide(InSession(s, k, x, ev), channels)
  {
    hide NoneTwice, Numbered, PublisherOk, A.Step, A.Conserved, Advances, Written, Numbers;
    var t, a, channel := InSession(s, k, x, ev), s.publishers[k].agent, s.publishers[k].channel;
    assert PublisherOk(a, channels, channel) && SessionOk(s, k);
    PublisherStep(a, ev, channels, channel);
    IsConserved(a, channels, channel);
    IsConserved(A.Step(a, ev), channels, channel);
    StepAdvances(a, ev);
    WrittenOnce(s, channels, k, x, ev);
    forall y | y in t.links && t.links[y].owner == AgentLink(k)
      ensures Numbered(t.links[y], t.publishers[k].agent)
    {
      assert NumbersOk(s, y);
      if y == x {
        NumberedGrows(s.links[x], a, ev);
      } else {
        NumberedStays(s.links[y], a, A.Step(a, ev), Written(a, ev));
      }
    }
    AgentStepOk(s, channels, k, ev, t);
  }

  lemma RequestKeeps(a: A.Agent, request: Parcel)
    ensures Advances(a, A.Step(a, A.Connected(true, request)), [])
  {
  }

  /** A new connection of agent `k`, on which the PUBLISH was written and nothing else. */
  lemma NewSessionOk<C>(s: System, channels: seq<Channel<C>>, k: nat, x: nat, request: Parcel, t: System)
    requires AgentSide(s, channels) && k < |s.publishers| && x !in s.links
    requires t == WithAgent(s, k, A.Connected(true, request), Some(x)).(
                    evs := t.evs, links := s.links[x := Link(AgentLink(k), [request], 0, [])])
    ensures AgentSide(t, channels)
  {
    hide Numbered, PublisherOk, A.Step, A.Conserved, Advances;
    var ev, a, channel := A.Connected(true, request), s.publishers[k].agent, s.publishers[k].channel;
    assert PublisherOk(a, channels, channel);
    PublisherStep(a, ev, channels, channel);
    RequestKeeps(a, request);
    forall y | y in t.links && t.links[y].owner == AgentLink(k)
      ensures Numbered(t.links[y], t.publishers[k].agent)
    {
      if y == x {
        NothingNumbered(t.links[x], t.publishers[k].agent);
      } else {
        assert NumbersOk(s, y);
        NumberedStays(s.links[y], a, A.Step(a, ev), []);
      }
    }
    AgentStepOk(s, channels, k, ev, t);
  }

  lemma NothingNumbered(link: Link, a: A.Agent)
    requires |link.sent| == 1 && link.from == []
    ensures Numbered(link, a)
  {
  }

  // ---------------------------------------------------------------- every run

  lemma BeginOk(bufsize: UInt32, maxchannels: UInt32, channels: seq<Bytes>)
    ensures SysInv(Begin(bufsize, maxchannels, channels), ServerOf(Begin(bufsize, maxchannels, channels)))
  {
    var s := Begin(bufsize, maxchannels, channels);
    assert ServerOf(s) == Initial(bufsize, maxchannels);
    InitialInv<nat>(bufsize, maxchannels);
    A.StartConserved();
  }

  lemma SameServer(s: System, t: System)
    requires t.bufsize == s.bufsize && t.maxchannels == s.maxchannels && t.evs == s.evs
    ensures ServerOf(t) == ServerOf(s)
  {
  }

  /** Only agents changed. */
  lemma ServerSideStays(s: System, srv: Server<nat>, t: System)
    requires ServerSide(s, srv) && SameNames(s, t) && t.evs == s.evs && t.links == s.links
    ensures ServerSide(t, srv)
  {
    hide Inv, AllCarried, LinkOk;
    forall x | x in t.links
      ensures LinkOk(t, srv, x)
    {
      SameLinkOk(s, srv, x, t);
    }
  }

  /** The first parcel back to an agent grants its channel, if any. */
  lemma AnswerGrants(s: System, srv: Server<nat>, k: nat, x: nat)
    requires ServerSide(s, srv) && k < |s.publishers| && x in s.links && s.links[x].owner == AgentLink(k)
    ensures x in srv.conns
    ensures srv.conns[x].out != [] && srv.conns[x].out[0].op == REPLY_OK ==>
              Bears(srv.channels, srv.conns[x].out[0].id, s.publishers[k].channel)
  {
    hide Inv, Carried, Rank, Bears;
    assert LinkOk(s, srv, x);
  }

  lemma KnownSession<C>(s: System, channels: seq<Channel<C>>, k: nat)
    requires AgentSide(s, channels) && k < |s.publishers|
    ensures SessionOk(s, k)
  {
    hide PublisherOk, NumbersOk, NoneTwice, SessionOk;
  }

  lemma AgentConnectsOk(s: System, act: Action)
    requires SysInv(s, ServerOf(s)) && act.AgentConnects?
    ensures SysInv(Do(s, act), ServerOf(Do(s, act)))
  {
    hide ServerSide, AgentSide, Run, Step, A.Step;
    var k, x, t, srv := act.k, act.x, Do(s, act), ServerOf(s);
    if k < |s.publishers| && s.publishers[k].session == None && x !in s.links {
      var request := Parcel(PUBLISH, act.id, act.timestamp1, act.timestamp2, s.publishers[k].channel, []);
      ServerSnoc(s, Accept(x), t);
      ConnectsOk(s, srv, x, Link(AgentLink(k), [request], 0, []), t);
      NewSessionOk(s, srv.channels, k, x, request, t);
      NamesStay(srv, Accept(x), t, s);
    }
  }

  /** The agents' side only looks at the names of channels, and a server step keeps those. */
  lemma NamesStay(srv: Server<nat>, ev: Event<nat>, t: System, s: System)
    requires ServerSide(s, srv) && AgentSide(t, srv.channels)
    ensures AgentSide(t, Step(srv, ev).channels)
  {
    hide Step, Inv, AllCarried, LinkOk, AgentSide;
    StepExtends(srv, ev);
    AgentsStay(t, srv.channels, t, Step(srv, ev).channels);
  }

  lemma AgentActionOk(s: System, act: Action)
    requires SysInv(s, ServerOf(s))
    requires act.AgentSteps? || act.AgentReads? || act.AgentFails?
    ensures SysInv(Do(s, act), ServerOf(Do(s, act)))
  {
    hide ServerSide, AgentSide, Run, A.Step, Written, Numbers, Bears;
    var k, t, srv := act.k, Do(s, act), ServerOf(s);
    SameServer(s, t);
    if k < |s.publishers| {
      KnownSession(s, srv.channels, k);
      match act
      case AgentSteps(_, ev) =>
        if IsLocal(ev) {
          match s.publishers[k].session
          case None =>
            NoLinkOk(s, srv.channels, k, ev, None);
            ServerSideStays(s, srv, t);
          case Some(x) =>
            InSessionOk(s, srv.channels, k, x, ev);
            SendsOk(s, srv, x, Written(s.publishers[k].agent, ev), t.links[x].from, t);
        }
      case AgentReads(_) =>
        if s.publishers[k].session.Some? && !s.publishers[k].agent.loggable {
          var x := s.publishers[k].session.value;
          AnswerGrants(s, srv, k, x);
          if srv.conns[x].out != [] {
            var p := Capped(srv.conns[x].out[0]);
            NoLinkOk(s, srv.channels, k, A.ParcelRead(p), if p.op == REPLY_OK then Some(x) else None);
            ServerSideStays(s, srv, t);
          }
        }
      case AgentFails(_, ev) =>
        if IsFailure(ev) {
          NoLinkOk(s, srv.channels, k, ev, None);
          ServerSideStays(s, srv, t);
        }
    }
  }

  lemma OtherActionOk(s: System, act: Action)
    requires SysInv(s, ServerOf(s))
    requires act.ClientConnects? || act.ClientSends? || act.ServerReceives? || act.ServerDrops?
    ensures SysInv(Do(s, act), ServerOf(Do(s, act)))
  {
    hide ServerSide, AgentSide, Run, Step, Enabled, FromClient;
    var x, t, srv := act.x, Do(s, act), ServerOf(s);
    match act
    case ClientConnects(_) =>
      if x !in s.links {
        ServerSnoc(s, Accept(x), t);
        ConnectsOk(s, srv, x, Link(ClientLink, [], 0, []), t);
        AgentsStay(s, srv.channels, t, srv.channels);
        NamesStay(srv, Accept(x), t, s);
      }
    case ClientSends(_, p) =>
      SameServer(s, t);
      if x in s.links && s.links[x].owner == ClientLink && FromClient(p.op) {
        SendsOk(s, srv, x, [p], s.links[x].from, t);
        AgentsStay(s, srv.channels, t, srv.channels);
      }
    case ServerReceives(_, order) =>
      if x in s.links && s.links[x].taken < |s.links[x].sent| {
        var ev := Receive(x, Capped(s.links[x].sent[s.links[x].taken]), order);
        if Enabled(srv, ev) {
          ServerSnoc(s, ev, t);
          ReceivesOk(s, srv, x, order);
          AgentsStay(s, srv.channels, t, srv.channels);
          NamesStay(srv, ev, t, s);
        }
      }
    case ServerDrops(_) =>
      if Enabled(srv, Disconnect(x)) {
        ServerSnoc(s, Disconnect(x), t);
        DropsOk(s, srv, x);
        AgentsStay(s, srv.channels, t, srv.channels);
        NamesStay(srv, Disconnect(x), t, s);
      }
  }

  lemma {:induction false} AlwaysOk(bufsize: UInt32, maxchannels: UInt32, channels: seq<Bytes>, acts: seq<Action>)
    ensures var s := DoAll(Begin(bufsize, maxchannels, channels), acts);
            SysInv(s, ServerOf(s))
    decreases |acts|
  {
    hide SysInv, Do, ServerOf, Begin;
    if acts == [] {
      BeginOk(bufsize, maxchannels, channels);
    } else {
      var n := |acts| - 1;
      AlwaysOk(bufsize, maxchannels, channels, acts[..n]);
      var s := DoAll(Begin(bufsize, maxchannels, channels), acts[..n]);
      match acts[n]
      case AgentConnects(_, _, _, _, _) => AgentConnectsOk(s, acts[n]);
      case AgentSteps(_, _) => AgentActionOk(s, acts[n]);
      case AgentReads(_) => AgentActionOk(s, acts[n]);
      case AgentFails(_, _) => AgentActionOk(s, acts[n]);
      case _ => OtherActionOk(s, acts[n]);
    }
  }
}
