/** From the posts of agents to the events of subscribers. */
module EndToEnd {
  import opened Wire
  import opened ServerModel
  import opened ServerProofs
  import opened Demux
  import opened Convergence
  import opened Subscriber
  import opened System
  import opened Calls
  import A = AgentModel

  /** A post as it went out: the connection, and which of the posts the agent ever accepted. */
  datatype Source = Source(session: nat, index: nat)

  /** What client `y` was sent for channel `id`, seen as a cell. */
  ghost function CellOf(s: System, id: UInt32, y: nat): Cell {
    Replay(Trace(Initial(s.bufsize, s.maxchannels), s.evs, id, y), id, s.bufsize)
  }

  /** The logs among what client `y` was sent for the channel since it last attached. */
  ghost function LogsSinceAttach(s: System, id: UInt32, y: nat): seq<Parcel> {
    var cell := CellOf(s, id, y);
    if cell.mark <= |cell.out| then Logs(cell.out[cell.mark..]) else []
  }

  ghost function SourceOf(s: System, e: nat): Source
    requires e < |s.evs|
  {
    var x := s.evs[e].conn;
    var r := Rank(s.evs[..e], x);
    Source(x, if x in s.links && 0 < r <= |s.links[x].from| then s.links[x].from[r-1] else 0)
  }

  ghost function Sources(s: System, id: UInt32, y: nat): seq<Source> {
    var js := Heard(Trace(Initial(s.bufsize, s.maxchannels), s.evs, id, y), id, s.bufsize);
    if forall n :: 0 <= n < |js| ==> js[n] < |s.evs|
        then seq(|js|, n requires 0 <= n < |js| => SourceOf(s, js[n])) else []
  }

  /** The connection is an agent's, and the agent accepted such a post for the channel of its name. */
  ghost predicate Accepted(s: System, id: UInt32, src: Source, post: Parcel) {
    && src.session in s.links && s.links[src.session].owner.AgentLink?
    && s.links[src.session].owner.k < |s.publishers|
    && var pub := s.publishers[s.links[src.session].owner.k];
    && src.index < |pub.agent.accepted| && post == pub.agent.accepted[src.index]
    && post.id == id && NulFree(post)
    && Bears(ServerOf(s).channels, id, pub.channel)
  }

  /** The parcel is the capped form of a post that an agent accepted for this channel, and the
      channel bears the agent's name. */
  ghost predicate FromPost(s: System, id: UInt32, p: Parcel, src: Source) {
    exists post :: Accepted(s, id, src, post) && p == Capped(post)
  }

  lemma {:induction false} TraceAt(s0: Server<nat>, evs: seq<Event<nat>>, id: UInt32, y: nat, j: nat)
    requires j < |evs|
    ensures Trace(s0, evs, id, y)[j] == ActOf(Run(s0, evs[..j]), evs[j], id, y)
    decreases |evs|
  {
    hide ActOf, Run;
    var n := |evs| - 1;
    var before := Trace(s0, evs[..n], id, y);
    assert Trace(s0, evs, id, y)[j] == if j < n then before[j] else ActOf(Run(s0, evs[..n]), evs[n], id, y);
    if j < n {
      TraceAt(s0, evs[..n], id, y, j);
      assert evs[..n][..j] == evs[..j];
    }
  }

  lemma UpdateIsReceived(srv: Server<nat>, ev: Event<nat>, id: UInt32, y: nat)
    requires ActOf(srv, ev, id, y).Update?
    ensures ev.Receive? && ev.parcel == ActOf(srv, ev, id, y).parcel && ev.parcel.id == id
  {
  }

  lemma DataNotFromClient(p: Parcel, q: Parcel)
    requires p == Capped(q) && IsData(p)
    ensures !FromClient(q.op) && q.op != PUBLISH && q.id == p.id
  {
  }

  /** What an agent's connection carried after its first parcel are posts it accepted. */
  lemma SentWasPosted(s: System, x: nat, r: nat)
    requires SysInv(s, ServerOf(s)) && x in s.links && s.links[x].owner.AgentLink? && 0 < r < |s.links[x].sent|
    ensures r <= |s.links[x].from|
    ensures Accepted(s, s.links[x].sent[r].id, Source(x, s.links[x].from[r-1]), s.links[x].sent[r])
  {
    hide ServerSide, Run, NoneTwice, SessionOk, A.Conserved, CStr, Cap;
    assert NumbersOk(s, x);
    var link, pub := s.links[x], s.publishers[s.links[x].owner.k];
    assert PublisherOk(pub.agent, ServerOf(s).channels, pub.channel);
    assert link.sent[r] == pub.agent.accepted[link.from[r-1]];
    assert Posted(link.sent[r], ServerOf(s).channels, pub.channel);
  }

  /** A data parcel that was received came from an agent, and not first. */
  lemma ReceivedFromAgent(s: System, e: nat)
    requires SysInv(s, ServerOf(s)) && e < |s.evs| && s.evs[e].Receive? && IsData(s.evs[e].parcel)
    ensures var x := s.evs[e].conn;
            var r := Rank(s.evs[..e], x);
            && x in s.links && s.links[x].owner.AgentLink? && 0 < r < |s.links[x].sent|
            && s.evs[e].parcel == Capped(s.links[x].sent[r])
  {
    hide AgentSide, Inv, Rank, Run, IsData, Cap, FromClient, Bears;
    assert Carried(s.evs, e, s.links);
    var x := s.evs[e].conn;
    var link, r := s.links[x], Rank(s.evs[..e], x);
    DataNotFromClient(s.evs[e].parcel, link.sent[r]);
    assert LinkOk(s, ServerOf(s), x);
    assert link.sent[r] in link.sent;
  }

  /** The event is the receipt of a numbered parcel of an agent. */
  ghost predicate Shipped(s: System, e: nat)
    requires e < |s.evs|
  {
    && s.evs[e].Receive? && s.evs[e].conn in s.links && s.links[s.evs[e].conn].owner.AgentLink?
    && 0 < Rank(s.evs[..e], s.evs[e].conn) <= |s.links[s.evs[e].conn].from|
  }

  /** A log or a register that the channel took was posted. */
  lemma TakenWasPosted(s: System, id: UInt32, y: nat, j: nat)
    requires SysInv(s, ServerOf(s)) && j < |s.evs|
    requires var a := Trace(Initial(s.bufsize, s.maxchannels), s.evs, id, y)[j]; a.Update? && IsData(a.parcel)
    ensures Shipped(s, j)
    ensures FromPost(s, id, s.evs[j].parcel, SourceOf(s, j))
    ensures s.evs[j].parcel == Trace(Initial(s.bufsize, s.maxchannels), s.evs, id, y)[j].parcel
  {
    hide SysInv, Rank, Run, Trace, ActOf, IsData, Accepted, Cap;
    var s0 := Initial<nat>(s.bufsize, s.maxchannels);
    TraceAt(s0, s.evs, id, y, j);
    UpdateIsReceived(Run(s0, s.evs[..j]), s.evs[j], id, y);
    ReceivedFromAgent(s, j);
    var x := s.evs[j].conn;
    SentWasPosted(s, x, Rank(s.evs[..j], x));
  }

  lemma {:induction false} RankGrows(evs: seq<Event<nat>>, i: nat, j: nat, x: nat)
    requires i < j <= |evs| && evs[i].Receive? && evs[i].conn == x
    ensures Rank(evs[..i], x) < Rank(evs[..j], x)
    decreases j
  {
    assert evs[..j] == evs[..j-1] + [evs[j-1]];
    RankSnoc(evs[..j-1], evs[j-1], x);
    if i < j - 1 {
      RankGrows(evs, i, j - 1, x);
    }
  }

  /** The two went out on connections of one agent and are the same post. */
  ghost predicate SamePost(s: System, a: Source, b: Source) {
    && a.session in s.links && b.session in s.links
    && s.links[a.session].owner == s.links[b.session].owner && a.index == b.index
  }

  /** Within each session the posts come in order, and no post comes twice, over all sessions. */
  ghost predicate InOrder(s: System, srcs: seq<Source>, n: nat)
    requires n <= |srcs|
  {
    && (forall i, j :: 0 <= i < j < n && srcs[i].session == srcs[j].session ==> srcs[i].index < srcs[j].index)
    && (forall i, j :: 0 <= i < j < n ==> !SamePost(s, srcs[i], srcs[j]))
  }

  /** `heard` matches `srcs` one to one, in order. */
  ghost predicate Sourced(s: System, id: UInt32, heard: seq<Parcel>, srcs: seq<Source>) {
    && |srcs| == |heard|
    && (forall n :: 0 <= n < |heard| ==> FromPost(s, id, heard[n], srcs[n]))
    && InOrder(s, srcs, |srcs|)
  }

  /** In every run of any agents, one server and any subscribers: the logs that a connection was sent
      for a channel since it last attached are posts that agents of that channel's name accepted,
      capped; those that went out in one session come in the order in which the agent accepted them; no
      post is among them twice; and there is nothing else among them. */
  lemma {:induction false} SentArePosts(bufsize: UInt32, maxchannels: UInt32, channels: seq<Bytes>,
                                        acts: seq<Action>, id: UInt32, y: nat)
    ensures var s := DoAll(Begin(bufsize, maxchannels, channels), acts);
            y in ServerOf(s).conns ==>
              && DataFor(ServerOf(s).conns[y].out, id) == CellOf(s, id, y).out
              && CellOf(s, id, y).mark <= |CellOf(s, id, y).out|
              && Sourced(s, id, LogsSinceAttach(s, id, y), Sources(s, id, y))
  {
    hide Do, ServerOf, SysInv, CellOf, LogsSinceAttach, Sources, Sourced;
    AlwaysOk(bufsize, maxchannels, channels, acts);
    var s := DoAll(Begin(bufsize, maxchannels, channels), acts);
    if y in ServerOf(s).conns {
      HeardIsSourced(s, id, y);
    }
  }

  lemma HeardIsSourced(s: System, id: UInt32, y: nat)
    requires SysInv(s, ServerOf(s))
    requires y in ServerOf(s).conns
    ensures DataFor(ServerOf(s).conns[y].out, id) == CellOf(s, id, y).out
    ensures CellOf(s, id, y).mark <= |CellOf(s, id, y).out|
    ensures Sourced(s, id, LogsSinceAttach(s, id, y), Sources(s, id, y))
  {
    hide SysInv, Run, Trace, Replay, Heard, DataFor, Logs, FromPost, SourceOf, IsLog, Rank;
    var s0 := Initial<nat>(s.bufsize, s.maxchannels);
    var trace := Trace(s0, s.evs, id, y);
    Demultiplexed(s.bufsize, s.maxchannels, s.evs, id, y);
    TracePlausible(s0, s.evs, id, y);
    HeardExactly(trace, id, s.bufsize);
    var js := Heard(trace, id, s.bufsize);
    forall n | 0 <= n < |js|
      ensures FromPost(s, id, trace[js[n]].parcel, SourceOf(s, js[n]))
    {
      TakenWasPosted(s, id, y, js[n]);
    }
    forall m, n | 0 <= m < n < |js|
      ensures var a, b := SourceOf(s, js[m]), SourceOf(s, js[n]);
              (a.session == b.session ==> a.index < b.index) && !SamePost(s, a, b)
    {
      TakenWasPosted(s, id, y, js[m]);
      TakenWasPosted(s, id, y, js[n]);
      SourcesGrow(s, js[m], js[n]);
    }
  }

  lemma SourcesGrow(s: System, i: nat, j: nat)
    requires SysInv(s, ServerOf(s)) && i < j < |s.evs| && Shipped(s, i) && Shipped(s, j)
    ensures var a, b := SourceOf(s, i), SourceOf(s, j);
            (a.session == b.session ==> a.index < b.index) && !SamePost(s, a, b)
  {
    hide ServerSide, Run, PublisherOk, SessionOk, Rank;
    var x, y := s.evs[i].conn, s.evs[j].conn;
    if x == y {
      RankGrows(s.evs, i, j, x);
      assert NumbersOk(s, x);
    } else {
      assert SourceOf(s, i).index in s.links[x].from && SourceOf(s, j).index in s.links[y].from;
    }
  }

  // ---------------------------------------------------------------- what a subscriber's callback is told

  /** The log events for one channel among all the events a callback was given. */
  function LogEventsFor(events: seq<ClientEvent>, id: UInt32): seq<ClientEvent>
    decreases |events|
  {
    if events == [] then []
    else
      var e := events[|events|-1];
      LogEventsFor(events[..|events|-1], id) + if e.LogEvent? && e.id == id then [e] else []
  }

  function Told(p: Parcel): ClientEvent { LogEvent(p.id, p.op, p.timestamp1, p.timestamp2, CStr(p.str1), CStr(p.str2)) }

  function ToldAll(ps: seq<Parcel>): (es: seq<ClientEvent>)
    ensures |es| == |ps|
  {
    seq(|ps|, k requires 0 <= k < |ps| => Told(ps[k]))
  }

  lemma LogEventsSnoc(events: seq<ClientEvent>, more: seq<ClientEvent>, id: UInt32)
    requires |more| <= 1
    ensures LogEventsFor(events + more, id) ==
              LogEventsFor(events, id) + if |more| == 1 && more[0].LogEvent? && more[0].id == id then more else []
  {
    if more == [] {
      assert events + more == events;
    } else {
      assert (events + more)[..|events + more|-1] == events;
      assert more == [more[0]];
    }
  }

  lemma ToldSnoc(ps: seq<Parcel>, p: Parcel)
    ensures ToldAll(ps + [p]) == ToldAll(ps) + [Told(p)]
  {
    hide Told;
  }

  /** What one more parcel adds to the events told of, and to the logs read. */
  lemma ToldNext(events: seq<ClientEvent>, p: Parcel, id: UInt32)
    ensures LogEventsFor(events + EventsOf(p), id) ==
              LogEventsFor(events, id) + if IsLog(p) && p.id == id then [Told(p)] else []
  {
    hide CStr, LogEventsFor;
    LogEventsSnoc(events, EventsOf(p), id);
  }

  lemma LogsNext(ps: seq<Parcel>, p: Parcel, id: UInt32)
    ensures Logs(DataFor(ps + [p], id)) == Logs(DataFor(ps, id)) + if IsLog(p) && p.id == id then [p] else []
  {
    hide Logs, DataFor;
    DataSnoc(ps, p, id);
    LogsSnoc(DataFor(ps, id), p);
    assert Logs(DataFor(ps, id)) + [] == Logs(DataFor(ps, id));
  }

  /** The log events for a channel tell of the logs for it that were read, one for one, in order. */
  lemma {:induction false} EventsAreLogs(ps: seq<Parcel>, id: UInt32)
    ensures LogEventsFor(Notified(ps), id) == ToldAll(Logs(DataFor(ps, id)))
    decreases |ps|
  {
    hide EventsOf, LogEventsFor, Told, ToldAll, Logs, DataFor, IsLog;
    if ps == [] {
      NoEvents(id);
    } else {
      var n := |ps| - 1;
      var p, logs := ps[n], Logs(DataFor(ps[..n], id));
      EventsAreLogs(ps[..n], id);
      ToldNext(Notified(ps[..n]), p, id);
      assert ps == ps[..n] + [p];
      LogsNext(ps[..n], p, id);
      ToldSnoc(logs, p);
      assert logs + [] == logs && ToldAll(logs) + [] == ToldAll(logs);
    }
  }

  lemma NoEvents(id: UInt32)
    ensures LogEventsFor(Notified([]), id) == ToldAll(Logs(DataFor([], id)))
  {
  }

  lemma CappedSnoc(ps: seq<Parcel>, p: Parcel)
    ensures CappedAll(ps + [p]) == CappedAll(ps) + [Capped(p)]
  {
    hide Cap;
  }

  /** The transport's cap commutes with choosing the logs of one channel. */
  lemma {:induction false} LogsCapped(ps: seq<Parcel>, id: UInt32)
    ensures Logs(DataFor(CappedAll(ps), id)) == CappedAll(Logs(DataFor(ps, id)))
    decreases |ps|
  {
    hide Cap, CappedAll, Logs, DataFor;
    if ps == [] {
      NothingCapped(id);
    } else {
      var n := |ps| - 1;
      var p, logs := ps[n], Logs(DataFor(ps[..n], id));
      LogsCapped(ps[..n], id);
      assert ps == ps[..n] + [p];
      CappedSnoc(ps[..n], p);
      LogsNext(ps[..n], p, id);
      LogsNext(CappedAll(ps[..n]), Capped(p), id);
      CappedSnoc(logs, p);
      assert logs + [] == logs && CappedAll(logs) + [] == CappedAll(logs);
    }
  }

  lemma NothingCapped(id: UInt32)
    ensures Logs(DataFor(CappedAll([]), id)) == CappedAll(Logs(DataFor([], id)))
  {
  }

  /** What has been read so far is a beginning of what was sent. */
  lemma ReadIsPrefix(out: seq<Parcel>, n: nat, id: UInt32)
    requires n <= |out|
    ensures Logs(DataFor(out[..n], id)) <= Logs(DataFor(out, id))
  {
    hide IsData, IsLog, DataFor, Logs;
    assert out == out[..n] + out[n..];
    DataAppend(out[..n], out[n..], id);
    LogsAppend(DataFor(out[..n], id), DataFor(out[n..], id));
  }

  /** How many logs the connection was sent for the channel before it last attached. */
  ghost function SentBefore(s: System, id: UInt32, y: nat): nat {
    var cell := CellOf(s, id, y);
    if cell.mark <= |cell.out| then |Logs(cell.out[..cell.mark])| else 0
  }

  /** The log events that a callback got for channel `id` since the connection last attached, when
      the client has read the first `n` parcels sent to it. */
  ghost function ToldSinceAttach(s: System, id: UInt32, y: nat, n: nat): seq<ClientEvent>
    requires y in ServerOf(s).conns && n <= |ServerOf(s).conns[y].out|
  {
    var told := LogEventsFor(Notified(CappedAll(ServerOf(s).conns[y].out[..n])), id);
    if SentBefore(s, id, y) <= |told| then told[SentBefore(s, id, y)..] else []
  }

  /** The event tells of a post that an agent accepted for the channel of its name. */
  ghost predicate TellsOf(s: System, id: UInt32, e: ClientEvent, src: Source) {
    exists post :: Accepted(s, id, src, post)
      && e == LogEvent(id, post.op, post.timestamp1, post.timestamp2, Cap(post.str1), Cap(post.str2))
  }

  ghost predicate AllTold(s: System, id: UInt32, told: seq<ClientEvent>, srcs: seq<Source>) {
    && |told| <= |srcs|
    && (forall m :: 0 <= m < |told| ==> TellsOf(s, id, told[m], srcs[m]))
    && InOrder(s, srcs, |told|)
  }

  lemma CappedOnce(p: Parcel)
    ensures Capped(Capped(p)) == Capped(p)
    ensures NulFree(p) ==> CStr(Capped(p).str1) == Cap(p.str1) && CStr(Capped(p).str2) == Cap(p.str2)
  {
    hide CStr;
  }

  lemma ToldOfPost(s: System, id: UInt32, p: Parcel, src: Source)
    requires FromPost(s, id, p, src)
    ensures TellsOf(s, id, Told(Capped(p)), src)
  {
    var post :| Accepted(s, id, src, post) && p == Capped(post);
    AcceptedPlain(s, id, src, post);
    hide Accepted, CStr, Cap, NulFree;
    CappedOnce(post);
  }

  lemma AcceptedPlain(s: System, id: UInt32, src: Source, post: Parcel)
    requires Accepted(s, id, src, post)
    ensures post.id == id && NulFree(post)
  {
  }

  /** The events are those of a beginning of the logs sent since the connection last attached. */
  lemma ToldArePrefix(s: System, id: UInt32, y: nat, n: nat)
    requires y in ServerOf(s).conns && n <= |ServerOf(s).conns[y].out|
    requires DataFor(ServerOf(s).conns[y].out, id) == CellOf(s, id, y).out
               && CellOf(s, id, y).mark <= |CellOf(s, id, y).out|
    ensures var told, logs := ToldSinceAttach(s, id, y, n), LogsSinceAttach(s, id, y);
            && |told| <= |logs|
            && (forall m :: 0 <= m < |told| ==> told[m] == Told(Capped(logs[m])))
            && (n == |ServerOf(s).conns[y].out| ==> |told| == |logs|)
  {
    hide ServerOf, CellOf, Logs, DataFor, LogEventsFor, Notified, Told, Capped;
    var cell, out := CellOf(s, id, y), ServerOf(s).conns[y].out;
    LogsAppend(cell.out[..cell.mark], cell.out[cell.mark..]);
    assert cell.out == cell.out[..cell.mark] + cell.out[cell.mark..];
    EventsAreLogs(CappedAll(out[..n]), id);
    LogsCapped(out[..n], id);
    ReadIsPrefix(out, n, id);
    if n == |out| {
      assert out[..n] == out;
    }
  }

  /** The log events that a callback got for a channel since the connection last attached tell of
      accepted posts, in order of acceptance within a session, none twice. */
  lemma {:induction false} EventsAreAccepted(bufsize: UInt32, maxchannels: UInt32, channels: seq<Bytes>,
                                             acts: seq<Action>, id: UInt32, y: nat, n: nat)
    ensures var s := DoAll(Begin(bufsize, maxchannels, channels), acts);
            y in ServerOf(s).conns && n <= |ServerOf(s).conns[y].out| ==>
              && AllTold(s, id, ToldSinceAttach(s, id, y, n), Sources(s, id, y))
              && (n == |ServerOf(s).conns[y].out| ==>
                    |ToldSinceAttach(s, id, y, n)| == |LogsSinceAttach(s, id, y)| == |Sources(s, id, y)|)
  {
    hide DoAll, Begin, ServerOf, CellOf, LogsSinceAttach, ToldSinceAttach, Sources, TellsOf, FromPost, Told, Capped;
    SentArePosts(bufsize, maxchannels, channels, acts, id, y);
    var s := DoAll(Begin(bufsize, maxchannels, channels), acts);
    if y in ServerOf(s).conns && n <= |ServerOf(s).conns[y].out| {
      ToldArePrefix(s, id, y, n);
      var told, logs, srcs := ToldSinceAttach(s, id, y, n), LogsSinceAttach(s, id, y), Sources(s, id, y);
      forall m | 0 <= m < |told|
        ensures TellsOf(s, id, told[m], srcs[m])
      {
        assert FromPost(s, id, logs[m], srcs[m]);
        ToldOfPost(s, id, logs[m], srcs[m]);
      }
    }
  }

  // ---------------------------------------------------------------- from calls to events

  /** The action that made the post: its position in the run. */
  ghost function CallAt(s0: System, acts: seq<Action>, src: Source): nat {
    var s := DoAll(s0, acts);
    if src.session in s.links && s.links[src.session].owner.AgentLink? then
      var posted := LedgerOf(s0, acts, s.links[src.session].owner.k).posted;
      if src.index < |posted| then posted[src.index] else 0
    else 0
  }

  /** The event tells of the call: its priority, time, tag and message, the strings cut. */
  predicate TellsCall(call: A.Event, id: UInt32, e: ClientEvent) {
    match call
    case Post(op, tag, msg, sec, frac) => e == LogEvent(id, op, sec, frac, Cap(tag), Cap(msg))
    case PostFill(_, op, tag, msg, sec, frac) => e == LogEvent(id, op, sec, frac, Cap(tag), Cap(msg))
    case _ => false
  }

  /** The `n`-th action is a post by an agent whose name is that of the channel, and the event tells of it. */
  ghost predicate TellsOfCall(s: System, acts: seq<Action>, channels: seq<Bytes>, n: nat, id: UInt32, e: ClientEvent) {
    && n < |acts| && acts[n].AgentSteps? && TellsCall(acts[n].ev, id, e)
    && acts[n].k < |channels| && Bears(ServerOf(s).channels, id, channels[acts[n].k])
  }

  lemma CallTold(call: A.Event, p: Parcel, id: UInt32)
    requires Makes(call, p)
    ensures TellsCall(call, id, LogEvent(id, p.op, p.timestamp1, p.timestamp2, Cap(p.str1), Cap(p.str2)))
  {
    hide Cap;
  }

  /** The call of an accepted post. */
  lemma AcceptedCall(bufsize: UInt32, maxchannels: UInt32, channels: seq<Bytes>, acts: seq<Action>,
                     id: UInt32, src: Source, post: Parcel)
    requires Accepted(DoAll(Begin(bufsize, maxchannels, channels), acts), id, src, post)
    ensures var s0 := Begin(bufsize, maxchannels, channels);
            var s, n := DoAll(s0, acts), CallAt(s0, acts, src);
            && n < |acts| && acts[n].AgentSteps? && Makes(acts[n].ev, post)
            && acts[n].k < |channels| && Bears(ServerOf(s).channels, id, channels[acts[n].k])
            && AgentLink(acts[n].k) == s.links[src.session].owner
  {
    hide DoAll, Begin, LedgerOf, ServerOf, Bears, Makes, Distinct, Before;
    var s := DoAll(Begin(bufsize, maxchannels, channels), acts);
    PostsAreCalls(bufsize, maxchannels, channels, acts, s.links[src.session].owner.k);
  }

  lemma ToldCall(bufsize: UInt32, maxchannels: UInt32, channels: seq<Bytes>, acts: seq<Action>,
                 id: UInt32, e: ClientEvent, src: Source)
    requires TellsOf(DoAll(Begin(bufsize, maxchannels, channels), acts), id, e, src)
    ensures var s0 := Begin(bufsize, maxchannels, channels);
            TellsOfCall(DoAll(s0, acts), acts, channels, CallAt(s0, acts, src), id, e)
  {
    hide DoAll, Begin, ServerOf, Bears, Makes, Accepted, CallAt, Cap;
    var s := DoAll(Begin(bufsize, maxchannels, channels), acts);
    var post :| Accepted(s, id, src, post)
      && e == LogEvent(id, post.op, post.timestamp1, post.timestamp2, Cap(post.str1), Cap(post.str2));
    AcceptedCall(bufsize, maxchannels, channels, acts, id, src, post);
    CallTold(acts[CallAt(Begin(bufsize, maxchannels, channels), acts, src)].ev, post, id);
  }

  /** Different posts are different calls. */
  lemma CallsDiffer(bufsize: UInt32, maxchannels: UInt32, channels: seq<Bytes>, acts: seq<Action>,
                    id: UInt32, a: Source, b: Source, post: Parcel, other: Parcel)
    requires var s := DoAll(Begin(bufsize, maxchannels, channels), acts);
             Accepted(s, id, a, post) && Accepted(s, id, b, other) && !SamePost(s, a, b)
    ensures var s0 := Begin(bufsize, maxchannels, channels);
            CallAt(s0, acts, a) != CallAt(s0, acts, b)
  {
    hide DoAll, Begin, LedgerOf, ServerOf, Bears, Makes, Before;
    var s := DoAll(Begin(bufsize, maxchannels, channels), acts);
    AcceptedCall(bufsize, maxchannels, channels, acts, id, a, post);
    AcceptedCall(bufsize, maxchannels, channels, acts, id, b, other);
    PostsAreCalls(bufsize, maxchannels, channels, acts, s.links[a.session].owner.k);
  }

  /** End to end, in every run of any agents, one server and any subscribers over transports that
      deliver in order: each log event that a subscriber's callback gets for a channel since it last
      attached tells of a call of `post` in that run, by an agent that publishes under that channel's
      name: the event has the priority, time, tag and message of the call, the strings cut.  No two tell
      of the same call; those of one session come in the order in which the agent accepted them; and once
      the client has read all it was sent, there is one for each log sent. */
  lemma {:induction false} EventsArePosts(bufsize: UInt32, maxchannels: UInt32, channels: seq<Bytes>,
                                          acts: seq<Action>, id: UInt32, y: nat, n: nat)
    ensures var s0 := Begin(bufsize, maxchannels, channels);
            var s := DoAll(s0, acts);
            y in ServerOf(s).conns && n <= |ServerOf(s).conns[y].out| ==>
              var told, srcs := ToldSinceAttach(s, id, y, n), Sources(s, id, y);
              && AllTold(s, id, told, srcs)
              && (forall m :: 0 <= m < |told| ==>
                    TellsOfCall(s, acts, channels, CallAt(s0, acts, srcs[m]), id, told[m]))
              && (forall l, m :: 0 <= l < m < |told| ==> CallAt(s0, acts, srcs[l]) != CallAt(s0, acts, srcs[m]))
              && (n == |ServerOf(s).conns[y].out| ==> |told| == |LogsSinceAttach(s, id, y)| == |srcs|)
  {
    hide DoAll, Begin, ServerOf, ToldSinceAttach, Sources, LogsSinceAttach, TellsOf, TellsOfCall, CallAt, SamePost;
    EventsAreAccepted(bufsize, maxchannels, channels, acts, id, y, n);
    var s0 := Begin(bufsize, maxchannels, channels);
    var s := DoAll(s0, acts);
    if y in ServerOf(s).conns && n <= |ServerOf(s).conns[y].out| {
      var told, srcs := ToldSinceAttach(s, id, y, n), Sources(s, id, y);
      forall m | 0 <= m < |told|
        ensures TellsOfCall(s, acts, channels, CallAt(s0, acts, srcs[m]), id, told[m])
      {
        ToldCall(bufsize, maxchannels, channels, acts, id, told[m], srcs[m]);
      }
      forall l, m | 0 <= l < m < |told|
        ensures CallAt(s0, acts, srcs[l]) != CallAt(s0, acts, srcs[m])
      {
        var post, other := ToldPost(s, id, told[l], srcs[l]), ToldPost(s, id, told[m], srcs[m]);
        CallsDiffer(bufsize, maxchannels, channels, acts, id, srcs[l], srcs[m], post, other);
      }
    }
  }

  ghost function ToldPost(s: System, id: UInt32, e: ClientEvent, src: Source): (post: Parcel)
    requires TellsOf(s, id, e, src)
    ensures Accepted(s, id, src, post)
  {
    var post :| Accepted(s, id, src, post)
      && e == LogEvent(id, post.op, post.timestamp1, post.timestamp2, Cap(post.str1), Cap(post.str2));
    post
  }
}
