/** Which calls of `post` the accepted posts are, and what the answer to a PUBLISH does to its agent. */
module Calls {
  import opened Wire
  import opened ServerModel
  import opened ServerProofs
  import opened System
  import A = AgentModel

  // ---------------------------------------------------------------- posts and calls

  /** The parcel carries the arguments of the call. */
  predicate Makes(call: A.Event, p: Parcel) {
    match call
    case Post(op, tag, msg, sec, frac) =>
      p.op == op && p.timestamp1 == sec && p.timestamp2 == frac && p.str1 == tag && p.str2 == msg
    case PostFill(_, op, tag, msg, sec, frac) =>
      p.op == op && p.timestamp1 == sec && p.timestamp2 == frac && p.str1 == tag && p.str2 == msg
    case _ => false
  }

  /** The actions that made the accepted posts, and those that made the prepared ones, by their
      positions in a run. */
  datatype Ledger = Ledger(posted: seq<nat>, filled: map<nat, nat>)

  function Entered(ledger: Ledger, a: A.Agent, ev: A.Event, n: nat): Ledger {
    match ev
    case Post(_, _, _, _, _) => if a.loggable then ledger.(posted := ledger.posted + [n]) else ledger
    case PostFill(t, _, _, _, _, _) => if t in a.looked then ledger.(filled := ledger.filled[t := n]) else ledger
    case PostEnd(t) =>
      if t in ledger.filled
      then Ledger(ledger.posted + [ledger.filled[t]], ledger.filled - {t})
      else ledger
    case _ => ledger
  }

  /** The ledger of agent `k` after a run. */
  ghost function LedgerOf(s0: System, acts: seq<Action>, k: nat): Ledger
    decreases |acts|
  {
    if acts == [] then Ledger([], map[])
    else
      var n := |acts| - 1;
      var s, ledger := DoAll(s0, acts[..n]), LedgerOf(s0, acts[..n], k);
      if acts[n].AgentSteps? && acts[n].k == k && k < |s.publishers| && IsLocal(acts[n].ev)
      then Entered(ledger, s.publishers[k].agent, acts[n].ev, n)
      else ledger
  }

  /** The `n`-th action is a call by agent `k` that made the parcel. */
  predicate MadeAt(acts: seq<Action>, k: nat, n: nat, p: Parcel) {
    n < |acts| && acts[n].AgentSteps? && acts[n].k == k && Makes(acts[n].ev, p)
  }

  /** Every accepted and every prepared post has a call of its own. */
  ghost predicate Booked(ledger: Ledger, a: A.Agent, acts: seq<Action>, k: nat) {
    && |ledger.posted| == |a.accepted|
    && (forall i :: 0 <= i < |ledger.posted| ==> MadeAt(acts, k, ledger.posted[i], a.accepted[i]))
    && (forall t :: t in ledger.filled <==> t in a.prepared)
    && (forall t :: t in ledger.filled ==> MadeAt(acts, k, ledger.filled[t], a.prepared[t]))
  }

  ghost predicate Distinct(ledger: Ledger) {
    && (forall i, j :: 0 <= i < j < |ledger.posted| ==> ledger.posted[i] != ledger.posted[j])
    && (forall t, u :: t in ledger.filled && u in ledger.filled && t != u ==> ledger.filled[t] != ledger.filled[u])
    && (forall t :: t in ledger.filled ==> ledger.filled[t] !in ledger.posted)
  }

  ghost predicate Before(ledger: Ledger, n: nat) {
    && (forall i :: i in ledger.posted ==> i < n)
    && (forall t :: t in ledger.filled ==> ledger.filled[t] < n)
  }

  lemma EnteredDistinct(ledger: Ledger, a: A.Agent, ev: A.Event, n: nat)
    requires Distinct(ledger) && Before(ledger, n)
    ensures Distinct(Entered(ledger, a, ev, n)) && Before(Entered(ledger, a, ev, n), n + 1)
  {
    assert forall i :: 0 <= i < |ledger.posted| ==> ledger.posted[i] in ledger.posted;
    if ev.PostEnd? && ev.t in ledger.filled {
      var m := ledger.filled[ev.t];
      assert forall i :: 0 <= i < |ledger.posted| ==> ledger.posted[i] != m;
    }
  }

  lemma MadeLonger(acts: seq<Action>, k: nat, n: nat, p: Parcel, act: Action)
    requires MadeAt(acts, k, n, p)
    ensures MadeAt(acts + [act], k, n, p)
  {
  }

  /** What a local step accepts or prepares, its own call or an earlier one made. */
  lemma EnteredBooked(ledger: Ledger, a: A.Agent, ev: A.Event, acts: seq<Action>, k: nat)
    requires Booked(ledger, a, acts, k) && a.looked !! a.prepared.Keys && IsLocal(ev)
    ensures Booked(Entered(ledger, a, ev, |acts|), A.Step(a, ev), acts + [AgentSteps(k, ev)], k)
  {
    hide Makes, A.Sent, A.Completed;
    SameAccepted(a, ev);
    var b, more := A.Step(a, ev), acts + [AgentSteps(k, ev)];
    assert more[|acts|] == AgentSteps(k, ev);
    forall i | 0 <= i < |ledger.posted|
      ensures MadeAt(more, k, ledger.posted[i], a.accepted[i])
    {
      MadeLonger(acts, k, ledger.posted[i], a.accepted[i], AgentSteps(k, ev));
    }
    forall t | t in ledger.filled
      ensures MadeAt(more, k, ledger.filled[t], a.prepared[t])
    {
      MadeLonger(acts, k, ledger.filled[t], a.prepared[t], AgentSteps(k, ev));
    }
    CallMakes(a, ev);
  }

  /** Completions and failures neither accept nor prepare. */
  lemma SameAccepted(a: A.Agent, ev: A.Event)
    ensures !ev.Post? && !ev.PostEnd? ==> A.Step(a, ev).accepted == a.accepted
    ensures !ev.PostFill? && !ev.PostEnd? ==> A.Step(a, ev).prepared == a.prepared
  {
  }

  lemma CallMakes(a: A.Agent, ev: A.Event)
    ensures ev.Post? && a.loggable ==>
              var p := Parcel(ev.op, a.channelId, ev.sec, ev.frac, ev.tag, ev.msg);
              Makes(ev, p) && A.Step(a, ev).accepted == a.accepted + [p]
    ensures ev.PostFill? && ev.t in a.looked ==>
              var p := Parcel(ev.op, a.channelId, ev.sec, ev.frac, ev.tag, ev.msg);
              Makes(ev, p) && A.Step(a, ev).prepared == a.prepared[ev.t := p]
  {
  }

  lemma LookedApart(a: A.Agent, ev: A.Event)
    requires a.looked !! a.prepared.Keys
    ensures A.Step(a, ev).looked !! A.Step(a, ev).prepared.Keys
  {
  }

  ghost predicate AgentBooked(s0: System, acts: seq<Action>, k: nat) {
    var s := DoAll(s0, acts);
    k < |s.publishers| ==>
      var a, ledger := s.publishers[k].agent, LedgerOf(s0, acts, k);
      Booked(ledger, a, acts, k) && Distinct(ledger) && Before(ledger, |acts|) && a.looked !! a.prepared.Keys
  }

  /** What an action does to agent `k`. */
  lemma ActionOnAgent(s: System, act: Action, k: nat)
    requires SysInv(s, ServerOf(s))
    ensures SameNames(s, Do(s, act))
    ensures k < |s.publishers| ==>
              var a, b := s.publishers[k].agent, Do(s, act).publishers[k].agent;
              if act.AgentSteps? && act.k == k && IsLocal(act.ev) then b == A.Step(a, act.ev)
              else b.accepted == a.accepted && b.prepared == a.prepared && b.looked == a.looked
  {
    hide ServerSide, AgentSide, ServerOf, Enabled, Written, Numbers, IsLocal, IsFailure, FromClient, A.Step;
    if act.AgentSteps? {
      if act.k < |s.publishers| {
        KnownSession(s, ServerOf(s).channels, act.k);
      }
    } else if (act.AgentConnects? || act.AgentReads? || act.AgentFails?) && act.k < |s.publishers| {
      QuietAction(s, act);
    }
  }

  /** Connecting, reading and failing do not touch what an agent accepted or prepared. */
  lemma QuietAction(s: System, act: Action)
    requires act.AgentConnects? || act.AgentReads? || act.AgentFails?
    requires act.k < |s.publishers|
    ensures var a, b := s.publishers[act.k].agent, Do(s, act).publishers[act.k].agent;
            b.accepted == a.accepted && b.prepared == a.prepared && b.looked == a.looked
  {
    hide ServerOf, A.Step;
    var a := s.publishers[act.k].agent;
    match act
    case AgentConnects(k, x, id, timestamp1, timestamp2) =>
      Quiet(a, A.Connected(true, Parcel(PUBLISH, id, timestamp1, timestamp2, s.publishers[k].channel, [])));
    case AgentReads(k) =>
      if s.publishers[k].session.Some? {
        var x := s.publishers[k].session.value;
        if x in ServerOf(s).conns && ServerOf(s).conns[x].out != [] {
          Quiet(a, A.ParcelRead(Capped(ServerOf(s).conns[x].out[0])));
        }
      }
    case AgentFails(_, ev) =>
      if IsFailure(ev) {
        Quiet(a, ev);
      }
  }

  lemma Quiet(a: A.Agent, ev: A.Event)
    requires IsFailure(ev) || ev.ParcelRead? || ev.Connected?
    ensures A.Step(a, ev).accepted == a.accepted && A.Step(a, ev).prepared == a.prepared
    ensures A.Step(a, ev).looked == a.looked
  {
  }

  lemma UnchangedBooked(ledger: Ledger, a: A.Agent, b: A.Agent, acts: seq<Action>, k: nat, act: Action)
    requires Booked(ledger, a, acts, k) && b.accepted == a.accepted && b.prepared == a.prepared
    ensures Booked(ledger, b, acts + [act], k)
  {
    hide Makes;
  }

  /** In every run, each post an agent accepted was made by a call of its own: a `post` of that agent,
      with those arguments, and no call made two. */
  lemma {:induction false} PostsAreCalls(bufsize: UInt32, maxchannels: UInt32, channels: seq<Bytes>,
                                         acts: seq<Action>, k: nat)
    ensures var s := DoAll(Begin(bufsize, maxchannels, channels), acts);
            && |s.publishers| == |channels| && (k < |channels| ==> s.publishers[k].channel == channels[k])
            && AgentBooked(Begin(bufsize, maxchannels, channels), acts, k)
    decreases |acts|
  {
    hide Do, Begin, SysInv, Booked, Distinct, Before, Entered, IsLocal, A.Step;
    var s0 := Begin(bufsize, maxchannels, channels);
    if acts == [] {
      NothingBooked(bufsize, maxchannels, channels, k);
    } else {
      var n := |acts| - 1;
      var s, act, ledger := DoAll(s0, acts[..n]), acts[n], LedgerOf(s0, acts[..n], k);
      PostsAreCalls(bufsize, maxchannels, channels, acts[..n], k);
      AlwaysOk(bufsize, maxchannels, channels, acts[..n]);
      ActionOnAgent(s, act, k);
      assert acts == acts[..n] + [act];
      if k < |channels| {
        var a := s.publishers[k].agent;
        if act.AgentSteps? && act.k == k && IsLocal(act.ev) {
          EnteredBooked(ledger, a, act.ev, acts[..n], k);
          EnteredDistinct(ledger, a, act.ev, n);
          LookedApart(a, act.ev);
        } else {
          UnchangedBooked(ledger, a, Do(s, act).publishers[k].agent, acts[..n], k, act);
          BeforeLater(ledger, n);
        }
      }
    }
  }

  lemma BeforeLater(ledger: Ledger, n: nat)
    requires Before(ledger, n)
    ensures Before(ledger, n + 1)
  {
  }

  lemma NothingBooked(bufsize: UInt32, maxchannels: UInt32, channels: seq<Bytes>, k: nat)
    ensures var s := DoAll(Begin(bufsize, maxchannels, channels), []);
            && |s.publishers| == |channels| && (k < |channels| ==> s.publishers[k].channel == channels[k])
            && AgentBooked(Begin(bufsize, maxchannels, channels), [], k)
  {
  }

  // ---------------------------------------------------------------- the answer to a PUBLISH

  lemma DoOk(s: System, act: Action)
    requires SysInv(s, ServerOf(s))
    ensures SysInv(Do(s, act), ServerOf(Do(s, act)))
  {
    hide SysInv, Do, ServerOf;
    match act
    case AgentConnects(_, _, _, _, _) => AgentConnectsOk(s, act);
    case AgentSteps(_, _) => AgentActionOk(s, act);
    case AgentReads(_) => AgentActionOk(s, act);
    case AgentFails(_, _) => AgentActionOk(s, act);
    case _ => OtherActionOk(s, act);
  }

  /** An action is at most one event to the server. */
  lemma ActionEvents(s: System, act: Action)
    ensures var t := Do(s, act);
            && t.bufsize == s.bufsize && t.maxchannels == s.maxchannels
            && (t.evs == s.evs || exists ev :: t.evs == s.evs + [ev])
  {
    hide ServerOf, Enabled, Written, Numbers, IsLocal, A.Step;
  }

  lemma OutStays(s: System, act: Action, x: nat)
    requires SysInv(s, ServerOf(s)) && x in ServerOf(s).conns
    ensures x in ServerOf(Do(s, act)).conns && ServerOf(s).conns[x].out <= ServerOf(Do(s, act)).conns[x].out
  {
    hide Do, Run, Step, AllCarried, LinkOk, AgentSide, Directory, Subscribed, Stored;
    ActionEvents(s, act);
    var t := Do(s, act);
    if t.evs == s.evs {
      SameServer(s, t);
    } else {
      var ev :| t.evs == s.evs + [ev];
      ServerSnoc(s, ev, t);
      StepExtends(ServerOf(s), ev);
    }
  }

  lemma {:induction false} OutStaysOn(s: System, acts: seq<Action>, x: nat)
    requires SysInv(s, ServerOf(s)) && x in ServerOf(s).conns
    ensures var t := DoAll(s, acts);
            SysInv(t, ServerOf(t)) && x in ServerOf(t).conns && ServerOf(s).conns[x].out <= ServerOf(t).conns[x].out
    decreases |acts|
  {
    hide SysInv, Do, ServerOf;
    if acts != [] {
      var n := |acts| - 1;
      OutStaysOn(s, acts[..n], x);
      DoOk(DoAll(s, acts[..n]), acts[n]);
      OutStays(DoAll(s, acts[..n]), acts[n], x);
    }
  }

  /** The server answers the PUBLISH of an agent's connection. */
  lemma AnswerGiven(s: System, x: nat, order: seq<Bytes>)
    requires SysInv(s, ServerOf(s)) && x in s.links && s.links[x].owner.AgentLink? && s.links[x].taken == 0
    requires x in ServerOf(s).conns && ServerOf(s).conns[x].alive
    ensures s.links[x].owner.k < |s.publishers|
    ensures var t, channel := Do(s, ServerReceives(x, order)), s.publishers[s.links[x].owner.k].channel;
            && x in ServerOf(t).conns && |ServerOf(t).conns[x].out| == 1
            && ServerOf(t).conns[x].out[0].op == (if Full(ServerOf(s), CStr(Cap(channel))) then 250 else 249)
  {
    hide Inv, AllCarried, AgentSide, Run, Step, CStr, Cap, Rank, Full;
    var srv := ServerOf(s);
    assert LinkOk(s, srv, x);
    var ev := Receive(x, Capped(s.links[x].sent[0]), order);
    var t := Do(s, ServerReceives(x, order));
    PublishEnabled(srv, x, ev.parcel, order);
    ServerSnoc(s, ev, t);
    FirstParcel(srv, x, ev.parcel, order);
  }

  lemma PublishEnabled(srv: Server<nat>, x: nat, p: Parcel, order: seq<Bytes>)
    requires x in srv.conns && srv.conns[x].alive && srv.conns[x].mode == Unknown && p.op == PUBLISH
    ensures Enabled(srv, Receive(x, p, order))
  {
  }

  ghost predicate LoggableAfterReading(u: System, k: nat) {
    var v := Do(u, AgentReads(k));
    k < |v.publishers| && v.publishers[k].agent.loggable
  }

  /** Whatever happens between the server's receiving an agent's PUBLISH and the agent's reading the
      answer: an agent still in that session is loggable after it if and only if the directory was not
      full, or had the name, when the PUBLISH was received. */
  lemma {:induction false} LoggableExactlyWhenRoom(s: System, x: nat, order: seq<Bytes>, acts: seq<Action>, k: nat)
    requires SysInv(s, ServerOf(s)) && x in s.links && s.links[x].owner == AgentLink(k) && s.links[x].taken == 0
    requires x in ServerOf(s).conns && ServerOf(s).conns[x].alive
    ensures k < |s.publishers|
    ensures var u := DoAll(Do(s, ServerReceives(x, order)), acts);
            k < |u.publishers| && u.publishers[k].session == Some(x) && !u.publishers[k].agent.loggable ==>
              (LoggableAfterReading(u, k) <==> !Full(ServerOf(s), CStr(Cap(s.publishers[k].channel))))
  {
    hide SysInv, Do, DoAll, ServerOf, Full, CStr, Cap, LoggableAfterReading;
    AnswerGiven(s, x, order);
    var t := Do(s, ServerReceives(x, order));
    DoOk(s, ServerReceives(x, order));
    OutStaysOn(t, acts, x);
    var u := DoAll(t, acts);
    if k < |u.publishers| && u.publishers[k].session == Some(x) && !u.publishers[k].agent.loggable {
      assert ServerOf(u).conns[x].out[0] == ServerOf(t).conns[x].out[0];
      ReadDecides(u, k, x);
    }
  }

  lemma ReadDecides(u: System, k: nat, x: nat)
    requires k < |u.publishers| && u.publishers[k].session == Some(x) && !u.publishers[k].agent.loggable
    requires x in ServerOf(u).conns && ServerOf(u).conns[x].out != []
    ensures LoggableAfterReading(u, k) <==> ServerOf(u).conns[x].out[0].op == 249
  {
    hide ServerOf;
  }
}
