/** The publishing agent as a state machine: a locked queue with a "write pending" flag, driven by
    posts from any thread and by callbacks of the transport, in any order whatever. */
module AgentModel {
  import opened Wire

  /** A parcel handed to `asyncWriteParcel`: the request of a new connection, or a queued one. */
  datatype Write = Request(parcel: Parcel) | Queued(parcel: Parcel)

  /** What one stretch between two clearings of the queue came to. */
  datatype Epoch = Epoch(popped: seq<Parcel>, dropped: seq<Parcel>)

  /** The first four fields are the agent's own.  `looked` are the threads whose post has found
      `_loggable` set, `prepared` the parcels of posts that have read `_channel_id` too but not yet
      taken the lock.  The rest is history: parcels queued by posts, in order; parcels written, popped
      and dropped; `outstanding` counts writes whose completion was not dispatched yet. */
  datatype Agent = Agent(
    queue: seq<Parcel>, pending: bool, loggable: bool, channelId: UInt32,
    looked: set<nat>, prepared: map<nat, Parcel>,
    accepted: seq<Parcel>, writes: seq<Write>, popped: seq<Parcel>, epochs: seq<Epoch>,
    sinceClear: seq<Write>, outstanding: nat)

  const START := Agent([], false, false, 0, {}, map[], [], [], [], [], [], 0)

  /** `PostLook`, `PostFill` and `PostEnd` are the parts of a post by thread `t`: the look at
      `_loggable`, the reading of `_channel_id`, the locked section; `Post` is all of them at once. */
  datatype Event =
    | Post(op: Byte, tag: Bytes, msg: Bytes, sec: UInt32, frac: UInt32)
    | PostLook(t: nat)
    | PostFill(t: nat, op: Byte, tag: Bytes, msg: Bytes, sec: UInt32, frac: UInt32)
    | PostEnd(t: nat)
    | Connected(ok: bool, request: Parcel)
    | ParcelRead(parcel: Parcel)
    | ParcelSent(ok: bool)
    | IoError

  function Issue(a: Agent, w: Write): Agent {
    a.(writes := a.writes + [w], sinceClear := a.sinceClear + [w], outstanding := a.outstanding + 1)
  }

  /** The locked section of `post`. */
  function Enqueue(a: Agent, p: Parcel): Agent {
    var b := a.(queue := a.queue + [p], accepted := a.accepted + [p]);
    if a.pending then b else Issue(b.(pending := true), Queued(b.queue[0]))
  }

  /** `onIoError`. */
  function Failed(a: Agent): Agent {
    a.(loggable := false, queue := [], pending := false,
       popped := [], epochs := a.epochs + [Epoch(a.popped, a.queue)], sinceClear := [])
  }

  function Completed(a: Agent): Agent { a.(outstanding := if a.outstanding > 0 then a.outstanding - 1 else 0) }

  /** The locked section of `onParcelSent` after a success.  On an empty queue `pop_front` would be
      undefined; the proofs show that this is never reached. */
  function Sent(a: Agent): Agent {
    if !a.pending || a.queue == [] then a
    else
      var b := a.(queue := a.queue[1..], popped := a.popped + [a.queue[0]]);
      if b.queue == [] then b.(pending := false) else Issue(b, Queued(b.queue[0]))
  }

  function Step(a: Agent, ev: Event): Agent {
    match ev
    case Post(op, tag, msg, sec, frac) =>
      if a.loggable then Enqueue(a, Parcel(op, a.channelId, sec, frac, tag, msg)) else a
    case PostLook(t) => if a.loggable && t !in a.prepared then a.(looked := a.looked + {t}) else a
    case PostFill(t, op, tag, msg, sec, frac) =>
      if t in a.looked
      then a.(looked := a.looked - {t}, prepared := a.prepared[t := Parcel(op, a.channelId, sec, frac, tag, msg)])
      else a
    case PostEnd(t) =>
      if t in a.prepared then Enqueue(a.(prepared := a.prepared - {t}), a.prepared[t]) else a
    case Connected(ok, request) => if ok then Issue(a, Request(request)) else Failed(a)
    case ParcelRead(p) => if p.op == REPLY_OK then a.(loggable := true, channelId := p.id) else Failed(a)
    case ParcelSent(ok) => if ok then Sent(Completed(a)) else Failed(Completed(a))
    case IoError => Failed(a)
  }

  function Run(evs: seq<Event>): Agent
    decreases |evs|
  {
    if evs == [] then START else Step(Run(evs[..|evs|-1]), evs[|evs|-1])
  }

  // ---------------------------------------------------------------- FIFO and conservation

  function First(ps: seq<Parcel>): seq<Parcel> { if ps == [] then [] else [ps[0]] }

  /** The queued parcels among the writes. */
  function QueuedOf(ws: seq<Write>): seq<Parcel>
    decreases |ws|
  {
    if ws == [] then []
    else QueuedOf(ws[..|ws|-1]) + if ws[|ws|-1].Queued? then [ws[|ws|-1].parcel] else []
  }

  /** What the past epochs accepted, and what of it they wrote. */
  function AllAccepted(es: seq<Epoch>): seq<Parcel>
    decreases |es|
  {
    if es == [] then [] else AllAccepted(es[..|es|-1]) + (es[|es|-1].popped + es[|es|-1].dropped)
  }

  function AllWritten(es: seq<Epoch>): seq<Parcel>
    decreases |es|
  {
    if es == [] then [] else AllWritten(es[..|es|-1]) + (es[|es|-1].popped + First(es[|es|-1].dropped))
  }

  /** `_pending_logwrites` tells whether the queue is empty; everything ever queued was, in order,
      popped or dropped in an earlier epoch, popped in this one, or is still queued; and the writes
      are what was popped and the parcel at the front. */
  ghost predicate Conserved(a: Agent) {
    && (a.pending <==> a.queue != [])
    && a.accepted == AllAccepted(a.epochs) + (a.popped + a.queue)
    && QueuedOf(a.writes) == AllWritten(a.epochs) + (a.popped + First(a.queue))
    && QueuedOf(a.sinceClear) == a.popped + First(a.queue)
  }

  lemma QueuedSnoc(ws: seq<Write>, w: Write)
    ensures QueuedOf(ws + [w]) == if w.Queued? then QueuedOf(ws) + [w.parcel] else QueuedOf(ws)
  {
    assert (ws + [w])[..|ws + [w]|-1] == ws;
  }

  lemma EpochSnoc(es: seq<Epoch>, e: Epoch)
    ensures AllAccepted(es + [e]) == AllAccepted(es) + (e.popped + e.dropped)
    ensures AllWritten(es + [e]) == AllWritten(es) + (e.popped + First(e.dropped))
  {
    assert (es + [e])[..|es + [e]|-1] == es;
  }

  lemma Assoc<T>(a: seq<T>, b: seq<T>, c: seq<T>)
    ensures a + b + c == a + (b + c)
    ensures a + [] == a && [] + a == a
  {
  }

  lemma EnqueueConserves(a: Agent, p: Parcel)
    requires Conserved(a)
    ensures Conserved(Enqueue(a, p))
  {
    hide QueuedOf, AllAccepted, AllWritten;
    Assoc(AllAccepted(a.epochs), a.popped + a.queue, [p]);
    Assoc(a.popped, a.queue, [p]);
    if !a.pending {
      QueuedSnoc(a.writes, Queued(p));
      QueuedSnoc(a.sinceClear, Queued(p));
      Assoc(AllWritten(a.epochs), a.popped, [p]);
      assert a.popped + First(a.queue) == a.popped;
      assert a.queue + [p] == [p];
    }
  }

  lemma FailedConserves(a: Agent)
    requires Conserved(a)
    ensures Conserved(Failed(a))
  {
    EpochSnoc(a.epochs, Epoch(a.popped, a.queue));
    Assoc(AllAccepted(Failed(a).epochs), [], []);
    Assoc(AllWritten(Failed(a).epochs), [], []);
  }

  lemma SentConserves(a: Agent)
    requires Conserved(a)
    ensures Conserved(Sent(a))
  {
    hide QueuedOf, AllAccepted, AllWritten;
    if a.pending {
      var b := Sent(a);
      var p := a.queue[0];
      assert a.queue == [p] + b.queue;
      Assoc(a.popped, [p], b.queue);
      if b.queue != [] {
        QueuedSnoc(a.writes, Queued(b.queue[0]));
        QueuedSnoc(a.sinceClear, Queued(b.queue[0]));
        Assoc(AllWritten(a.epochs), a.popped + [p], [b.queue[0]]);
      } else {
        Assoc(a.popped + [p], [], []);
      }
    }
  }

  lemma StepConserves(a: Agent, ev: Event)
    requires Conserved(a)
    ensures Conserved(Step(a, ev))
  {
    hide QueuedOf, AllAccepted, AllWritten, Enqueue, Failed, Sent;
    match ev
    case Post(op, tag, msg, sec, frac) =>
      EnqueueConserves(a, Parcel(op, a.channelId, sec, frac, tag, msg));
    case PostEnd(t) =>
      if t in a.prepared {
        EnqueueConserves(a.(prepared := a.prepared - {t}), a.prepared[t]);
      }
    case Connected(ok, request) =>
      QueuedSnoc(a.writes, Request(request));
      QueuedSnoc(a.sinceClear, Request(request));
      FailedConserves(a);
    case ParcelSent(ok) =>
      SentConserves(Completed(a));
      FailedConserves(Completed(a));
    case ParcelRead(p) => FailedConserves(a);
    case IoError => FailedConserves(a);
    case _ =>
  }

  /** First in, first out, and nothing lost or doubled, in every interleaving of posts and callbacks,
      spurious ones included. */
  lemma {:induction false} AlwaysConserved(evs: seq<Event>)
    ensures Conserved(Run(evs))
    decreases |evs|
  {
    hide Conserved, Step;
    if evs == [] {
      StartConserved();
    } else {
      AlwaysConserved(evs[..|evs|-1]);
      StepConserves(Run(evs[..|evs|-1]), evs[|evs|-1]);
    }
  }

  lemma StartConserved()
    ensures Conserved(START)
  {
  }

  // ---------------------------------------------------------------- session safety

  /** What waits in the queue belongs to the session: the agent is loggable, and the parcels carry
      the channel id of the latest REPLY_OK. */
  ghost predicate Current(a: Agent) {
    a.queue != [] ==> a.loggable && forall p :: p in a.queue ==> p.id == a.channelId
  }

  /** The guard an event must pass: a post that enters the queue must still find the session it
      looked at, and a REPLY_OK that changes the id must find the queue empty. */
  predicate Timely(a: Agent, ev: Event) {
    match ev
    case PostEnd(t) => t in a.prepared ==> a.loggable && a.prepared[t].id == a.channelId
    case ParcelRead(p) => p.op == REPLY_OK && p.id != a.channelId ==> a.queue == []
    case _ => true
  }

  ghost predicate AllTimely(evs: seq<Event>)
    decreases |evs|
  {
    evs != [] ==> AllTimely(evs[..|evs|-1]) && Timely(Run(evs[..|evs|-1]), evs[|evs|-1])
  }

  ghost predicate AlwaysCurrent(evs: seq<Event>)
    decreases |evs|
  {
    Current(Run(evs)) && (evs != [] ==> AlwaysCurrent(evs[..|evs|-1]))
  }

  lemma EnqueueCurrent(a: Agent, p: Parcel)
    requires Current(a) && Conserved(a)
    ensures Current(Enqueue(a, p)) <==> a.loggable && p.id == a.channelId
  {
    hide QueuedOf, AllAccepted, AllWritten;
    var q := a.queue + [p];
    assert p in q;
    assert forall x :: x in q <==> x in a.queue || x == p;
  }

  lemma StepCurrent(a: Agent, ev: Event)
    requires Current(a) && Conserved(a)
    ensures Current(Step(a, ev)) <==> Timely(a, ev)
  {
    hide Conserved, Enqueue;
    match ev
    case Post(op, tag, msg, sec, frac) =>
      if a.loggable {
        EnqueueCurrent(a, Parcel(op, a.channelId, sec, frac, tag, msg));
      }
    case PostEnd(t) =>
      if t in a.prepared {
        var b := a.(prepared := a.prepared - {t});
        PreparedApart(a, b.prepared);
        EnqueueCurrent(b, a.prepared[t]);
      }
    case ParcelRead(p) =>
      if a.queue != [] {
        assert a.queue[0] in a.queue;
      }
    case ParcelSent(ok) =>
      if a.queue != [] {
        assert a.queue == [a.queue[0]] + a.queue[1..];
      }
    case _ =>
  }

  lemma PreparedApart(a: Agent, prepared: map<nat, Parcel>)
    requires Conserved(a)
    ensures Conserved(a.(prepared := prepared))
  {
    hide QueuedOf, AllAccepted, AllWritten;
  }

  /** The queue is of the current session in all states of a run exactly when every event passed its
      guard.  Posts that look and enqueue at once pass it whatever else happens. */
  lemma {:induction false} CurrentExactlyWhenTimely(evs: seq<Event>)
    ensures AlwaysCurrent(evs) <==> AllTimely(evs)
    decreases |evs|
  {
    hide Current, Timely, Step;
    if evs == [] {
      StartCurrent();
    } else {
      var before := evs[..|evs|-1];
      CurrentExactlyWhenTimely(before);
      AlwaysConserved(before);
      if AlwaysCurrent(before) {
        assert Current(Run(before));
        StepCurrent(Run(before), evs[|evs|-1]);
      }
    }
  }

  lemma StartCurrent()
    ensures Current(START)
  {
  }

  /** Nothing is popped while no session is granted. */
  lemma StepSilent(a: Agent, ev: Event)
    requires Conserved(a) && Current(a) && Timely(a, ev)
    requires !a.loggable ==> a.popped == []
    ensures !Step(a, ev).loggable ==> Step(a, ev).popped == []
  {
    hide QueuedOf, AllAccepted, AllWritten;
  }

  lemma {:induction false} TimelySilent(evs: seq<Event>)
    requires AllTimely(evs)
    ensures !Run(evs).loggable ==> Run(evs).popped == []
    decreases |evs|
  {
    hide Step, Timely, Current, Conserved;
    if evs == [] {
      StartSilent();
    } else {
      var before := evs[..|evs|-1];
      TimelySilent(before);
      AlwaysConserved(before);
      CurrentExactlyWhenTimely(before);
      StepSilent(Run(before), evs[|evs|-1]);
    }
  }

  lemma StartSilent()
    ensures !START.loggable ==> START.popped == []
  {
  }

  /** No log is written between losing a session and the next REPLY_OK, nor before the first. */
  lemma SilentBeforeGrant(evs: seq<Event>)
    requires AllTimely(evs)
    ensures !Run(evs).loggable ==> QueuedOf(Run(evs).sinceClear) == []
  {
    AlwaysConserved(evs);
    CurrentExactlyWhenTimely(evs);
    TimelySilent(evs);
    hide Run, QueuedOf, AllAccepted, AllWritten;
  }

  // ---------------------------------------------------------------- posts taken as one step

  ghost predicate Atomic(evs: seq<Event>) { forall ev :: ev in evs ==> !ev.PostEnd? }

  ghost predicate NoGrant(evs: seq<Event>) { forall ev :: ev in evs ==> !(ev.ParcelRead? && ev.parcel.op == REPLY_OK) }

  /** What waits, and what was written since the queue was last cleared, is there by a grant. */
  ghost predicate Licensed(a: Agent) { !a.loggable ==> a.queue == [] && a.popped == [] }

  lemma StepLicensed(a: Agent, ev: Event)
    requires Conserved(a) && Licensed(a) && !ev.PostEnd?
    ensures Licensed(Step(a, ev))
  {
    hide QueuedOf, AllAccepted, AllWritten;
  }

  lemma StartLicensed()
    ensures Licensed(START)
  {
  }

  /** When posts look and enqueue at once, then in every run whatever, spurious callbacks and replies
      that change the id included, a non-empty queue implies `_loggable`, and no log is written between
      losing a session and the next REPLY_OK. */
  lemma {:induction false} AtomicPostsAreLicensed(evs: seq<Event>)
    requires Atomic(evs)
    ensures Run(evs).queue != [] ==> Run(evs).loggable
    ensures !Run(evs).loggable ==> QueuedOf(Run(evs).sinceClear) == [] && Licensed(Run(evs))
    decreases |evs|
  {
    hide Step, QueuedOf, AllAccepted, AllWritten;
    AlwaysConserved(evs);
    if evs == [] {
      StartLicensed();
    } else {
      var before := evs[..|evs|-1];
      AtomicPostsAreLicensed(before);
      AlwaysConserved(before);
      assert evs[|evs|-1] in evs;
      StepLicensed(Run(before), evs[|evs|-1]);
    }
  }

  lemma StepUngranted(a: Agent, ev: Event)
    requires !a.loggable && a.queue == [] && a.looked == {} && a.prepared == map[] && !a.pending
    requires !(ev.ParcelRead? && ev.parcel.op == REPLY_OK)
    ensures var b := Step(a, ev);
            && !b.loggable && b.queue == [] && b.looked == {} && b.prepared == map[] && !b.pending
            && QueuedOf(b.writes) == QueuedOf(a.writes)
  {
    if ev.Connected? {
      QueuedSnoc(a.writes, Request(ev.request));
    }
  }

  /** Before the first REPLY_OK no log is written at all, split posts or not. */
  lemma {:induction false} NothingBeforeGrant(evs: seq<Event>)
    requires NoGrant(evs)
    ensures var a := Run(evs);
            && !a.loggable && a.queue == [] && a.looked == {} && a.prepared == map[] && !a.pending
            && QueuedOf(a.writes) == []
    decreases |evs|
  {
    hide Step;
    if evs != [] {
      assert evs[|evs|-1] in evs;
      NothingBeforeGrant(evs[..|evs|-1]);
      StepUngranted(Run(evs[..|evs|-1]), evs[|evs|-1]);
    }
  }

  /** What a step writes from the queue, if anything. */
  ghost predicate WritesCurrent(a: Agent, b: Agent) {
    || b.writes == a.writes
    || (exists w :: b.writes == a.writes + [w] && (w.Queued? ==> b.loggable && w.parcel.id == b.channelId))
  }

  lemma StepWritesCurrent(a: Agent, ev: Event)
    requires Conserved(a) && Current(a) && Timely(a, ev)
    ensures WritesCurrent(a, Step(a, ev))
  {
    hide QueuedOf, AllAccepted, AllWritten;
    StepCurrent(a, ev);
    var b := Step(a, ev);
    if b.queue != [] {
      assert b.queue[0] in b.queue;
    }
    if ev.Connected? && ev.ok {
      assert b.writes == a.writes + [Request(ev.request)];
    } else if b.writes != a.writes {
      assert b.writes == a.writes + [Queued(b.queue[0])];
    }
  }

  /** In every run whose events pass their guards, each event writes at most one parcel, and a log only
      in a granted session and under the id of the latest REPLY_OK. */
  lemma {:induction false} WritesCarryId(evs: seq<Event>, ev: Event)
    requires AllTimely(evs + [ev])
    ensures WritesCurrent(Run(evs), Run(evs + [ev]))
  {
    hide Step, Timely, Current, Conserved, WritesCurrent;
    assert (evs + [ev])[..|evs|] == evs;
    AlwaysConserved(evs);
    CurrentExactlyWhenTimely(evs);
    NowCurrent(evs);
    StepWritesCurrent(Run(evs), ev);
  }

  lemma NowCurrent(evs: seq<Event>)
    requires AlwaysCurrent(evs)
    ensures Current(Run(evs))
  {
  }

  /** Between two clearings of the queue only what was accepted in between is written: no parcel
      accepted before an I/O error is written after it. */
  lemma {:induction false} NothingOldIsWritten(evs: seq<Event>)
    ensures var a := Run(evs);
            && QueuedOf(a.sinceClear) <= a.popped + a.queue
            && a.accepted == AllAccepted(a.epochs) + (a.popped + a.queue)
  {
    AlwaysConserved(evs);
    hide Run, QueuedOf, AllAccepted, AllWritten;
    var a := Run(evs);
    if a.queue != [] {
      assert a.popped + a.queue == a.popped + [a.queue[0]] + a.queue[1..];
    }
  }

  // ---------------------------------------------------------------- the single send buffer

  /** Whether a completion is due that is not that of the front of the queue: of the request of the
      last connection, or of a log that was being written when the queue was cleared. */
  function NextDue(due: bool, a: Agent, ev: Event): bool {
    match ev
    case ParcelSent(_) => false
    case Connected(ok, _) => ok || due || a.pending
    case ParcelRead(p) => due || (p.op != REPLY_OK && a.pending)
    case IoError => due || a.pending
    case _ => due
  }

  function Due(evs: seq<Event>): bool
    decreases |evs|
  {
    if evs == [] then false
    else NextDue(Due(evs[..|evs|-1]), Run(evs[..|evs|-1]), evs[|evs|-1])
  }

  /** The order in which an event may come: no post enters the queue while such a completion is due,
      and no connection is made while any is. */
  predicate InTurn(due: bool, a: Agent, ev: Event) {
    match ev
    case Post(_, _, _, _, _) => a.loggable ==> !due
    case PostEnd(t) => t in a.prepared ==> !due
    case Connected(ok, _) => ok ==> !due && !a.pending
    case _ => true
  }

  ghost predicate AllInTurn(evs: seq<Event>)
    decreases |evs|
  {
    evs != [] ==>
      && AllInTurn(evs[..|evs|-1])
      && InTurn(Due(evs[..|evs|-1]), Run(evs[..|evs|-1]), evs[|evs|-1])
  }

  ghost predicate AlwaysSingle(evs: seq<Event>)
    decreases |evs|
  {
    Run(evs).outstanding <= 1 && (evs != [] ==> AlwaysSingle(evs[..|evs|-1]))
  }

  /** What is in the send buffer: the front of the queue, or what is due otherwise, or nothing. */
  ghost predicate Single(due: bool, a: Agent) {
    && (a.pending <==> a.queue != [])
    && !(due && a.pending)
    && a.outstanding == if due || a.pending then 1 else 0
  }

  lemma StepSingle(due: bool, a: Agent, ev: Event)
    requires Single(due, a)
    ensures Step(a, ev).outstanding <= 1 <==> InTurn(due, a, ev)
    ensures Step(a, ev).outstanding <= 1 ==> Single(NextDue(due, a, ev), Step(a, ev))
  {
  }

  /** There is never more than one write in the single send buffer exactly when every post that enters
      the queue comes after the completions of the request and of any log that a failure cut short, and
      every connection after all of them. */
  lemma {:induction false} SingleExactlyInTurn(evs: seq<Event>)
    ensures AlwaysSingle(evs) <==> AllInTurn(evs)
    ensures AlwaysSingle(evs) ==> Single(Due(evs), Run(evs))
    decreases |evs|
  {
    hide Step, NextDue, InTurn, Single;
    if evs == [] {
      NothingSent();
    } else {
      var before := evs[..|evs|-1];
      SingleExactlyInTurn(before);
      if AlwaysSingle(before) {
        StepSingle(Due(before), Run(before), evs[|evs|-1]);
      }
    }
  }

  lemma NothingSent()
    ensures AlwaysSingle([]) && Single(Due([]), Run([]))
  {
  }

  // ---------------------------------------------------------------- well-behaved transports

  /** Where the agent is in the life of a connection. */
  datatype Phase = Offline | Requesting | Granted

  /** What a well-behaved transport dispatches: a completion only for a write that is outstanding; a
      connection only when there is none, and after the completions of the last one's writes; a
      REPLY_OK once for each connection, after the completion of its request.  Failures may come at
      any time and any number of times, as when one operation fails and the other is then aborted. */
  predicate Orderly(phase: Phase, a: Agent, ev: Event) {
    match ev
    case Connected(ok, _) => ok ==> phase == Offline && a.outstanding == 0
    case ParcelRead(p) => p.op == REPLY_OK ==> phase == Requesting && a.outstanding == 0
    case ParcelSent(_) => a.outstanding > 0
    case _ => true
  }

  function NextPhase(phase: Phase, ev: Event): Phase {
    match ev
    case Connected(ok, _) => if ok then Requesting else Offline
    case ParcelRead(p) => if p.op == REPLY_OK then Granted else Offline
    case ParcelSent(ok) => if ok then phase else Offline
    case IoError => Offline
    case _ => phase
  }

  function PhaseOf(evs: seq<Event>): Phase
    decreases |evs|
  {
    if evs == [] then Offline else NextPhase(PhaseOf(evs[..|evs|-1]), evs[|evs|-1])
  }

  ghost predicate AllOrderly(evs: seq<Event>)
    decreases |evs|
  {
    evs != [] ==>
      && AllOrderly(evs[..|evs|-1])
      && Orderly(PhaseOf(evs[..|evs|-1]), Run(evs[..|evs|-1]), evs[|evs|-1])
  }

  ghost predicate InPhase(phase: Phase, a: Agent) {
    && (a.loggable <==> phase == Granted)
    && (phase != Granted ==> a.outstanding <= 1)
    && (phase == Granted ==> a.outstanding == if a.pending then 1 else 0)
    && (a.pending <==> a.queue != [])
    && (a.queue != [] ==> a.loggable && forall p :: p in a.queue ==> p.id == a.channelId)
  }

  lemma StepInPhase(phase: Phase, a: Agent, ev: Event)
    requires InPhase(phase, a) && Orderly(phase, a, ev) && !ev.PostEnd?
    ensures InPhase(NextPhase(phase, ev), Step(a, ev))
  {
    if a.queue != [] {
      assert a.queue == [a.queue[0]] + a.queue[1..];
    }
    if ev.Post? {
      var q := a.queue + [Parcel(ev.op, a.channelId, ev.sec, ev.frac, ev.tag, ev.msg)];
      assert forall p :: p in q <==> p in a.queue || p == q[|a.queue|];
    }
  }

  lemma StartInPhase()
    ensures InPhase(Offline, START)
  {
  }

  lemma PhaseSafe(phase: Phase, a: Agent)
    requires InPhase(phase, a)
    ensures a.outstanding <= 1 && Current(a)
  {
  }

  /** Over a well-behaved transport, with posts taken as one step, there is never a second write in the
      send buffer, and what waits in the queue is always of the current session. */
  lemma {:induction false} OrderlySafe(evs: seq<Event>)
    requires AllOrderly(evs) && Atomic(evs)
    ensures AlwaysSingle(evs) && AlwaysCurrent(evs)
    ensures InPhase(PhaseOf(evs), Run(evs))
    decreases |evs|
  {
    hide Step, Orderly, NextPhase, InPhase, Current;
    if evs == [] {
      StartInPhase();
    } else {
      var before := evs[..|evs|-1];
      OrderlySafe(before);
      assert evs[|evs|-1] in evs;
      StepInPhase(PhaseOf(before), Run(before), evs[|evs|-1]);
    }
    PhaseSafe(PhaseOf(evs), Run(evs));
  }

  // ---------------------------------------------------------------- particular runs

  lemma RunSnoc(evs: seq<Event>, ev: Event)
    ensures Run(evs + [ev]) == Step(Run(evs), ev)
    ensures PhaseOf(evs + [ev]) == NextPhase(PhaseOf(evs), ev)
    ensures AllOrderly(evs + [ev]) <==> AllOrderly(evs) && Orderly(PhaseOf(evs), Run(evs), ev)
    ensures AllTimely(evs + [ev]) <==> AllTimely(evs) && Timely(Run(evs), ev)
    ensures AlwaysSingle(evs + [ev]) <==> AlwaysSingle(evs) && Run(evs + [ev]).outstanding <= 1
  {
    hide Step, Orderly, NextPhase, Timely;
    assert (evs + [ev])[..|evs + [ev]|-1] == evs;
  }

  lemma NoEvents()
    ensures Run([]) == START && PhaseOf([]) == Offline && AllOrderly([]) && AllTimely([]) && AlwaysSingle([])
  {
  }

  /** A connection that is granted channel 7. */
  function Opening(request: Parcel): seq<Event> {
    [Connected(true, request)] + [ParcelSent(true)] + [ParcelRead(Parcel(REPLY_OK, 7, 0, 0, [], []))]
  }

  lemma Opened(request: Parcel)
    ensures var evs := Opening(request);
            && AllOrderly(evs) && AllTimely(evs) && PhaseOf(evs) == Granted
            && Run(evs) == START.(loggable := true, channelId := 7,
                                  writes := [Request(request)], sinceClear := [Request(request)])
  {
    NoEvents();
    hide Run, PhaseOf, AllOrderly, AllTimely, AlwaysSingle;
    var connected := [Connected(true, request)];
    assert [] + connected == connected && [] + [Request(request)] == [Request(request)];
    RunSnoc([], Connected(true, request));
    RunSnoc(connected, ParcelSent(true));
    RunSnoc(connected + [ParcelSent(true)], ParcelRead(Parcel(REPLY_OK, 7, 0, 0, [], [])));
  }

  /** An operation fails, and the write that was under way is completed, or aborted, only then. */
  lemma AbortedWrite(request: Parcel, ok: bool)
    ensures AllOrderly([Connected(true, request), IoError, ParcelSent(ok)])
  {
    NoEvents();
    hide Run, PhaseOf, AllOrderly, AllTimely, AlwaysSingle;
    var connected := [Connected(true, request)];
    assert [] + connected == connected;
    RunSnoc([], Connected(true, request));
    RunSnoc(connected, IoError);
    RunSnoc(connected + [IoError], ParcelSent(ok));
    assert connected + [IoError] + [ParcelSent(ok)] == [Connected(true, request), IoError, ParcelSent(ok)];
  }

  /** A post overtaken by the failure of another post's write. */
  function Overtaken(request: Parcel): seq<Event> {
    Opening(request) + [Post(0, [], [], 0, 0)] + [PostLook(0)] + [PostFill(0, 1, [], [], 0, 0)]
      + [ParcelSent(false)] + [PostEnd(0)]
  }

  /** A well-behaved transport does not help a post that looks at `_loggable` before a failure and
      takes the lock after it: it waits in the queue of an agent that is not loggable, and is written
      without any session. */
  lemma StalePost(request: Parcel)
    ensures var evs := Overtaken(request);
            var a := Run(evs);
            && AllOrderly(evs) && !AllTimely(evs)
            && !Current(a) && !a.loggable && a.sinceClear == [Queued(Parcel(1, 7, 0, 0, [], []))]
  {
    Opened(request);
    hide Run, PhaseOf, AllOrderly, AllTimely, AlwaysSingle, Opening;
    var e3 := Opening(request);
    var e4 := e3 + [Post(0, [], [], 0, 0)];
    var e5 := e4 + [PostLook(0)];
    var e6 := e5 + [PostFill(0, 1, [], [], 0, 0)];
    var e7 := e6 + [ParcelSent(false)];
    RunSnoc(e3, Post(0, [], [], 0, 0));
    RunSnoc(e4, PostLook(0));
    RunSnoc(e5, PostFill(0, 1, [], [], 0, 0));
    RunSnoc(e6, ParcelSent(false));
    RunSnoc(e7, PostEnd(0));
  }

  /** The order of the reply and the completion of its request matters: a reply that is dispatched
      first lets a post overwrite the buffer of the request. */
  lemma EarlyReply(request: Parcel)
    ensures var evs := [Connected(true, request), ParcelRead(Parcel(REPLY_OK, 7, 0, 0, [], [])), Post(1, [], [], 0, 0)];
            Run(evs).outstanding == 2 && !AlwaysSingle(evs) && Atomic(evs) && !AllOrderly(evs)
  {
    NoEvents();
    hide Run, PhaseOf, AllOrderly, AllTimely, AlwaysSingle;
    var c, r := Connected(true, request), ParcelRead(Parcel(REPLY_OK, 7, 0, 0, [], []));
    var p := Post(1, [], [], 0, 0);
    RunSnoc([], c);
    RunSnoc([c], r);
    RunSnoc([c, r], p);
    assert [] + [c] == [c] && [c] + [r] == [c, r] && [c, r] + [p] == [c, r, p];
  }
}
