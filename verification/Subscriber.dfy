/** The subscriber's client: what it makes of each parcel it reads. */
module Subscriber {
  import opened Wire

  /** What the event callback is given; tag and content are C strings. */
  datatype ClientEvent =
    | LogEvent(id: UInt32, priority: Byte, sec: UInt32, frac: UInt32, tag: Bytes, content: Bytes)
    | RegisterEvent(id: UInt32, name: Bytes, content: Bytes)

  function EventsOf(p: Parcel): seq<ClientEvent> {
    if IsLog(p) then [LogEvent(p.id, p.op, p.timestamp1, p.timestamp2, CStr(p.str1), CStr(p.str2))]
    else if p.op == REGISTER then [RegisterEvent(p.id, CStr(p.str1), CStr(p.str2))]
    else []
  }

  /** What a pending question has come to: the count, the name, and whether the answer is still awaited. */
  datatype Rpc = Rpc(availch: UInt32, chname: Bytes, onRpc: bool)

  function Answered(rpc: Rpc, p: Parcel): Rpc {
    if p.op == AVAILCH then Rpc(p.timestamp1, p.str1, false) else rpc
  }

  function Notified(ps: seq<Parcel>): seq<ClientEvent>
    decreases |ps|
  {
    if ps == [] then [] else Notified(ps[..|ps|-1]) + EventsOf(ps[|ps|-1])
  }

  /** `handed` are the parcels read so far, `events` what a registered callback was called with. */
  class SubscriberClient {
    const registered: bool
    var availch: UInt32
    var chname: Bytes
    var onRpc: bool
    var events: seq<ClientEvent>
    ghost var handed: seq<Parcel>

    ghost predicate Valid()
      reads this
    {
      events == if registered then Notified(handed) else []
    }

    constructor (registered: bool)
      ensures Valid() && handed == [] && this.registered == registered
    {
      this.registered := registered;
      availch, chname, onRpc, events, handed := 0, [], false, [], [];
    }

    method OnParcelRead(p: Parcel)
      requires Valid()
      modifies this
      ensures Valid() && handed == old(handed) + [p]
      ensures Rpc(availch, chname, onRpc) == Answered(Rpc(old(availch), old(chname), old(onRpc)), p)
      ensures if p.op == 251 then availch == p.timestamp1 && chname == p.str1 && !onRpc
              else availch == old(availch) && chname == old(chname) && onRpc == old(onRpc)
      ensures if !registered then events == old(events)
              else if p.op <= 4 then
                events == old(events) +
                  [LogEvent(p.id, p.op, p.timestamp1, p.timestamp2, CStr(p.str1), CStr(p.str2))]
              else if p.op == 255 then events == old(events) + [RegisterEvent(p.id, CStr(p.str1), CStr(p.str2))]
              else events == old(events)
    {
      hide CStr;
      if p.op <= 4 {
        if registered {
          events := events + [LogEvent(p.id, p.op, p.timestamp1, p.timestamp2, CStr(p.str1), CStr(p.str2))];
        }
      } else if p.op == REGISTER {
        if registered {
          events := events + [RegisterEvent(p.id, CStr(p.str1), CStr(p.str2))];
        }
      } else if p.op == AVAILCH {
        availch := p.timestamp1;
        chname := p.str1;
        onRpc := false;
      }
      handed := handed + [p];
      assert handed[..|handed|-1] == old(handed);
      assert old(events) + [] == old(events);
    }
  }
}
