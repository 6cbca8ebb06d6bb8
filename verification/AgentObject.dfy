/** The agent with its fields updated in place, each callback proved against the state machine. */
module AgentObject {
  import opened Wire
  import opened AgentModel

  class LogAgent {
    const channel: Bytes
    var queue: seq<Parcel>
    var pendingLogwrites: bool
    var loggable: bool
    var channelId: UInt32
    /** The abstract state, which also remembers the past. */
    ghost var model: Agent

    ghost predicate Valid()
      reads this
    {
      && model.queue == queue && model.pending == pendingLogwrites
      && model.loggable == loggable && model.channelId == channelId
      && Conserved(model)
    }

    constructor (channel: Bytes)
      ensures Valid() && model == START && this.channel == channel
    {
      this.channel := channel;
      queue, pendingLogwrites, loggable, channelId := [], false, false, 0;
      model := START;
    }

    /** `post`, taken as one step. */
    method Post(op: Byte, tag: Bytes, msg: Bytes, sec: UInt32, frac: UInt32) returns (accepted: bool)
      requires Valid()
      modifies this
      ensures Valid() && model == Step(old(model), AgentModel.Post(op, tag, msg, sec, frac))
      ensures accepted == old(loggable)
      ensures accepted ==> queue == old(queue) + [Parcel(op, channelId, sec, frac, tag, msg)] && pendingLogwrites
      ensures !accepted ==> queue == old(queue) && pendingLogwrites == old(pendingLogwrites)
      ensures loggable == old(loggable) && channelId == old(channelId)
    {
      hide Conserved;
      StepConserves(model, AgentModel.Post(op, tag, msg, sec, frac));
      if !loggable {
        return false;
      }
      var parcel := Parcel(op, channelId, sec, frac, tag, msg);
      EnqueueLocked(parcel);
      return true;
    }

    /** The locked section of `post`. */
    method EnqueueLocked(parcel: Parcel)
      requires Valid()
      modifies this
      ensures Valid() && model == Enqueue(old(model), parcel)
      ensures queue == old(queue) + [parcel] && pendingLogwrites
      ensures model.writes == old(model).writes + (if old(pendingLogwrites) then [] else [Queued(parcel)])
      ensures loggable == old(loggable) && channelId == old(channelId)
    {
      hide QueuedOf, AllAccepted, AllWritten;
      assert model.writes + [] == model.writes;
      EnqueueConserves(model, parcel);
      model := model.(queue := model.queue + [parcel], accepted := model.accepted + [parcel]);
      queue := queue + [parcel];
      if !pendingLogwrites {
        pendingLogwrites := true;
        model := model.(pending := true);
        AsyncWriteParcel(Queued(queue[0]));
      }
    }

    /** The first part of a post by thread `t`: the look at `_loggable`, without the lock. */
    method PostLook(t: nat) returns (found: bool)
      requires Valid()
      modifies this`model
      ensures Valid() && model == Step(old(model), AgentModel.PostLook(t))
      ensures found == loggable
      ensures found && t !in model.prepared ==> t in model.looked
      ensures !found ==> model == old(model)
    {
      hide Conserved;
      StepConserves(model, AgentModel.PostLook(t));
      found := loggable;
      model := Step(model, AgentModel.PostLook(t));
    }

    /** The second part: the parcel is made, with whatever `_channel_id` is now. */
    method PostFill(t: nat, op: Byte, tag: Bytes, msg: Bytes, sec: UInt32, frac: UInt32) returns (parcel: Parcel)
      requires Valid() && t in model.looked
      modifies this`model
      ensures Valid() && model == Step(old(model), AgentModel.PostFill(t, op, tag, msg, sec, frac))
      ensures t in model.prepared && model.prepared[t] == parcel && t !in model.looked
      ensures parcel.op == op && parcel.id == channelId
      ensures parcel.timestamp1 == sec && parcel.timestamp2 == frac && parcel.str1 == tag && parcel.str2 == msg
    {
      hide Conserved;
      StepConserves(model, AgentModel.PostFill(t, op, tag, msg, sec, frac));
      parcel := Parcel(op, channelId, sec, frac, tag, msg);
      model := Step(model, AgentModel.PostFill(t, op, tag, msg, sec, frac));
    }

    /** The last part: the locked section, however much later. */
    method PostEnd(t: nat, parcel: Parcel)
      requires Valid() && t in model.prepared && model.prepared[t] == parcel
      modifies this
      ensures Valid() && model == Step(old(model), AgentModel.PostEnd(t))
      ensures queue == old(queue) + [parcel] && pendingLogwrites && t !in model.prepared
      ensures loggable == old(loggable) && channelId == old(channelId)
    {
      hide Conserved;
      PreparedApart(model, model.prepared - {t});
      model := model.(prepared := model.prepared - {t});
      EnqueueLocked(parcel);
    }

    ghost method AsyncWriteParcel(w: Write)
      modifies this`model
      ensures model == Issue(old(model), w)
    {
      model := Issue(model, w);
    }

    /** `onConnected`; the id and the timestamps of the request are whatever memory held. */
    method OnConnected(connected: bool, id: UInt32, timestamp1: UInt32, timestamp2: UInt32)
      requires Valid()
      modifies this
      ensures Valid()
      ensures model == Step(old(model), Connected(connected, Parcel(PUBLISH, id, timestamp1, timestamp2, channel, [])))
      ensures if connected
              then
                && model.writes == old(model).writes + [Request(Parcel(254, id, timestamp1, timestamp2, channel, []))]
                && queue == old(queue) && loggable == old(loggable) && channelId == old(channelId)
              else model.writes == old(model).writes && queue == [] && !loggable && !pendingLogwrites
      ensures channelId == old(channelId) && (connected ==> pendingLogwrites == old(pendingLogwrites))
    {
      hide Conserved;
      var request := Parcel(PUBLISH, id, timestamp1, timestamp2, channel, []);
      StepConserves(model, Connected(connected, request));
      if connected {
        AsyncWriteParcel(Request(request));
      } else {
        OnIoError();
      }
    }

    method OnParcelRead(p: Parcel)
      requires Valid()
      modifies this
      ensures Valid() && model == Step(old(model), ParcelRead(p))
      ensures model.writes == old(model).writes
      ensures if p.op == 249
              then loggable && channelId == p.id && queue == old(queue) && pendingLogwrites == old(pendingLogwrites)
              else !loggable && queue == [] && !pendingLogwrites && channelId == old(channelId)
    {
      hide Conserved;
      StepConserves(model, ParcelRead(p));
      if p.op == REPLY_OK {
        loggable := true;
        channelId := p.id;
        model := model.(loggable := true, channelId := p.id);
      } else {
        OnIoError();
      }
    }

    /** `onParcelSent`; the queue is popped only when it is not empty. */
    method OnParcelSent(succeed: bool)
      requires Valid()
      modifies this
      ensures Valid() && model == Step(old(model), ParcelSent(succeed))
      ensures channelId == old(channelId) && pendingLogwrites == (queue != [])
      ensures if !succeed then !loggable && queue == [] && model.writes == old(model).writes
              else
                && loggable == old(loggable)
                && queue == (if old(pendingLogwrites) then old(queue)[1..] else old(queue))
                && model.writes == old(model).writes +
                     if old(pendingLogwrites) && queue != [] then [Queued(queue[0])] else []
    {
      hide QueuedOf, AllAccepted, AllWritten;
      StepConserves(model, ParcelSent(succeed));
      model := Completed(model);
      if succeed {
        if pendingLogwrites {
          assert queue != [];
          model := model.(queue := model.queue[1..], popped := model.popped + [model.queue[0]]);
          queue := queue[1..];
          if queue == [] {
            pendingLogwrites := false;
            model := model.(pending := false);
          } else {
            AsyncWriteParcel(Queued(queue[0]));
          }
        }
      } else {
        OnIoError();
      }
    }

    method OnIoError()
      requires Valid()
      modifies this
      ensures Valid() && model == Failed(old(model))
      ensures !loggable && queue == [] && !pendingLogwrites && channelId == old(channelId)
      ensures model.writes == old(model).writes
    {
      hide Conserved;
      FailedConserves(model);
      loggable := false;
      queue := [];
      pendingLogwrites := false;
      model := Failed(model);
    }
  }
}
