/** channel.c and the dispatch batch of loop.c: channel flags decide who frees a channel. */
module EventLoop {
  import opened Memory
  import opened ChannelModel
  import opened ChannelScripts

  datatype Channel = Channel(
    event: Mask, revent: nat, isActive: bool, isInCallback: bool, isAlive: bool, isMonitored: bool, hasLoop: bool)

  /** The flags of channel a are what its place in the batch says. */
  ghost predicate FlagsOk(mem: map<Addr, Channel>, g: State, a: Addr) {
    && (a in mem <==> a in g.mem)
    && (a in mem ==>
      && mem[a].event == g.mem[a].event && mem[a].isMonitored == g.mem[a].monitored
      && mem[a].hasLoop == g.mem[a].attached && mem[a].isAlive == g.mem[a].alive
      && (mem[a].isActive <==> a in g.todo)
      && (mem[a].isInCallback <==> g.running && g.todo != [] && g.todo[0] == a))
  }

  class EventLoop {
    var mem: map<Addr, Channel>
    var brk: Addr
    var interest: set<Addr>
    ghost var g: State

    ghost predicate Valid()
      reads this
    {
      Inv(g) && brk == g.next && interest == g.registered && forall a :: FlagsOk(mem, g, a)
    }

    constructor ()
      ensures Valid() && g == INIT
    {
      mem, brk, interest, g := map[], 1, {}, INIT;
      assert forall id :: ChanOk(INIT, id);
      assert forall id :: LogOk(INIT.log, INIT.mem, INIT.freed, INIT.next, id);
    }

    method New() returns (channel: Addr)
      requires Valid()
      modifies this
      ensures Valid() && channel == old(g).next && g == Apply(old(g), Step.New)
    {
      StepKeepsInv(g, Step.New);
      channel := brk;
      assert ChanOk(g, channel);
      brk := brk + 1;
      mem := mem[channel := Channel({}, 0, false, false, true, false, true)];
      g := DoNew(g);
      forall a ensures FlagsOk(mem, g, a) { assert FlagsOk(old(mem), old(g), a); }
    }

    /** do_loop_update_channel: EPOLL_CTL_DEL for an empty mask, else MOD or ADD. */
    method Update(channel: Addr)
      requires channel in mem
      modifies `mem, `interest
      ensures var on := old(mem)[channel].event != {};
        && mem == old(mem)[channel := old(mem)[channel].(isMonitored := on)]
        && ((old(mem)[channel].isMonitored <==> channel in old(interest)) ==>
          interest == if on then old(interest) + {channel} else old(interest) - {channel})
    {
      var c := mem[channel];
      if c.event == {} {
        mem := mem[channel := c.(isMonitored := false)];
        interest := interest - {channel};
      } else if !c.isMonitored {
        mem := mem[channel := c.(isMonitored := true)];
        interest := interest + {channel};
      }
    }

    method SetEvent(channel: Addr, event: Mask)
      requires Valid() && Enabled(g, Step.SetEvent(channel, event))
      modifies this
      ensures Valid() && g == Apply(old(g), Step.SetEvent(channel, event))
    {
      StepKeepsInv(g, Step.SetEvent(channel, event));
      assert FlagsOk(mem, g, channel) && ChanOk(g, channel);
      if event <= mem[channel].event { return; }
      mem := mem[channel := mem[channel].(event := mem[channel].event + event)];
      Update(channel);
      g := DoSetEvent(g, channel, event);
      forall a ensures FlagsOk(mem, g, a) { assert FlagsOk(old(mem), old(g), a); }
    }

    method ClearEvent(channel: Addr, event: Mask)
      requires Valid() && Enabled(g, Step.ClearEvent(channel, event))
      modifies this
      ensures Valid() && g == Apply(old(g), Step.ClearEvent(channel, event))
    {
      StepKeepsInv(g, Step.ClearEvent(channel, event));
      assert FlagsOk(mem, g, channel) && ChanOk(g, channel);
      if event !! mem[channel].event { return; }
      mem := mem[channel := mem[channel].(event := mem[channel].event - event)];
      Update(channel);
      g := DoClearEvent(g, channel, event);
      forall a ensures FlagsOk(mem, g, a) { assert FlagsOk(old(mem), old(g), a); }
    }

    /** channel_detach: the mask is emptied for the update only, and then restored. */
    method Detach(channel: Addr)
      requires Valid() && Enabled(g, Step.Detach(channel))
      modifies this
      ensures Valid() && g == Apply(old(g), Step.Detach(channel))
    {
      StepKeepsInv(g, Step.Detach(channel));
      assert FlagsOk(mem, g, channel) && ChanOk(g, channel);
      var oldEvent := mem[channel].event;
      if oldEvent == {} { return; }
      mem := mem[channel := mem[channel].(event := {})];
      if mem[channel].hasLoop {
        Update(channel);
      }
      mem := mem[channel := mem[channel].(event := oldEvent, hasLoop := false)];
      g := DoDetach(g, channel);
      forall a ensures FlagsOk(mem, g, a) { assert FlagsOk(old(mem), old(g), a); }
    }

    method Attach(channel: Addr)
      requires Valid() && Enabled(g, Step.Attach(channel))
      modifies this
      ensures Valid() && g == Apply(old(g), Step.Attach(channel))
    {
      StepKeepsInv(g, Step.Attach(channel));
      assert FlagsOk(mem, g, channel) && ChanOk(g, channel);
      mem := mem[channel := mem[channel].(hasLoop := true)];
      Update(channel);
      g := DoAttach(g, channel);
      forall a ensures FlagsOk(mem, g, a) { assert FlagsOk(old(mem), old(g), a); }
    }

    /** channel_destroy: a channel in its callback, or reported in this batch, is only marked. */
    method Destroy(channel: Addr)
      requires Valid() && Enabled(g, Step.Destroy(channel))
      modifies this
      ensures Valid() && g == Apply(old(g), Step.Destroy(channel))
    {
      StepKeepsInv(g, Step.Destroy(channel));
      assert FlagsOk(mem, g, channel) && ChanOk(g, channel);
      if mem[channel].isInCallback {
        mem := mem[channel := mem[channel].(isAlive := false)];
      } else if mem[channel].isActive {
        mem := mem[channel := mem[channel].(isAlive := false)];
      } else {
        mem := mem - {channel};
      }
      g := DoDestroy(g, channel);
      forall a ensures FlagsOk(mem, g, a) { assert FlagsOk(old(mem), old(g), a); }
    }

    /** One operation of a callback, if the application may make it. */
    method Perform(op: Step)
      requires Valid()
      modifies this
      ensures Valid() && g == Try(old(g), op)
    {
      if op.New? {
        var c := New();
      } else if Client(op) {
        assert FlagsOk(mem, g, op.id);
        if op.id in mem && mem[op.id].isAlive {
          PerformOn(op, mem[op.id]);
        }
      }
    }

    method PerformOn(op: Step, c: Channel)
      requires Valid() && Client(op) && !op.New? && op.id in mem && c == mem[op.id] && c.isAlive
      modifies this
      ensures Valid() && g == Try(old(g), op)
    {
      assert FlagsOk(mem, g, op.id);
      match op
      case SetEvent(id, event) => if c.hasLoop || event <= c.event { SetEvent(id, event); }
      case ClearEvent(id, event) => if c.hasLoop || event !! c.event { ClearEvent(id, event); }
      case Detach(id) => Detach(id);
      case Attach(id) => if !c.hasLoop { Attach(id); }
      case Destroy(id) => Destroy(id);
    }

    /** A channel's callback, asking for `ops`. */
    method Callback(ops: seq<Step>)
      requires Valid()
      modifies this
      ensures Valid() && g == RunClient(old(g), ops)
    {
      var i := 0;
      assert ops[0..] == ops;
      while i < |ops|
        invariant i <= |ops| && Valid()
        invariant RunClient(g, ops[i..]) == RunClient(old(g), ops)
      {
        assert ops[i..][0] == ops[i] && ops[i..][1..] == ops[i + 1..];
        Perform(ops[i]);
        i := i + 1;
      }
    }

    /** channel_onevent: a dead channel is freed, a live one called, and freed if it died meanwhile. */
    method OnEvent(channel: Addr, ops: seq<Step>)
      requires Valid() && g.todo != [] && !g.running && channel == g.todo[0]
      modifies this
      ensures Valid() && g == TurnResult(old(g), ops)
    {
      assert ChanOk(g, channel) && FlagsOk(mem, g, channel);
      if !mem[channel].isAlive {
        Skip(channel);
      } else {
        Call(channel);
        InBatchSelf(g);
        RunClientKeeps(g, ops, g, Waiting(g));
        Callback(ops);
        Finish(channel);
      }
    }

    method Skip(channel: Addr)
      requires Valid() && Enabled(g, Turn) && channel == g.todo[0] && !g.mem[channel].alive
      modifies this
      ensures Valid() && g == DoTurn(old(g))
    {
      StepKeepsInv(g, Turn);
      PopFacts(g.todo);
      assert ChanOk(g, channel) && FlagsOk(mem, g, channel);
      mem := mem - {channel};
      g := DoTurn(g);
      forall a ensures FlagsOk(mem, g, a) { assert FlagsOk(old(mem), old(g), a); }
    }

    method Call(channel: Addr)
      requires Valid() && Enabled(g, Turn) && channel == g.todo[0] && g.mem[channel].alive
      modifies this
      ensures Valid() && g == DoTurn(old(g))
    {
      StepKeepsInv(g, Turn);
      assert FlagsOk(mem, g, channel);
      mem := mem[channel := mem[channel].(isInCallback := true)];
      g := DoTurn(g);
      forall a ensures FlagsOk(mem, g, a) { assert FlagsOk(old(mem), old(g), a); }
    }

    method Finish(channel: Addr)
      requires Valid() && g.todo != [] && g.running && channel == g.todo[0]
      modifies this
      ensures Valid() && g == ChannelModel.Finish(old(g))
    {
      assert ChanOk(g, channel) && FlagsOk(mem, g, channel);
      StepKeepsInv(g, Return);
      PopFacts(g.todo);
      mem := mem[channel := mem[channel].(isInCallback := false, revent := 0, isActive := false)];
      if !mem[channel].isAlive {
        mem := mem - {channel};
      }
      g := DoReturn(g);
      forall a ensures FlagsOk(mem, g, a) { assert FlagsOk(old(mem), old(g), a); }
    }

    /** The first loop over a batch: every reported channel becomes active. */
    method SetRevents(events: seq<(Addr, nat)>, ghost batch: seq<Addr>)
      requires Valid() && Enabled(g, Begin(batch))
      requires |events| == |batch| && forall i :: 0 <= i < |events| ==> events[i].0 == batch[i]
      modifies this
      ensures Valid() && g == Apply(old(g), Begin(batch))
      ensures forall i :: 0 <= i < |events| ==> batch[i] in mem && mem[batch[i]].revent == events[i].1
    {
      BeginKeeps(g, batch);
      var i := 0;
      while i < |events|
        invariant i <= |events| && g == old(g) && brk == old(brk) && interest == old(interest)
        invariant forall a :: FlagsOk(mem, g.(todo := batch[..i]), a)
        invariant forall j :: 0 <= j < i ==> batch[j] in mem && mem[batch[j]].revent == events[j].1
      {
        var channel := events[i].0;
        assert channel == batch[i] && channel in batch && ChanOk(g, channel);
        assert FlagsOk(mem, g.(todo := batch[..i]), channel);
        ghost var before := mem;
        mem := mem[channel := mem[channel].(revent := events[i].1, isActive := true)];
        assert batch[..i + 1] == batch[..i] + [channel];
        ghost var marked := g.(todo := batch[..i + 1]);
        forall a ensures FlagsOk(mem, marked, a) { assert FlagsOk(before, g.(todo := batch[..i]), a); }
        i := i + 1;
      }
      assert batch[..i] == batch;
      g := g.(todo := batch);
    }

    /** One round of loop_loop for the events epoll_wait reported; scripts[i] is what the i-th
        callback asks for. */
    method Dispatch(events: seq<(Addr, nat)>, scripts: seq<seq<Step>>)
      requires Valid()
      requires Enabled(g, Begin(Reported(events)))
      modifies this
      ensures Valid() && Leads(old(g), g)
      ensures BatchFollows(old(g), Reported(events), scripts, g)
    {
      ghost var batch := Reported(events);
      BatchStarts(g, batch, scripts);
      SetRevents(events, batch);
      var i := 0;
      while i < |events|
        invariant i <= |events| && Valid() && BatchAt(old(g), batch, scripts, i, g)
      {
        assert g.todo[0] == events[i].0;
        NextTurn(old(g), batch, scripts, g, i);
        OnEvent(events[i].0, ScriptAt(scripts, i));
        i := i + 1;
      }
    }
  }

  /** The channels of the events, in order. */
  function Reported(events: seq<(Addr, nat)>): seq<Addr> {
    seq(|events|, i requires 0 <= i < |events| => events[i].0)
  }
}
