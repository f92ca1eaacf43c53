/** A TCP connection as a state machine: what sends, socket events, the application's callbacks and
    the deferred destroy do to the bytes on their way and to the connection itself. */
module TcpModel {
  import opened Bytes
  import opened Sequences

  /** What write or writev returned: a fatal errno, EAGAIN or EINTR, or a count. */
  datatype WriteResult = Fatal | Retry | Wrote(n: nat)

  /** What the read of an EPOLLIN event returned. */
  datatype ReadResult = Failed | Closed | Data

  /** What a callback may do: tcp_connection_send, and tcp_connection_destroy. */
  datatype Op = Send(data: seq<Byte>, res: WriteResult) | Destroy

  datatype Flags = Flags(
    epollIn: bool,
    epollOut: bool,
    connected: bool,
    alive: bool,
    inCallback: bool,
    needClose: bool,
    destroyed: bool,         // tcp_connection_destroy was called
    deleted: bool)

  datatype Conn = Conn(
    out: seq<Byte>,          // readable bytes of out_buffer
    wire: seq<Byte>,         // bytes the socket took
    accepted: seq<Byte>,     // data of the sends that sendInLoop answered with 0, in order
    posted: seq<seq<Byte>>,  // sends of other threads that wait in the loop's task queue
    f: Flags)

  datatype Event = Event(hup: bool, input: bool, output: bool)

  datatype Action =
    | Call(op: Op)
    | Post(data: seq<Byte>)                            // tcp_connection_send on another thread
    | Deferred(res: WriteResult)                       // do_tcp_connection_send, for the oldest of those
    | OnEvent(event: Event, read: ReadResult, ops: seq<Op>, write: WriteResult)

  const NEW_CONN: Conn :=
    Conn([], [], [], [], Flags(true, false, true, true, false, false, false, false))

  /** How many of `size` bytes a call took; the kernel never takes more than it was given. */
  function Taken(res: WriteResult, size: nat): (n: nat)
    ensures n <= size
  {
    if res.Wrote? then (if res.n <= size then res.n else size) else 0
  }

  /** sendInLoop: the socket is offered the unsent bytes followed by the new ones. */
  function DoSend(s: Conn, data: seq<Byte>, res: WriteResult): Conn {
    if res.Fatal? then s
    else
      var all := s.out + data;
      var n := Taken(res, |all|);
      s.(wire := s.wire + all[..n], out := all[n..], accepted := s.accepted + data, f := s.f.(epollOut := n < |all|))
  }

  /** A send on a closed connection is refused, and none is made after destroy. */
  function DoPost(s: Conn, data: seq<Byte>): Conn {
    if s.f.destroyed || !s.f.connected || data == [] then s else s.(posted := s.posted + [data])
  }

  /** do_tcp_connection_send: neither the connection state nor a destroy meanwhile is looked at; on a
      deleted connection it is a use of freed memory. */
  function RunPosted(s: Conn, res: WriteResult): Conn
    requires s.posted != []
  {
    var s1 := s.(posted := s.posted[1..]);
    if s.f.deleted then s1 else DoSend(s1, s.posted[0], res)
  }

  function DoDestroy(s: Conn): Conn {
    var s1 := s.(f := s.f.(destroyed := true));
    if s.out != [] && s.f.connected then s1.(f := s1.f.(epollIn := false, epollOut := true, needClose := true))
    else if s.f.inCallback then s1.(f := s1.f.(alive := false))
    else s1.(f := s1.f.(deleted := true))
  }

  /** After destroy the handle must not be used; a send on a closed connection is refused. */
  function Perform(s: Conn, op: Op): Conn {
    if s.f.destroyed then s
    else match op
      case Send(data, res) => if !s.f.connected || data == [] then s else DoSend(s, data, res)
      case Destroy => DoDestroy(s)
  }

  function PerformAll(s: Conn, ops: seq<Op>): Conn
    decreases |ops|
  {
    if ops == [] then s else PerformAll(Perform(s, ops[0]), ops[1..])
  }

  function Callback(s: Conn, ops: seq<Op>): Conn {
    var s' := PerformAll(s.(f := s.f.(inCallback := true)), ops);
    s'.(f := s'.f.(inCallback := false))
  }

  function Input(s: Conn, read: ReadResult, ops: seq<Op>): Conn {
    if s.f.needClose then s
    else match read
      case Failed => s
      case Closed => Callback(s.(f := s.f.(connected := false)), ops)
      case Data => Callback(s, ops)
  }

  /** The EPOLLOUT branch, for a result that is not fatal. */
  function Output(s: Conn, res: WriteResult): Conn {
    var n := Taken(res, |s.out|);
    var s1 := s.(wire := s.wire + s.out[..n], out := s.out[n..]);
    if n >= |s.out| then s1.(f := s1.f.(epollOut := false, alive := s.f.alive && !s.f.needClose)) else s1
  }

  /** The end of connection_onevent. */
  function Reap(s: Conn): Conn {
    if s.f.alive then s else s.(f := s.f.(deleted := true))
  }

  function Hangup(s: Conn, ops: seq<Op>): Conn {
    if s.f.needClose then s.(f := s.f.(alive := false)) else Callback(s.(f := s.f.(connected := false)), ops)
  }

  /** The rest of the event after the input branch; a fatal error returns before the connection is
      reaped. */
  function Flush(s: Conn, output: bool, write: WriteResult): Conn {
    if output && write.Fatal? then s else Reap(if output then Output(s, write) else s)
  }

  function HandleEvent(s: Conn, e: Event, read: ReadResult, ops: seq<Op>, write: WriteResult): Conn {
    if e.hup then Reap(Hangup(s, ops))
    else Flush(if e.input then Input(s, read, ops) else s, e.output, write)
  }

  /** A deleted connection is only touched by the sends still posted. */
  function Apply(s: Conn, a: Action): Conn {
    match a
    case Call(op) => if s.f.deleted then s else Perform(s, op)
    case Post(data) => DoPost(s, data)
    case Deferred(res) => if s.posted == [] then s else RunPosted(s, res)
    case OnEvent(e, read, ops, write) => if s.f.deleted then s else HandleEvent(s, e, read, ops, write)
  }

  function Run(s: Conn, actions: seq<Action>): Conn
    decreases |actions|
  {
    if actions == [] then s else Run(Apply(s, actions[0]), actions[1..])
  }

  // ---------------------------------------------------------------- invariants

  predicate Inv(s: Conn) {
    && s.wire + s.out == s.accepted
    && (!s.f.deleted ==> (s.f.epollOut <==> s.out != []))
    && (s.f.needClose || !s.f.alive || s.f.deleted ==> s.f.destroyed)
    && (s.f.epollIn <==> !s.f.needClose)
  }

  lemma SendConserves(s: Conn, data: seq<Byte>, res: WriteResult)
    requires s.wire + s.out == s.accepted
    ensures var s' := DoSend(s, data, res); s'.wire + s'.out == s'.accepted
  {
    var all := s.out + data;
    var n := Taken(res, |all|);
    assert s.wire + all[..n] + all[n..] == s.wire + s.out + data;
  }

  lemma SendKeeps(s: Conn, data: seq<Byte>, res: WriteResult)
    requires Inv(s) && !s.f.destroyed
    ensures var s' := DoSend(s, data, res);
      Inv(s') && s'.f.inCallback == s.f.inCallback && s'.f.deleted == s.f.deleted
  {
    SendConserves(s, data, res);
  }

  lemma PostedKeeps(s: Conn, res: WriteResult)
    requires Inv(s) && s.posted != []
    ensures var s' := RunPosted(s, res);
      Inv(s') && s'.f.inCallback == s.f.inCallback && s'.f.deleted == s.f.deleted
  {
    SendConserves(s.(posted := s.posted[1..]), s.posted[0], res);
  }

  lemma PerformKeeps(s: Conn, op: Op)
    requires Inv(s) && !s.f.deleted
    ensures var s' := Perform(s, op);
      Inv(s') && s'.f.inCallback == s.f.inCallback && (s.f.inCallback ==> !s'.f.deleted)
  {
    if op.Send? && !s.f.destroyed { SendKeeps(s, op.data, op.res); }
  }

  lemma {:induction false} PerformAllKeeps(s: Conn, ops: seq<Op>)
    requires Inv(s) && !s.f.deleted && s.f.inCallback
    ensures var s' := PerformAll(s, ops); Inv(s') && s'.f.inCallback && !s'.f.deleted
    decreases |ops|
  {
    if ops != [] {
      PerformKeeps(s, ops[0]);
      PerformAllKeeps(Perform(s, ops[0]), ops[1..]);
    }
  }

  lemma CallbackKeeps(s: Conn, ops: seq<Op>)
    requires Inv(s) && !s.f.deleted
    ensures var s' := Callback(s, ops); Inv(s') && !s'.f.deleted && !s'.f.inCallback
  {
    PerformAllKeeps(s.(f := s.f.(inCallback := true)), ops);
  }

  lemma OutputKeeps(s: Conn, res: WriteResult)
    requires Inv(s) && !s.f.deleted
    ensures var s' := Output(s, res); Inv(s') && !s'.f.deleted && s'.f.inCallback == s.f.inCallback
  {
    var n := Taken(res, |s.out|);
    assert s.wire + s.out[..n] + s.out[n..] == s.wire + s.out;
  }

  lemma InputKeeps(s: Conn, read: ReadResult, ops: seq<Op>)
    requires Inv(s) && !s.f.deleted && !s.f.inCallback
    ensures var s' := Input(s, read, ops); Inv(s') && !s'.f.deleted && !s'.f.inCallback
  {
    if !s.f.needClose {
      CallbackKeeps(s.(f := s.f.(connected := false)), ops);
      CallbackKeeps(s, ops);
    }
  }

  lemma HangupKeeps(s: Conn, ops: seq<Op>)
    requires Inv(s) && !s.f.deleted && !s.f.inCallback
    ensures var s' := Hangup(s, ops); Inv(s') && !s'.f.deleted && !s'.f.inCallback
  {
    if !s.f.needClose { CallbackKeeps(s.(f := s.f.(connected := false)), ops); }
  }

  lemma EventKeeps(s: Conn, e: Event, read: ReadResult, ops: seq<Op>, write: WriteResult)
    requires Inv(s) && !s.f.deleted && !s.f.inCallback
    ensures var s' := HandleEvent(s, e, read, ops, write); Inv(s') && !s'.f.inCallback
  {
    if e.hup {
      HangupKeeps(s, ops);
    } else {
      InputKeeps(s, read, ops);
      OutputKeeps(if e.input then Input(s, read, ops) else s, write);
    }
  }

  lemma ActionKeeps(s: Conn, a: Action)
    requires Inv(s) && !s.f.inCallback
    ensures Inv(Apply(s, a)) && !Apply(s, a).f.inCallback
  {
    match a
    case Call(op) => if !s.f.deleted { PerformKeeps(s, op); }
    case Post(_) =>
    case Deferred(res) => if s.posted != [] { PostedKeeps(s, res); }
    case OnEvent(e, read, ops, write) => if !s.f.deleted { EventKeeps(s, e, read, ops, write); }
  }

  lemma {:induction false} RunKeeps(s: Conn, actions: seq<Action>)
    requires Inv(s) && !s.f.inCallback
    ensures Inv(Run(s, actions)) && !Run(s, actions).f.inCallback
    decreases |actions|
  {
    if actions != [] {
      ActionKeeps(s, actions[0]);
      RunKeeps(Apply(s, actions[0]), actions[1..]);
    }
  }

  // ---------------------------------------------------------------- theorems

  /** For every sequence of sends, partial writes, refusals and events: the bytes the socket took
      followed by those still buffered are the accepted sends, in order, nothing lost, repeated or
      interleaved. */
  lemma BytesConserved(actions: seq<Action>)
    ensures var s := Run(NEW_CONN, actions); s.wire + s.out == s.accepted
  {
    RunKeeps(NEW_CONN, actions);
  }

  /** Write interest is registered exactly when bytes wait. */
  lemma ArmedIffPending(actions: seq<Action>)
    ensures var s := Run(NEW_CONN, actions); !s.f.deleted ==> (s.f.epollOut <==> s.out != [])
  {
    RunKeeps(NEW_CONN, actions);
  }

  // What the actions of a run say

  /** A call or a callback that destroys the connection. */
  predicate HoldsDestroy(a: Action) {
    match a
    case Call(op) => op.Destroy?
    case OnEvent(_, _, ops, _) => Op.Destroy in ops
    case _ => false
  }

  ghost predicate HungUp(actions: seq<Action>) {
    exists i :: 0 <= i < |actions| && actions[i].OnEvent? && actions[i].event.hup
  }

  /** Action j runs a posted send, not answered by a fatal error, after an action that destroys. */
  ghost predicate LateAt(actions: seq<Action>, j: nat) {
    && j < |actions| && actions[j].Deferred? && !actions[j].res.Fatal?
    && exists i :: 0 <= i < j && HoldsDestroy(actions[i])
  }

  ghost predicate LateSend(actions: seq<Action>) {
    exists j: nat :: LateAt(actions, j)
  }

  lemma {:induction false} RunLast(s: Conn, actions: seq<Action>, a: Action)
    ensures Run(s, actions + [a]) == Apply(Run(s, actions), a)
    decreases |actions|
  {
    if actions == [] {
      assert [a][1..] == [] && [] + [a] == [a];
    } else {
      assert (actions + [a])[1..] == actions[1..] + [a];
      RunLast(Apply(s, actions[0]), actions[1..], a);
    }
  }

  lemma RunEnd(actions: seq<Action>)
    requires actions != []
    ensures var n := |actions| - 1; Run(NEW_CONN, actions) == Apply(Run(NEW_CONN, actions[..n]), actions[n])
  {
    var n := |actions| - 1;
    assert actions == actions[..n] + [actions[n]];
    RunLast(NEW_CONN, actions[..n], actions[n]);
  }

  lemma {:induction false} OnlyDestroyDestroys(s: Conn, ops: seq<Op>)
    requires Op.Destroy !in ops && !s.f.destroyed
    ensures !PerformAll(s, ops).f.destroyed
    decreases |ops|
  {
    if ops != [] { OnlyDestroyDestroys(Perform(s, ops[0]), ops[1..]); }
  }

  lemma OnlyDestroyCalls(s: Conn, ops: seq<Op>)
    requires Op.Destroy !in ops && !s.f.destroyed
    ensures !Callback(s, ops).f.destroyed
  {
    OnlyDestroyDestroys(s.(f := s.f.(inCallback := true)), ops);
  }

  lemma OnlyDestroyInputs(s: Conn, read: ReadResult, ops: seq<Op>)
    requires Op.Destroy !in ops && !s.f.destroyed
    ensures !Input(s, read, ops).f.destroyed
  {
    OnlyDestroyCalls(s, ops);
    OnlyDestroyCalls(s.(f := s.f.(connected := false)), ops);
  }

  lemma FlushFlags(s: Conn, output: bool, write: WriteResult)
    ensures Flush(s, output, write).f.destroyed == s.f.destroyed
  {
  }

  lemma OnlyDestroyEvents(s: Conn, e: Event, read: ReadResult, ops: seq<Op>, write: WriteResult)
    requires Op.Destroy !in ops && !s.f.destroyed
    ensures !HandleEvent(s, e, read, ops, write).f.destroyed
  {
    OnlyDestroyInputs(s, read, ops);
    if e.hup {
      OnlyDestroyCalls(s.(f := s.f.(connected := false)), ops);
    } else {
      FlushFlags(if e.input then Input(s, read, ops) else s, e.output, write);
    }
  }

  lemma DestroyedByAction(s: Conn, a: Action)
    requires !s.f.destroyed && Apply(s, a).f.destroyed
    ensures HoldsDestroy(a)
  {
    if a.OnEvent? && Op.Destroy !in a.ops {
      OnlyDestroyEvents(s, a.event, a.read, a.ops, a.write);
    }
  }

  lemma {:induction false} DestroyedByRun(actions: seq<Action>)
    requires Run(NEW_CONN, actions).f.destroyed
    ensures exists i :: 0 <= i < |actions| && HoldsDestroy(actions[i])
    decreases |actions|
  {
    if actions != [] {
      var n := |actions| - 1;
      var s := Run(NEW_CONN, actions[..n]);
      RunEnd(actions);
      RunKeeps(NEW_CONN, actions[..n]);
      if s.f.destroyed {
        DestroyedByRun(actions[..n]);
        var i :| 0 <= i < n && HoldsDestroy(actions[..n][i]);
        assert HoldsDestroy(actions[i]);
      } else {
        DestroyedByAction(s, actions[n]);
      }
    }
  }

  // Deleted only when done

  /** A dead connection has nothing left for the socket, or its peer is known to be gone. */
  predicate DeadIsDone(s: Conn) {
    !s.f.alive || s.f.deleted ==> s.out == [] || !s.f.connected
  }

  lemma {:induction false} CallbackDone(s: Conn, ops: seq<Op>)
    requires Inv(s) && DeadIsDone(s) && s.f.inCallback && !s.f.deleted
    ensures DeadIsDone(PerformAll(s, ops))
    decreases |ops|
  {
    if ops != [] {
      PerformKeeps(s, ops[0]);
      CallbackDone(Perform(s, ops[0]), ops[1..]);
    }
  }

  lemma InputDone(s: Conn, read: ReadResult, ops: seq<Op>)
    requires Inv(s) && DeadIsDone(s) && !s.f.deleted
    ensures DeadIsDone(Input(s, read, ops))
  {
    CallbackDone(s.(f := s.f.(inCallback := true)), ops);
    CallbackDone(s.(f := s.f.(inCallback := true, connected := false)), ops);
  }

  lemma FlushDone(s: Conn, output: bool, write: WriteResult)
    requires DeadIsDone(s)
    ensures DeadIsDone(Flush(s, output, write))
  {
  }

  lemma EventDone(s: Conn, e: Event, read: ReadResult, ops: seq<Op>, write: WriteResult)
    requires Inv(s) && DeadIsDone(s) && !s.f.deleted && !e.hup
    ensures DeadIsDone(HandleEvent(s, e, read, ops, write))
  {
    InputDone(s, read, ops);
    FlushDone(if e.input then Input(s, read, ops) else s, e.output, write);
  }

  /** Every action keeps that, but for a hang-up and for a posted send after destroy. */
  lemma ActionDone(s: Conn, a: Action)
    requires Inv(s) && DeadIsDone(s)
    requires !(a.OnEvent? && a.event.hup) && !(a.Deferred? && !a.res.Fatal? && s.f.destroyed)
    ensures DeadIsDone(Apply(s, a))
  {
    if a.OnEvent? && !s.f.deleted { EventDone(s, a.event, a.read, a.ops, a.write); }
  }

  lemma {:induction false} RunDone(actions: seq<Action>)
    requires !HungUp(actions) && !LateSend(actions)
    ensures DeadIsDone(Run(NEW_CONN, actions))
    decreases |actions|
  {
    if actions != [] {
      var n := |actions| - 1;
      var before, a := actions[..n], actions[n];
      if j: nat :| LateAt(before, j) {
        LateEarlier(actions, n, j);
        assert false;
      }
      RunDone(before);
      RunEnd(actions);
      RunKeeps(NEW_CONN, before);
      LastIsEarly(actions);
      ActionDone(Run(NEW_CONN, before), a);
    }
  }

  lemma LateEarlier(actions: seq<Action>, n: nat, j: nat)
    requires n <= |actions| && LateAt(actions[..n], j)
    ensures LateAt(actions, j)
  {
    var i :| 0 <= i < j && HoldsDestroy(actions[..n][i]);
    assert HoldsDestroy(actions[i]);
  }

  lemma LastIsEarly(actions: seq<Action>)
    requires actions != [] && !LateSend(actions)
    ensures var n := |actions| - 1;
      actions[n].Deferred? && !actions[n].res.Fatal? ==> !Run(NEW_CONN, actions[..n]).f.destroyed
  {
    var n := |actions| - 1;
    if Run(NEW_CONN, actions[..n]).f.destroyed {
      DestroyedByRun(actions[..n]);
      var i :| 0 <= i < n && HoldsDestroy(actions[..n][i]);
      assert HoldsDestroy(actions[i]) && !LateAt(actions, n);
    }
  }

  /** A connection is deleted only after destroy, and only when every accepted byte went out, it was
      known to be disconnected, an event of the run was a hang-up, or a posted send ran after the
      destroy. */
  lemma DeletedOnlyWhenDone(actions: seq<Action>)
    ensures var s := Run(NEW_CONN, actions);
      s.f.deleted ==>
        && s.f.destroyed
        && (s.wire == s.accepted || !s.f.connected || HungUp(actions) || LateSend(actions))
  {
    var s := Run(NEW_CONN, actions);
    RunKeeps(NEW_CONN, actions);
    if !HungUp(actions) && !LateSend(actions) { RunDone(actions); }
    if s.out == [] { assert s.wire + [] == s.wire; }
  }

  /** Deleted while accepted bytes wait and the peer is there. */
  predicate Lost(s: Conn) {
    s.f.deleted && s.f.connected && s.out != []
  }

  /** Callbacks of a connection that was destroyed do nothing. */
  lemma InputAfterDestroy(s: Conn, read: ReadResult, ops: seq<Op>)
    requires s.f.destroyed && !s.f.inCallback
    ensures Input(s, read, ops) ==
      s.(f := s.f.(connected := s.f.connected && (s.f.needClose || !read.Closed?)))
  {
    DestroyedStays(s.(f := s.f.(inCallback := true)), ops);
    DestroyedStays(s.(f := s.f.(inCallback := true, connected := false)), ops);
  }

  lemma DeadLoses(s: Conn, e: Event, read: ReadResult, ops: seq<Op>, write: WriteResult)
    requires Inv(s) && !s.f.deleted && !s.f.inCallback && !e.hup && !s.f.alive
    ensures Lost(HandleEvent(s, e, read, ops, write)) <==>
      && s.f.connected && !(e.input && read.Closed? && !s.f.needClose)
      && if e.output then !write.Fatal? && Taken(write, |s.out|) < |s.out| else s.out != []
  {
    InputAfterDestroy(s, read, ops);
  }

  /** Short of a hang-up, an action loses accepted bytes exactly if it is an event that finds a
      connection left behind dead, connected, with bytes that it does not write out itself. */
  lemma LosesExactlyWhen(s: Conn, a: Action)
    requires Inv(s) && !s.f.deleted && !s.f.inCallback && !(a.OnEvent? && a.event.hup)
    ensures Lost(Apply(s, a)) <==>
      && a.OnEvent? && !s.f.alive && s.f.connected
      && !(a.event.input && a.read.Closed? && !s.f.needClose)
      && if a.event.output then !a.write.Fatal? && Taken(a.write, |s.out|) < |s.out| else s.out != []
  {
    if a.OnEvent? {
      if s.f.alive {
        EventDone(s, a.event, a.read, a.ops, a.write);
      } else {
        DeadLoses(s, a.event, a.read, a.ops, a.write);
      }
    }
  }

  lemma LeftDead(s: Conn)
    requires s.out == [] && s.f.alive && !s.f.destroyed && !s.f.deleted && !s.f.needClose && !s.f.inCallback
    ensures Apply(s, OnEvent(Event(false, true, true), Data, [Destroy], Fatal)) ==
            s.(f := s.f.(alive := false, destroyed := true))
  {
    var s1 := s.(f := s.f.(inCallback := true));
    assert [Destroy][1..] == [];
    assert PerformAll(s1, [Destroy]) == DoDestroy(s1);
  }

  /** Another thread posts a byte; the data callback destroys the connection and the write of the same
      event fails; the posted send is accepted, and the next event deletes the connection. */
  lemma LossHappens()
    ensures exists actions :: Lost(Run(NEW_CONN, actions)) && !HungUp(actions)
  {
    var a0, a1 := Post([1]), OnEvent(Event(false, true, true), Data, [Destroy], Fatal);
    var a2, a3 := Deferred(Retry), OnEvent(Event(false, false, false), Failed, [], Retry);
    var s0 := Apply(NEW_CONN, a0);
    assert s0.posted == [[1]];
    LeftDead(s0);
    var s2 := Apply(s0, a1);
    var s3 := Apply(s2, a2);
    assert s3.out == [1] by { assert [] + [1] == [1]; }
    var s4 := Apply(s3, a3);
    RunFour(a0, a1, a2, a3);
    assert Lost(Run(NEW_CONN, [a0, a1, a2, a3]));
  }

  lemma RunFour(a0: Action, a1: Action, a2: Action, a3: Action)
    ensures Run(NEW_CONN, [a0, a1, a2, a3]) == Apply(Apply(Apply(Apply(NEW_CONN, a0), a1), a2), a3)
  {
    RunLast(NEW_CONN, [a0, a1, a2], a3);
    RunLast(NEW_CONN, [a0, a1], a2);
    RunLast(NEW_CONN, [a0], a1);
    RunLast(NEW_CONN, [], a0);
    assert [a0, a1, a2] + [a3] == [a0, a1, a2, a3] && [a0, a1] + [a2] == [a0, a1, a2];
    assert [a0] + [a1] == [a0, a1] && [] + [a0] == [a0];
  }

  // Waiting to be closed

  /** Destroy was called while bytes waited; the EPOLLOUT event that writes the last one deletes the
      connection. */
  predicate Closing(s: Conn) {
    s.f.needClose && s.f.alive && !s.f.deleted
  }

  /** The bytes are out and the write interest is gone, so no such event is due. */
  predicate Stalled(s: Conn) {
    Closing(s) && s.out == []
  }

  /** Runs a posted send that takes all waiting bytes and its own. */
  predicate TakesAll(s: Conn, a: Action) {
    a.Deferred? && s.posted != [] && a.res.Wrote? && a.res.n >= |s.out| + |s.posted[0]|
  }

  /** A connection waiting to be closed stalls exactly when a posted send takes everything. */
  lemma StallsExactlyWhen(s: Conn, a: Action)
    requires Inv(s) && Closing(s) && !Stalled(s)
    ensures Stalled(Apply(s, a)) <==> TakesAll(s, a)
  {
    if a.OnEvent? { assert Input(s, a.read, a.ops) == s; }
  }

  lemma {:induction false} CallbackStall(s: Conn, ops: seq<Op>)
    requires s.f.destroyed || !s.f.needClose
    requires !Stalled(s)
    ensures !Stalled(PerformAll(s, ops))
    decreases |ops|
  {
    if ops != [] { CallbackStall(Perform(s, ops[0]), ops[1..]); }
  }

  lemma InputStall(s: Conn, read: ReadResult, ops: seq<Op>)
    requires Inv(s) && !Stalled(s)
    ensures !Stalled(Input(s, read, ops))
  {
    CallbackStall(s.(f := s.f.(inCallback := true)), ops);
    CallbackStall(s.(f := s.f.(inCallback := true, connected := false)), ops);
  }

  lemma HangupStall(s: Conn, ops: seq<Op>)
    requires Inv(s) && !Stalled(s)
    ensures !Stalled(Hangup(s, ops))
  {
    CallbackStall(s.(f := s.f.(inCallback := true, connected := false)), ops);
  }

  lemma FlushStall(s: Conn, output: bool, write: WriteResult)
    requires !Stalled(s)
    ensures !Stalled(Flush(s, output, write))
  {
  }

  lemma EventStall(s: Conn, e: Event, read: ReadResult, ops: seq<Op>, write: WriteResult)
    requires Inv(s) && !Stalled(s)
    ensures !Stalled(HandleEvent(s, e, read, ops, write))
  {
    InputStall(s, read, ops);
    HangupStall(s, ops);
    FlushStall(if e.input then Input(s, read, ops) else s, e.output, write);
  }

  /** A connection that is not waiting to be closed does not stall. */
  lemma NewStall(s: Conn, a: Action)
    requires Inv(s) && !Closing(s)
    ensures !Stalled(Apply(s, a))
  {
    if a.OnEvent? { EventStall(s, a.event, a.read, a.ops, a.write); }
  }

  /** Action j is a posted send, after an action that destroys, that took all bytes of a connection
      waiting to be closed. */
  ghost predicate EmptiedAt(actions: seq<Action>, j: nat) {
    && j < |actions|
    && Closing(Run(NEW_CONN, actions[..j])) && TakesAll(Run(NEW_CONN, actions[..j]), actions[j])
    && exists i :: 0 <= i < j && HoldsDestroy(actions[i])
  }

  lemma {:induction false} StalledByRun(actions: seq<Action>)
    requires Stalled(Run(NEW_CONN, actions))
    ensures exists j: nat :: EmptiedAt(actions, j)
    decreases |actions|
  {
    if actions != [] {
      var n := |actions| - 1;
      var s, a := Run(NEW_CONN, actions[..n]), actions[n];
      RunEnd(actions);
      RunKeeps(NEW_CONN, actions[..n]);
      if Stalled(s) {
        StalledByRun(actions[..n]);
        var j: nat :| EmptiedAt(actions[..n], j);
        assert actions[..n][..j] == actions[..j];
        var i :| 0 <= i < j && HoldsDestroy(actions[..n][i]);
        assert HoldsDestroy(actions[i]);
        assert EmptiedAt(actions, j);
      } else if Closing(s) {
        StallsExactlyWhen(s, a);
        DestroyedByRun(actions[..n]);
        var i :| 0 <= i < n && HoldsDestroy(actions[..n][i]);
        assert HoldsDestroy(actions[i]);
        assert EmptiedAt(actions, n);
      } else {
        NewStall(s, a);
        assert false;
      }
    }
  }

  /** A connection waiting to be closed keeps its write interest, unless one of the actions was a
      posted send that emptied it after the destroy. */
  lemma ClosingIsArmed(actions: seq<Action>)
    ensures var s := Run(NEW_CONN, actions);
      Closing(s) ==> s.f.epollOut || exists j: nat :: EmptiedAt(actions, j)
  {
    RunKeeps(NEW_CONN, actions);
    if Stalled(Run(NEW_CONN, actions)) { StalledByRun(actions); }
  }

  /** One byte waits, another thread posts one, the connection is destroyed, and the posted send takes
      both bytes. */
  lemma StallHappens()
    ensures exists actions :: Stalled(Run(NEW_CONN, actions))
  {
    var a0, a1, a2, a3 := Call(Send([1], Retry)), Post([2]), Call(Destroy), Deferred(Wrote(2));
    var s0 := Apply(NEW_CONN, a0);
    assert s0.out == [1] by { assert [] + [1] == [1]; }
    var s1 := Apply(s0, a1);
    assert s1.posted == [[2]];
    var s2 := Apply(s1, a2);
    assert Inv(s2) by { RunKeeps(NEW_CONN, [a0, a1, a2]); RunThree(a0, a1, a2); }
    StallsExactlyWhen(s2, a3);
    RunFour(a0, a1, a2, a3);
  }

  lemma RunThree(a0: Action, a1: Action, a2: Action)
    ensures Run(NEW_CONN, [a0, a1, a2]) == Apply(Apply(Apply(NEW_CONN, a0), a1), a2)
  {
    RunLast(NEW_CONN, [a0, a1], a2);
    RunLast(NEW_CONN, [a0], a1);
    RunLast(NEW_CONN, [], a0);
    assert [a0, a1] + [a2] == [a0, a1, a2] && [a0] + [a1] == [a0, a1] && [] + [a0] == [a0];
  }

  // Posted sends and the end of the connection

  /** How often the actions run a posted send on the deleted connection s. */
  function UsesFreed(s: Conn, actions: seq<Action>): nat
    decreases |actions|
  {
    if actions == [] then 0
    else
      (if actions[0].Deferred? && s.f.deleted && s.posted != [] then 1 else 0)
        + UsesFreed(Apply(s, actions[0]), actions[1..])
  }

  lemma {:induction false} PostedOutlive(s: Conn, actions: seq<Action>)
    requires s.f.deleted && s.f.destroyed
    ensures Run(s, actions).f == s.f
    ensures UsesFreed(s, actions) + |Run(s, actions).posted| == |s.posted|
    decreases |actions|
  {
    if actions != [] { PostedOutlive(Apply(s, actions[0]), actions[1..]); }
  }

  /** When all posted sends have run, the freed connection was used exactly if one was still posted when
      it was deleted, and as often as there were such sends. */
  lemma FreedIsUsedExactlyWhen(before: seq<Action>, a: Action, after: seq<Action>)
    requires var s := Run(NEW_CONN, before); !s.f.deleted && Apply(s, a).f.deleted
    requires Run(Apply(Run(NEW_CONN, before), a), after).posted == []
    ensures var s := Apply(Run(NEW_CONN, before), a);
      UsesFreed(s, after) == |s.posted| && (UsesFreed(s, after) > 0 <==> s.posted != [])
  {
    var s := Run(NEW_CONN, before);
    RunKeeps(NEW_CONN, before);
    ActionKeeps(s, a);
    PostedOutlive(Apply(s, a), after);
  }

  /** A send is posted, and the connection destroyed before it runs. */
  lemma FreedUseHappens()
    ensures exists before, a, after :: var s := Run(NEW_CONN, before);
      !s.f.deleted && Apply(s, a).f.deleted && UsesFreed(Apply(s, a), after) > 0
  {
    var before, after := [Post([1])], [Deferred(Retry)];
    assert before[1..] == [] && after[1..] == [];
    var s := Apply(NEW_CONN, Post([1]));
    assert Run(NEW_CONN, before) == s;
    var s1 := Apply(s, Call(Destroy));
    assert UsesFreed(s1, after) == 1 + UsesFreed(Apply(s1, Deferred(Retry)), []);
  }

  // Left behind

  /** The waiting bytes after an operation of the callback. */
  function AfterOp(out: seq<Byte>, op: Op): seq<Byte> {
    match op
    case Destroy => out
    case Send(data, res) => if data == [] || res.Fatal? then out else (out + data)[Taken(res, |out + data|)..]
  }

  function Unsent(out: seq<Byte>, ops: seq<Op>): seq<Byte>
    decreases |ops|
  {
    if ops == [] then out else Unsent(AfterOp(out, ops[0]), ops[1..])
  }

  ghost predicate FirstDestroy(ops: seq<Op>, i: nat) {
    i < |ops| && ops[i].Destroy? && forall j :: 0 <= j < i ==> !ops[j].Destroy?
  }

  /** The callback destroys the connection while nothing waits or the peer is known to be gone. */
  ghost predicate Kills(out: seq<Byte>, connected: bool, ops: seq<Op>) {
    exists i: nat :: FirstDestroy(ops, i) && (!connected || Unsent(out, ops[..i]) == [])
  }

  lemma KillsStep(out: seq<Byte>, connected: bool, ops: seq<Op>)
    requires ops != []
    ensures Kills(out, connected, ops) <==>
      if ops[0].Destroy? then !connected || out == [] else Kills(AfterOp(out, ops[0]), connected, ops[1..])
  {
    if ops[0].Destroy? {
      assert FirstDestroy(ops, 0) && ops[..0] == [];
    } else {
      forall i: nat ensures FirstDestroy(ops, i + 1) <==> FirstDestroy(ops[1..], i) {}
      forall i: nat | i < |ops[1..]| ensures Unsent(out, ops[..i + 1]) == Unsent(AfterOp(out, ops[0]), ops[1..][..i]) {
        assert ops[..i + 1][1..] == ops[1..][..i];
      }
      if Kills(out, connected, ops) {
        var i: nat :| FirstDestroy(ops, i) && (!connected || Unsent(out, ops[..i]) == []);
        assert FirstDestroy(ops[1..], i - 1);
      }
      if Kills(AfterOp(out, ops[0]), connected, ops[1..]) {
        var i: nat :| FirstDestroy(ops[1..], i) && (!connected || Unsent(AfterOp(out, ops[0]), ops[1..][..i]) == []);
        assert FirstDestroy(ops, i + 1);
      }
    }
  }

  lemma {:induction false} DestroyedStays(s: Conn, ops: seq<Op>)
    requires s.f.destroyed
    ensures PerformAll(s, ops) == s
    decreases |ops|
  {
    if ops != [] { DestroyedStays(s, ops[1..]); }
  }

  lemma SendInCallback(s: Conn, out: seq<Byte>, op: Op)
    requires s.f.inCallback && s.f.alive && !s.f.destroyed && op.Send? && (s.f.connected ==> s.out == out)
    ensures var s' := Perform(s, op);
      && s'.f.inCallback && s'.f.alive && !s'.f.destroyed && s'.f.connected == s.f.connected
      && (s'.f.connected ==> s'.out == AfterOp(out, op))
  {
  }

  lemma DestroyInCallback(s: Conn, op: Op)
    requires s.f.inCallback && s.f.alive && !s.f.destroyed && op.Destroy?
    ensures var s' := Perform(s, op);
      s'.f.destroyed && (!s'.f.alive <==> !s.f.connected || s.out == [])
  {
  }

  lemma {:induction false} CallbackKills(s: Conn, out: seq<Byte>, ops: seq<Op>)
    requires s.f.inCallback && s.f.alive && !s.f.destroyed && (s.f.connected ==> s.out == out)
    ensures !PerformAll(s, ops).f.alive <==> Kills(out, s.f.connected, ops)
    decreases |ops|
  {
    if ops != [] {
      KillsStep(out, s.f.connected, ops);
      if ops[0].Destroy? {
        DestroyInCallback(s, ops[0]);
        DestroyedStays(Perform(s, ops[0]), ops[1..]);
      } else {
        SendInCallback(s, out, ops[0]);
        CallbackKills(Perform(s, ops[0]), AfterOp(out, ops[0]), ops[1..]);
      }
    }
  }

  lemma InputKills(s: Conn, read: ReadResult, ops: seq<Op>)
    requires Inv(s) && !s.f.inCallback && s.f.alive
    ensures !Input(s, read, ops).f.alive <==>
      !s.f.destroyed && !read.Failed? && Kills(s.out, s.f.connected && !read.Closed?, ops)
  {
    if !s.f.needClose && !read.Failed? {
      var s1 := s.(f := s.f.(connected := s.f.connected && !read.Closed?, inCallback := true));
      if s.f.destroyed {
        DestroyedStays(s1, ops);
      } else {
        CallbackKills(s1, s.out, ops);
      }
    }
  }

  lemma ReapLeaves(s: Conn)
    requires !s.f.deleted
    ensures !Reap(s).f.alive <==> Reap(s).f.deleted
  {
  }

  lemma FlushLeaves(s: Conn, output: bool, write: WriteResult)
    requires !s.f.deleted
    ensures var s' := Flush(s, output, write);
      !s'.f.alive && !s'.f.deleted <==> output && write.Fatal? && !s.f.alive
  {
    if !(output && write.Fatal?) {
      ReapLeaves(if output then Output(s, write) else s);
    }
  }

  /** An event reaps the connection it finds dead, except on one path: the input callback destroys the
      connection, while nothing waits or after the peer closed, and the write of the same event then
      fails fatally.  Then it is left behind, neither alive nor deleted. */
  lemma LeftBehindExactlyWhen(s: Conn, e: Event, read: ReadResult, ops: seq<Op>, write: WriteResult)
    requires Inv(s) && !s.f.deleted && !s.f.inCallback && s.f.alive
    ensures var s' := HandleEvent(s, e, read, ops, write);
      !s'.f.alive && !s'.f.deleted <==>
        && !e.hup && e.input && e.output && write.Fatal?
        && !s.f.destroyed && !read.Failed? && Kills(s.out, s.f.connected && !read.Closed?, ops)
  {
    InputKeeps(s, read, ops);
    InputKills(s, read, ops);
    HangupKeeps(s, ops);
    FlushLeaves(if e.input then Input(s, read, ops) else s, e.output, write);
  }

  /** The path exists: the peer closes while bytes wait, the close callback destroys the
      connection, and the flush of the same event fails. */
  lemma LeftBehindHappens()
    ensures exists actions :: var s := Run(NEW_CONN, actions); !s.f.alive && !s.f.deleted
  {
    var a0 := Call(Send([1], Retry));
    var a1 := OnEvent(Event(false, true, true), Closed, [Destroy], Fatal);
    var s0 := Apply(NEW_CONN, a0);
    assert s0.out == [1] by { assert [] + [1] == [1]; }
    var s1 := s0.(f := s0.f.(connected := false, inCallback := true));
    assert [Destroy][1..] == [];
    assert PerformAll(s1, [Destroy]) == DoDestroy(s1);
    assert Apply(s0, a1).f == DoDestroy(s1).f.(inCallback := false);
    var actions := [a0, a1];
    assert actions[1..] == [a1] && [a1][1..] == [];
    assert Run(s0, [a1]) == Apply(s0, a1);
    assert Run(NEW_CONN, actions) == Apply(s0, a1);
  }

  /** When the last byte of a connection waiting to be closed goes out, that event deletes it. */
  lemma FlushCloses(s: Conn, e: Event, read: ReadResult, ops: seq<Op>, write: WriteResult)
    requires Inv(s) && !s.f.deleted && !s.f.inCallback && s.f.needClose
    requires !e.hup && e.output && !write.Fatal?
    ensures var s' := HandleEvent(s, e, read, ops, write);
      Taken(write, |s.out|) == |s.out| ==> s'.f.deleted && s'.wire == s.accepted
  {
    assert s.wire + s.out[..|s.out|] == s.wire + s.out;
  }

  // ---------------------------------------------------------------- what each event does

  /** A connection without peer refuses what its callback sends; a destroy kills it. */
  lemma {:induction false} GoneCallback(s: Conn, ops: seq<Op>)
    requires s.f.inCallback && !s.f.connected && s.f.alive && !s.f.destroyed
    ensures var s', dies := PerformAll(s, ops), Op.Destroy in ops;
      s' == s.(f := s.f.(destroyed := dies, alive := !dies))
    decreases |ops|
  {
    if ops != [] {
      assert ops == [ops[0]] + ops[1..];
      if ops[0].Destroy? {
        DestroyedStays(Perform(s, ops[0]), ops[1..]);
      } else {
        GoneCallback(s, ops[1..]);
      }
    }
  }

  /** After a hang-up a connection that waited to be closed, or was left behind, is deleted.  Any other
      has lost its peer, and is deleted exactly if its close callback destroys it.  No byte moves:
      what the callback sends is refused. */
  lemma HangupEnds(s: Conn, e: Event, read: ReadResult, ops: seq<Op>, write: WriteResult)
    requires Inv(s) && !s.f.deleted && !s.f.inCallback && e.hup
    ensures var s' := HandleEvent(s, e, read, ops, write);
      && (s.f.needClose || !s.f.alive ==> s'.f.deleted)
      && (!s.f.needClose ==> !s'.f.connected)
      && (s.f.alive && !s.f.destroyed ==> (s'.f.deleted <==> Op.Destroy in ops))
      && s'.out == s.out && s'.wire == s.wire && s'.accepted == s.accepted && s'.posted == s.posted
  {
    var s1 := s.(f := s.f.(inCallback := true, connected := false));
    if s.f.destroyed {
      DestroyedStays(s1, ops);
    } else {
      GoneCallback(s1, ops);
    }
  }

  /** The end of the stream, on a connection that does not wait to be closed: the same, short of the
      fatal write error that returns early. */
  lemma StreamEnds(s: Conn, output: bool, ops: seq<Op>, write: WriteResult)
    requires Inv(s) && s.f.alive && !s.f.destroyed && !s.f.deleted && !s.f.inCallback
    ensures var s' := HandleEvent(s, Event(false, true, output), Closed, ops, write);
      && !s'.f.connected && s'.accepted == s.accepted
      && (s'.f.alive <==> Op.Destroy !in ops)
      && (s'.f.deleted <==> Op.Destroy in ops && !(output && write.Fatal?))
  {
    GoneCallback(s.(f := s.f.(inCallback := true, connected := false)), ops);
  }

  /** What a callback's sends add to the accepted data: all up to its destroy that are not empty and
      that no fatal error answers. */
  function SentBy(ops: seq<Op>): seq<Byte> {
    if ops == [] || ops[0].Destroy? then []
    else (if ops[0].res.Fatal? then [] else ops[0].data) + SentBy(ops[1..])
  }

  lemma {:induction false} CallbackSends(s: Conn, ops: seq<Op>)
    requires s.f.connected && !s.f.destroyed
    ensures var s' := PerformAll(s, ops);
      && s'.accepted == s.accepted + SentBy(ops) && s'.f.connected && s'.posted == s.posted
      && (s'.f.destroyed <==> Op.Destroy in ops)
    decreases |ops|
  {
    if ops == [] {
      assert s.accepted + [] == s.accepted;
    } else {
      assert ops == [ops[0]] + ops[1..];
      var s1 := Perform(s, ops[0]);
      if ops[0].Destroy? {
        DestroyedStays(s1, ops[1..]);
        assert s.accepted + [] == s.accepted;
      } else {
        CallbackSends(s1, ops[1..]);
        assert s1.accepted == s.accepted + (if ops[0].res.Fatal? then [] else ops[0].data);
        Associates(s.accepted, if ops[0].res.Fatal? then [] else ops[0].data, SentBy(ops[1..]));
      }
    }
  }

  lemma FlushTells(s: Conn, output: bool, write: WriteResult)
    ensures var s' := Flush(s, output, write);
      s'.accepted == s.accepted && s'.f.connected == s.f.connected && s'.f.destroyed == s.f.destroyed
  {
  }

  lemma InputSends(s: Conn, ops: seq<Op>)
    requires s.f.connected && !s.f.destroyed && !s.f.needClose && !s.f.inCallback
    ensures var s' := Input(s, Data, ops);
      && s'.accepted == s.accepted + SentBy(ops) && s'.f.connected && (s'.f.destroyed <==> Op.Destroy in ops)
  {
    CallbackSends(s.(f := s.f.(inCallback := true)), ops);
  }

  /** Data for a connected connection that was not destroyed: its callback runs, so the accepted data
      grows by what the callback sends, and it is destroyed exactly if the callback does so. */
  lemma DataArrives(s: Conn, output: bool, ops: seq<Op>, write: WriteResult)
    requires Inv(s) && s.f.connected && s.f.alive && !s.f.destroyed && !s.f.deleted && !s.f.inCallback
    ensures var s' := HandleEvent(s, Event(false, true, output), Data, ops, write);
      && s'.accepted == s.accepted + SentBy(ops) && s'.f.connected
      && (s'.f.destroyed <==> Op.Destroy in ops)
  {
    InputSends(s, ops);
    FlushTells(Input(s, Data, ops), output, write);
  }

  /** A read error alone changes nothing. */
  lemma ReadFails(s: Conn, ops: seq<Op>, write: WriteResult)
    requires Inv(s) && s.f.alive && !s.f.deleted
    ensures HandleEvent(s, Event(false, true, false), Failed, ops, write) == s
  {
  }

  /** An event that only says writable: the socket takes what it can of the waiting bytes. */
  lemma Writable(s: Conn, read: ReadResult, ops: seq<Op>, write: WriteResult)
    requires Inv(s) && !s.f.deleted && s.f.alive
    ensures var s', n := HandleEvent(s, Event(false, false, true), read, ops, write), Taken(write, |s.out|);
      && s'.wire == s.wire + s.out[..n] && s'.out == s.out[n..] && s'.accepted == s.accepted
      && (s'.f.deleted <==> s.f.needClose && !write.Fatal? && n == |s.out|)
  {
    if write.Fatal? { assert s.wire + s.out[..0] == s.wire; }
  }

  /** Destroy ends a connection at once, outside its callbacks, unless bytes wait for a peer that is
      there; then it only stops reading. */
  lemma DestroyEnds(s: Conn)
    requires Inv(s) && s.f.alive && !s.f.destroyed && !s.f.deleted
    ensures var s', waits := Apply(s, Call(Destroy)), s.out != [] && s.f.connected;
      && s'.f.destroyed && (Closing(s') <==> waits) && (s'.f.epollIn <==> !waits)
      && (s'.f.deleted <==> !waits && !s.f.inCallback) && (s'.f.alive <==> waits || !s.f.inCallback)
      && s'.out == s.out && s'.wire == s.wire && s'.accepted == s.accepted
  {
  }
}
