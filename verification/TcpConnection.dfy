/** tcp_connection.c: the send path over the byte buffer, write interest and the deferred close. */
module TcpConnection {
  import opened Bytes
  import opened Buffer
  import opened TcpModel

  class TcpConnection {
    const outBuffer: Buffer
    /** The flag fields of struct tcp_connection, the event mask of its channel, whether it was
        freed, and the application's side of the contract (destroyed: it gave its handle back). */
    var flags: Flags
    /** The sends other threads handed to loop_async that did not run yet. */
    var posted: seq<seq<Byte>>
    ghost var g: Conn

    ghost predicate Valid()
      reads this, outBuffer, outBuffer.data
    {
      && outBuffer.Valid() && g.out == outBuffer.Contents() && g.f == flags
      && g.posted == posted && [] !in posted
    }

    /** The buffer grows into fresh memory only. */
    twostate predicate Framed()
      reads this, outBuffer, outBuffer.data
    {
      outBuffer.data == old(outBuffer.data) || fresh(outBuffer.data)
    }

    constructor ()
      ensures Valid() && g == NEW_CONN && fresh(outBuffer) && fresh(outBuffer.data)
    {
      outBuffer := new Buffer(4096);
      flags, posted, g := NEW_CONN.f, [], NEW_CONN;
    }

    /** write and writev: the socket takes a prefix of what it is offered. */
    ghost method Transfer(offered: seq<Byte>, res: WriteResult)
      modifies `g
      ensures g == old(g).(wire := old(g).wire + offered[..Taken(res, |offered|)])
    {
      g := g.(wire := g.wire + offered[..Taken(res, |offered|)]);
    }

    /** The four outcomes of writev over the waiting bytes and the new ones; armed says whether
        EPOLLOUT is then set or cleared. */
    method AfterWritev(data: seq<Byte>, retry: bool, written: nat, ghost all: seq<Byte>) returns (armed: bool)
      requires outBuffer.Valid() && data != [] && all == outBuffer.Contents() + data
      requires outBuffer.Contents() != [] && written <= |all| && (retry ==> written == 0)
      modifies outBuffer, outBuffer.data
      ensures outBuffer.Valid() && Framed()
      ensures outBuffer.Contents() == all[written..] && armed == (written < |all|)
    {
      var left := outBuffer.ReadableBytes();
      if retry {
        var n := outBuffer.Append(data);
        armed := true;
      } else if written == left + |data| {
        outBuffer.RetrieveAll();
        armed := false;
      } else if written < left {
        outBuffer.Retrieve(written);
        var n := outBuffer.Append(data);
        armed := true;
      } else {
        outBuffer.RetrieveAll();
        var n := outBuffer.Append(data[written - left..]);
        armed := true;
      }
    }

    /** The three outcomes of write when nothing waits. */
    method AfterWrite(data: seq<Byte>, retry: bool, written: nat) returns (armed: bool)
      requires outBuffer.Valid() && data != []
      requires outBuffer.Contents() == [] && written <= |data| && (retry ==> written == 0)
      modifies outBuffer, outBuffer.data
      ensures outBuffer.Valid() && Framed()
      ensures outBuffer.Contents() == data[written..] && armed == (written < |data|)
    {
      if retry {
        var n := outBuffer.Append(data);
        armed := true;
      } else if written < |data| {
        var n := outBuffer.Append(data[written..]);
        armed := true;
      } else {
        armed := false;
      }
    }

    /** Offers the waiting bytes and the new ones, and keeps in the buffer what was not taken. */
    method Offer(data: seq<Byte>, res: WriteResult, ghost all: seq<Byte>) returns (armed: bool)
      requires outBuffer.Valid() && data != [] && !res.Fatal? && all == outBuffer.Contents() + data
      modifies `g, outBuffer, outBuffer.data
      ensures outBuffer.Valid() && Framed()
      ensures g == old(g).(wire := old(g).wire + all[..Taken(res, |all|)])
      ensures outBuffer.Contents() == all[Taken(res, |all|)..] && armed == (Taken(res, |all|) < |all|)
    {
      var left := outBuffer.ReadableBytes();
      var written := Taken(res, left + |data|);
      assert left + |data| == |all|;
      Transfer(all, res);
      if left > 0 {
        armed := AfterWritev(data, res.Retry?, written, all);
      } else {
        assert all == data;
        armed := AfterWrite(data, res.Retry?, written);
      }
    }

    /** tcp_connection_sendInLoop: 0 exactly when the data is accepted. */
    method SendInLoop(data: seq<Byte>, res: WriteResult) returns (result: int)
      requires Valid() && data != []
      modifies `flags, `g, outBuffer, outBuffer.data
      ensures Valid() && Framed()
      ensures g == DoSend(old(g), data, res)
      ensures result == if res.Fatal? then -1 else 0
    {
      if res.Fatal? { return -1; }
      ghost var all := g.out + data;
      ghost var n := Taken(res, |all|);
      SendParts(g, data, res, all, n);
      var armed := Offer(data, res, all);
      flags := flags.(epollOut := armed);
      g := g.(out := all[n..], accepted := g.accepted + data, f := flags);
      result := 0;
    }

    static lemma SendParts(s: Conn, data: seq<Byte>, res: WriteResult, all: seq<Byte>, n: nat)
      requires !res.Fatal? && all == s.out + data && n == Taken(res, |all|)
      ensures DoSend(s, data, res) ==
              s.(wire := s.wire + all[..n], out := all[n..], accepted := s.accepted + data,
                 f := s.f.(epollOut := n < |all|))
    {
    }

    /** tcp_connection_send: the loop thread offers the data to the socket, any other thread posts a
        copy.  The result of sendInLoop is ignored: 0 does not tell whether the data was accepted. */
    method Send(data: seq<Byte>, res: WriteResult, inLoopThread: bool) returns (result: int)
      requires Valid() && !flags.destroyed
      modifies `flags, `posted, `g, outBuffer, outBuffer.data
      ensures Valid() && Framed()
      ensures result == if data == [] || !old(flags).connected then -1 else 0
      ensures g == if inLoopThread then Perform(old(g), Op.Send(data, res)) else Apply(old(g), Post(data))
      ensures result == 0 && !inLoopThread ==> posted == old(posted) + [data]
      ensures result == 0 && inLoopThread ==> (g.accepted == old(g).accepted <==> res.Fatal?)
    {
      if data == [] { return -1; }
      if !flags.connected { return -1; }
      if inLoopThread {
        assert |g.accepted + data| > |g.accepted|;
        var r := SendInLoop(data, res);
      } else {
        posted := posted + [data];
        g := g.(posted := posted);
      }
      result := 0;
    }

    /** do_tcp_connection_send: the oldest posted send runs on the loop thread. */
    method RunPosted(res: WriteResult)
      requires Valid() && !flags.deleted && posted != []
      modifies `flags, `posted, `g, outBuffer, outBuffer.data
      ensures Valid() && Framed()
      ensures g == Apply(old(g), Deferred(res))
    {
      var data := posted[0];
      posted := posted[1..];
      g := g.(posted := posted);
      var r := SendInLoop(data, res);
    }

    /** do_tcp_connection_destroy: with bytes waiting on a live connection only the read interest
        goes; otherwise the connection is freed, or marked if its callback is running. */
    method Destroy()
      requires Valid() && !flags.destroyed && !flags.deleted
      modifies `flags, `g
      ensures Valid() && outBuffer.data == old(outBuffer.data)
      ensures g == Perform(old(g), Op.Destroy)
    {
      var pending := outBuffer.ReadableBytes();
      flags := flags.(destroyed := true);
      if pending > 0 && flags.connected {
        flags := flags.(epollIn := false, epollOut := true, needClose := true);
      } else if flags.inCallback {
        flags := flags.(alive := false);
      } else {
        flags := flags.(deleted := true);
      }
      g := g.(f := flags);
    }

    method PerformOp(op: Op)
      requires Valid() && !flags.deleted
      modifies `flags, `posted, `g, outBuffer, outBuffer.data
      ensures Valid() && Framed() && posted == old(posted)
      ensures g == Perform(old(g), op)
    {
      if !flags.destroyed {
        match op
        case Send(data, res) => var r := Send(data, res, true);
        case Destroy => Destroy();
      }
    }

    /** closecb or datacb, asking for `ops`. */
    method Callback(ops: seq<Op>)
      requires Valid() && !flags.deleted && Inv(g)
      modifies `flags, `posted, `g, outBuffer, outBuffer.data
      ensures Valid() && Framed() && posted == old(posted)
      ensures g == TcpModel.Callback(old(g), ops)
    {
      flags := flags.(inCallback := true);
      g := g.(f := flags);
      ghost var all := PerformAll(g, ops);
      var i := 0;
      assert ops[0..] == ops;
      while i < |ops|
        invariant i <= |ops| && Valid() && Framed() && posted == old(posted)
        invariant Inv(g) && g.f.inCallback && !g.f.deleted
        invariant PerformAll(g, ops[i..]) == all
      {
        assert ops[i..][0] == ops[i] && ops[i..][1..] == ops[i + 1..];
        PerformKeeps(g, ops[i]);
        PerformOp(ops[i]);
        i := i + 1;
      }
      flags := flags.(inCallback := false);
      g := g.(f := flags);
    }

    /** The EPOLLIN branch. */
    method OnInput(read: ReadResult, ops: seq<Op>)
      requires Valid() && !flags.deleted && Inv(g)
      modifies `flags, `posted, `g, outBuffer, outBuffer.data
      ensures Valid() && Framed() && posted == old(posted)
      ensures g == Input(old(g), read, ops)
    {
      if !flags.needClose {
        if read.Closed? {
          flags := flags.(connected := false);
          g := g.(f := flags);
          Callback(ops);
        } else if read.Data? {
          Callback(ops);
        }
      }
    }

    /** Writes the waiting bytes and drops those the socket took. */
    method Drain(res: WriteResult) returns (done: bool)
      requires Valid()
      modifies outBuffer, `g
      ensures Valid() && outBuffer.data == old(outBuffer.data)
      ensures done == (Taken(res, |old(g).out|) >= |old(g).out|)
      ensures var s := old(g); var n := Taken(res, |s.out|);
        g == s.(wire := s.wire + s.out[..n], out := s.out[n..])
    {
      var size := outBuffer.ReadableBytes();
      var written := Taken(res, size);
      Transfer(g.out, res);
      outBuffer.Retrieve(written);
      g := g.(out := g.out[written..]);
      done := written >= size;
    }

    /** The EPOLLOUT branch, when write did not fail fatally. */
    method OnOutput(res: WriteResult)
      requires Valid() && !res.Fatal?
      modifies `flags, `g, outBuffer
      ensures Valid() && outBuffer.data == old(outBuffer.data)
      ensures g == Output(old(g), res)
    {
      var done := Drain(res);
      if done {
        flags := flags.(epollOut := false);
        if flags.needClose {
          flags := flags.(alive := false);
        }
        g := g.(f := flags);
      }
    }

    /** The EPOLLHUP branch. */
    method OnHangup(ops: seq<Op>)
      requires Valid() && !flags.deleted && Inv(g)
      modifies `flags, `posted, `g, outBuffer, outBuffer.data
      ensures Valid() && Framed() && posted == old(posted)
      ensures g == Hangup(old(g), ops)
    {
      if !flags.needClose {
        flags := flags.(connected := false);
        g := g.(f := flags);
        Callback(ops);
      } else {
        flags := flags.(alive := false);
        g := g.(f := flags);
      }
    }

    /** delete_connection, if the connection is dead. */
    method DeleteIfDead()
      requires Valid()
      modifies `flags, `g
      ensures Valid() && g == Reap(old(g))
    {
      if !flags.alive {
        flags := flags.(deleted := true);
        g := g.(f := flags);
      }
    }

    /** connection_onevent. */
    method OnEvent(e: Event, read: ReadResult, ops: seq<Op>, write: WriteResult)
      requires Valid() && !flags.deleted && !flags.inCallback && Inv(g)
      modifies `flags, `posted, `g, outBuffer, outBuffer.data
      ensures Valid() && Framed() && posted == old(posted)
      ensures g == HandleEvent(old(g), e, read, ops, write)
    {
      if e.hup {
        OnHangup(ops);
      } else {
        if e.input { OnInput(read, ops); }
        if e.output {
          if write.Fatal? { return; }
          OnOutput(write);
        }
      }
      DeleteIfDead();
    }
  }
}
