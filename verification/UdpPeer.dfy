/** The UDP peer object: a reference count and callback fields changed by deferred tasks, and the
    receive area filled and walked in one readable event. */
module UdpPeer {
  import opened Bytes
  import opened Memory
  import opened UdpModel

  type Callback = nat

  class UdpPeer {
    var refCount: int
    var messagecb: Option<Callback>
    var messageUserdata: nat
    var writecb: Option<Callback>
    var writeUserdata: nat
    var watchesIn: bool
    var watchesOut: bool
    var freed: bool
    const data: array<Byte>
    var chunkCount: nat
    /** The messages handed to the message callback. */
    ghost var delivered: seq<Datagram>
    ghost var g: Peer

    ghost predicate Valid()
      reads this
    {
      && Inv(g) && refCount == g.ref && freed == (g.freed > 0)
      && data.Length == AREA
    }

    constructor (cb: Callback, writecb: Option<Callback>, userdata: nat)
      ensures Valid() && g == FRESH_PEER && delivered == []
      ensures messagecb == Some(cb) && this.writecb == writecb
      ensures messageUserdata == writeUserdata == userdata
      ensures !watchesIn && !watchesOut && !freed && chunkCount == 0
    {
      refCount := 1;
      messagecb, messageUserdata := Some(cb), userdata;
      this.writecb, writeUserdata := writecb, userdata;
      watchesIn, watchesOut, freed := false, false, false;
      data := new Byte[AREA](_ => 0);
      chunkCount := 0;
      delivered, g := [], FRESH_PEER;
    }

    /** init_udp_peer_event, on a peer that is still there. */
    method InitEvent()
      requires Valid() && Enabled(g, RunInit) && !freed
      modifies `watchesIn, `watchesOut, `g
      ensures Valid() && g == Apply(old(g), RunInit)
      ensures watchesIn && watchesOut == (old(watchesOut) || writecb.Some?)
    {
      StepKeepsInv(g, RunInit);
      watchesIn := true;
      if writecb.Some? {
        watchesOut := true;
      }
      g := Apply(g, RunInit);
    }

    /** udp_peer_onmessage and udp_peer_onwrite up to the queueing of their task: the caller's own
        reference keeps the peer from being freed until that task has run. */
    method Retain()
      requires Valid() && Enabled(g, Step.Retain)
      modifies `refCount, `g
      ensures Valid() && g == Apply(Apply(old(g), Step.Retain), Post)
    {
      assert !freed;
      StepKeepsInv(g, Step.Retain);
      refCount := refCount + 1;
      g := Apply(g, Step.Retain);
      StepKeepsInv(g, Post);
      g := Apply(g, Post);
    }

    /** delete_udp_peer. */
    method Delete()
      requires !freed
      modifies `freed, `watchesIn, `watchesOut
      ensures freed && !watchesIn && !watchesOut
    {
      watchesIn, watchesOut := false, false;
      freed := true;
    }

    /** do_udp_peer_onmessage: the peer is there, whatever ran before, and is freed if no other task
        is left. */
    method DoOnMessage(cb: Option<Callback>, userdata: nat)
      requires Valid() && Enabled(g, RunNotify)
      modifies `refCount, `messagecb, `messageUserdata, `watchesIn, `watchesOut, `freed, `g
      ensures Valid()
      ensures var g' := Apply(old(g), RunNotify); g == if old(refCount) > 1 then Apply(g', Touch) else g'
      ensures !old(freed) && (freed <==> g.destroy == Done && g.owed == 0 && g.queued == 0)
      ensures messagecb == cb
      ensures messageUserdata == if cb.None? && !freed then 0 else userdata
      ensures !freed ==> watchesIn == cb.Some? && watchesOut == old(watchesOut)
    {
      assert !freed;
      StepKeepsInv(g, RunNotify);
      messagecb := cb;
      messageUserdata := userdata;
      var was := refCount;
      refCount := refCount - 1;
      g := Apply(g, RunNotify);
      if was > 1 {
        if messagecb.None? {
          watchesIn := false;
          messageUserdata := 0;
        } else {
          watchesIn := true;
        }
        StepKeepsInv(g, Touch);
        g := Apply(g, Touch);
      } else {
        Delete();
      }
    }

    /** do_udp_peer_onwrite: as above; clearing the write callback clears the message callback's
        user data and keeps its own. */
    method DoOnWrite(cb: Option<Callback>, userdata: nat)
      requires Valid() && Enabled(g, RunNotify)
      modifies `refCount, `writecb, `writeUserdata, `messageUserdata, `watchesIn, `watchesOut, `freed, `g
      ensures Valid()
      ensures var g' := Apply(old(g), RunNotify); g == if old(refCount) > 1 then Apply(g', Touch) else g'
      ensures !old(freed) && (freed <==> g.destroy == Done && g.owed == 0 && g.queued == 0)
      ensures writecb == cb && writeUserdata == userdata
      ensures !freed ==> watchesOut == cb.Some? && watchesIn == old(watchesIn)
      ensures !freed ==> messageUserdata == if cb.None? then 0 else old(messageUserdata)
    {
      assert !freed;
      StepKeepsInv(g, RunNotify);
      writecb := cb;
      writeUserdata := userdata;
      var was := refCount;
      refCount := refCount - 1;
      g := Apply(g, RunNotify);
      if was > 1 {
        if writecb.None? {
          watchesOut := false;
          messageUserdata := 0;
        } else {
          watchesOut := true;
        }
        StepKeepsInv(g, Touch);
        g := Apply(g, Touch);
      } else {
        Delete();
      }
    }

    /** do_udp_peer_destroy. */
    method DoDestroy()
      requires Valid() && Enabled(g, RunDestroy)
      modifies `refCount, `watchesIn, `watchesOut, `freed, `g
      ensures Valid() && g == Apply(old(g), RunDestroy)
      ensures !old(freed) && (freed <==> g.owed == 0 && g.queued == 0)
    {
      assert !freed;
      StepKeepsInv(g, RunDestroy);
      var was := refCount;
      refCount := refCount - 1;
      g := Apply(g, RunDestroy);
      if was == 1 {
        Delete();
      }
    }

    // -------------------------------------------------------------- a readable event

    /** A run of bytes written into the area. */
    method Put(at: nat, bytes: seq<Byte>)
      requires at + |bytes| <= data.Length
      modifies data
      ensures data[..at] == old(data[..at])
      ensures data[at..at + |bytes|] == bytes
      ensures data[at + |bytes|..] == old(data[at + |bytes|..])
    {
      forall i | 0 <= i < |bytes| {
        data[at + i] := bytes[i];
      }
    }

    static lemma Joined(s: seq<Byte>, at: nat, mid: nat, end: nat)
      requires at <= mid <= end <= |s|
      ensures s[at..end] == s[at..mid] + s[mid..end] && s[mid..end] == s[mid..][..end - mid]
    {
    }

    /** What one turn of the receive loop writes: payload, size, sender. */
    method PutChunk(at: nat, d: Datagram)
      requires WellFormed(d) && at + HEADER + |d.payload| <= data.Length
      modifies data
      ensures data[..at] == old(data[..at])
      ensures data[at..at + HEADER + |d.payload|] == Chunk(d)
    {
      var size := |d.payload|;
      Put(at + HEADER, d.payload);
      Joined(data[..], at, at + HEADER, at + HEADER + size);
      Put(at, [size % 256, size / 256] + d.from);
      Joined(data[..], at, at + HEADER, at + HEADER + size);
    }

    /** A datagram lies behind the ones before it. */
    method ReceiveOne(at: nat, d: Datagram, ghost done: seq<Datagram>)
      requires WellFormed(d) && at + HEADER + |d.payload| <= data.Length
      requires AllChunks(done) && data[..at] == Packed(done)
      modifies data
      ensures AllChunks(done + [d]) && |Packed(done + [d])| == at + HEADER + |d.payload|
      ensures data[..at + HEADER + |d.payload|] == Packed(done + [d])
    {
      PutChunk(at, d);
      assert data[..at + HEADER + |d.payload|] == data[..at] + Chunk(d);
      PackedAppend(done, d);
    }

    /** The receive loop of udp_peer_onevent. */
    method Receive(recvs: seq<Recv>)
      requires data.Length == AREA
      requires AllWellFormed(recvs) && NeverWraps(recvs, 0)
      modifies data, `chunkCount
      ensures AllChunks(Taken(recvs, 0)) && chunkCount == |Taken(recvs, 0)|
      ensures |Packed(Taken(recvs, 0))| <= AREA
      ensures data[..|Packed(Taken(recvs, 0))|] == Packed(Taken(recvs, 0))
    {
      chunkCount := 0;
      var off: nat, next: nat := 0, 0;
      ghost var done: seq<Datagram> := [];
      while true
        invariant next <= |recvs| && NeverWraps(recvs[next..], off)
        invariant AllChunks(done) && chunkCount == |done|
        invariant off == |Packed(done)| && data[..off] == Packed(done)
        invariant Taken(recvs, 0) == done + Taken(recvs[next..], off)
        decreases |recvs| - next
      {
        var room := Room(off);
        if room < LARGEST {
          break;
        }
        if next == |recvs| || recvs[next].Failed? {
          break;
        }
        var d := recvs[next].datagram;
        TakeOne(recvs, next, off, done);
        ReceiveOne(off, d, done);
        done := done + [d];
        off := off + HEADER + |d.payload|;
        chunkCount := chunkCount + 1;
        next := next + 1;
      }
      TakeNone(recvs, next, off);
      assert done + [] == done;
    }

    /** A turn of the receive loop takes the next datagram ... */
    static lemma TakeOne(recvs: seq<Recv>, next: nat, off: nat, done: seq<Datagram>)
      requires next < |recvs| && recvs[next].Got? && NeverWraps(recvs[next..], off) && Room(off) >= LARGEST
      ensures var d := recvs[next].datagram; var after := off + HEADER + |d.payload|;
        && NeverWraps(recvs[next + 1..], after)
        && done + Taken(recvs[next..], off) == done + [d] + Taken(recvs[next + 1..], after)
    {
      assert recvs[next..][0] == recvs[next] && recvs[next..][1..] == recvs[next + 1..];
    }

    /** ... and it ends where nothing more is taken. */
    static lemma TakeNone(recvs: seq<Recv>, next: nat, off: nat)
      requires next <= |recvs| && off <= AREA
      requires Room(off) < LARGEST || next == |recvs| || recvs[next].Failed?
      ensures Taken(recvs[next..], off) == []
    {
    }

    static lemma SubSlice(s: seq<Byte>, at: nat, c: seq<Byte>, i: nat, j: nat)
      requires at + |c| <= |s| && s[at..at + |c|] == c && i <= j <= |c|
      ensures s[at + i..at + j] == c[i..j]
      ensures forall k :: i <= k < j ==> s[at + k] == c[k]
    {
      forall k | i <= k < j ensures s[at + k] == c[k] { assert s[at..at + |c|][k] == s[at + k]; }
      forall k | 0 <= k < j - i ensures s[at + i..at + j][k] == c[i..j][k] {
        assert s[at + (i + k)] == c[i + k];
      }
    }

    /** What one turn of the delivery loop reads. */
    method ReadChunk(at: nat, ghost was: Datagram) returns (d: Datagram)
      requires WellFormed(was) && at + |Chunk(was)| <= data.Length
      requires data[at..at + |Chunk(was)|] == Chunk(was)
      ensures d == was
    {
      ghost var c := Chunk(was);
      ChunkReads(was);
      SubSlice(data[..], at, c, 0, 2);
      SubSlice(data[..], at, c, 2, HEADER);
      SubSlice(data[..], at, c, HEADER, |c|);
      var size := data[at] as nat + 256 * data[at + 1] as nat;
      d := Datagram(data[at + 2..at + HEADER], data[at + HEADER..at + HEADER + size]);
    }

    /** The delivery loop of udp_peer_onevent, for callbacks that only record what they are given. */
    method Deliver(ghost ds: seq<Datagram>)
      requires data.Length == AREA
      requires AllChunks(ds) && |Packed(ds)| <= AREA && data[..|Packed(ds)|] == Packed(ds)
      requires chunkCount == |ds|
      modifies `chunkCount, `delivered
      ensures chunkCount == 0 && delivered == old(delivered) + ds
    {
      var off := 0;
      ghost var k := 0;
      while chunkCount > 0
        invariant chunkCount + k == |ds| && k <= |ds|
        invariant off == |Packed(ds[..k])|
        invariant delivered == old(delivered) + ds[..k]
      {
        ChunkAt(data[..], ds, k);
        var d := ReadChunk(off, ds[k]);
        delivered := delivered + [d];
        assert ds[..k + 1] == ds[..k] + [ds[k]];
        off := off + HEADER + |d.payload|;
        chunkCount := chunkCount - 1;
        k := k + 1;
      }
      assert ds[..k] == ds;
    }

    /** The readable part of udp_peer_onevent: the datagrams of one pass reach the message callback
        once each, in order, with their sender, size and payload. */
    method OnReadable(recvs: seq<Recv>)
      requires Valid() && AllWellFormed(recvs) && NeverWraps(recvs, 0)
      modifies data, `chunkCount, `delivered
      ensures Valid()
      ensures delivered == old(delivered) + if messagecb.Some? then Taken(recvs, 0) else []
    {
      Receive(recvs);
      if chunkCount > 0 {
        if messagecb.Some? {
          Deliver(Taken(recvs, 0));
        }
      }
    }
  }
}
