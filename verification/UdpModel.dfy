/** The UDP peer: who frees it (a reference count shared by deferred tasks), and how one readable
    event packs datagrams into a fixed area and walks them. */
module UdpModel {
  import opened Bytes

  // ---------------------------------------------------------------- the reference count

  datatype Duty = NotCalled | Queued | Done

  /** `owed` calls have taken their reference and not yet queued their task, `queued` tasks wait;
      `touching` is a task that gave its reference back and still uses the peer; `late` counts uses
      of the peer after it was freed. */
  datatype Peer = Peer(ref: int, owed: nat, queued: nat, destroy: Duty, initialised: bool,
                       touching: bool, freed: nat, late: nat)

  datatype Step = Retain | Post | CallDestroy | RunInit | RunNotify | Touch | RunDestroy

  const FRESH_PEER := Peer(1, 0, 0, NotCalled, false, false, 0, 0)

  /** The loop thread runs one task at a time; calls come from any thread, none after the destroy
      call and at most one destroy call. */
  ghost predicate Enabled(p: Peer, s: Step) {
    match s
    case Retain => p.destroy == NotCalled
    case Post => p.owed > 0
    case CallDestroy => p.destroy == NotCalled
    case RunInit => !p.initialised && !p.touching
    case RunNotify => p.queued > 0 && !p.touching
    case Touch => p.touching
    case RunDestroy => p.destroy == Queued && !p.touching
  }

  ghost function Used(p: Peer): Peer {
    if p.freed > 0 then p.(late := p.late + 1) else p
  }

  ghost function Freed(p: Peer): Peer {
    p.(freed := p.freed + 1)
  }

  /** The common tail of both notify tasks: the callback fields are set, the reference goes back, and
      the previous count decides between using the peer again and freeing it. */
  ghost function NotifyRun(p: Peer): Peer {
    var u := Used(p).(ref := p.ref - 1, queued := if p.queued > 0 then p.queued - 1 else 0);
    if p.ref > 1 then u.(touching := true) else Freed(u)
  }

  ghost function DestroyRun(p: Peer): Peer {
    var u := Used(p).(ref := p.ref - 1, destroy := Done);
    if p.ref == 1 then Freed(u) else u
  }

  ghost function Apply(p: Peer, s: Step): Peer {
    match s
    case Retain => Used(p).(ref := p.ref + 1, owed := p.owed + 1)
    case Post => p.(owed := if p.owed > 0 then p.owed - 1 else 0, queued := p.queued + 1)
    case CallDestroy => Used(p).(destroy := Queued)
    case RunInit => Used(p).(initialised := true)
    case RunNotify => NotifyRun(p)
    case Touch => Used(p).(touching := false)
    case RunDestroy => DestroyRun(p)
  }

  ghost predicate Legal(p: Peer, steps: seq<Step>)
    decreases |steps|
  {
    steps == [] || (Enabled(p, steps[0]) && Legal(Apply(p, steps[0]), steps[1..]))
  }

  ghost function Run(p: Peer, steps: seq<Step>): Peer
    decreases |steps|
  {
    if steps == [] then p else Run(Apply(p, steps[0]), steps[1..])
  }

  ghost function Holders(p: Peer): nat {
    (if p.destroy == Done then 0 else 1) + p.owed + p.queued
  }

  ghost predicate Inv(p: Peer) {
    && p.ref == Holders(p)
    && p.freed == (if p.ref == 0 then 1 else 0)
    && (p.touching ==> p.ref > 0)
    && p.late <= 1 && (p.late > 0 ==> p.freed > 0 && p.initialised)
  }

  lemma StepKeepsInv(p: Peer, s: Step)
    requires Inv(p) && Enabled(p, s)
    ensures Inv(Apply(p, s))
  {
  }

  lemma {:induction false} RunKeepsInv(p: Peer, steps: seq<Step>)
    requires Inv(p) && Legal(p, steps)
    ensures Inv(Run(p, steps))
    decreases |steps|
  {
    if steps != [] {
      StepKeepsInv(p, steps[0]);
      RunKeepsInv(Apply(p, steps[0]), steps[1..]);
    }
  }

  /** Whatever the order of calls and tasks: the count is one for the destroy task still to run plus
      one for every notify task still to run, and the peer is freed at most once, exactly when nothing
      is left to run. */
  lemma FreedByTheLastTask(steps: seq<Step>)
    requires Legal(FRESH_PEER, steps)
    ensures var p := Run(FRESH_PEER, steps);
      && p.ref == Holders(p) && p.freed <= 1
      && (p.freed == 1 <==> p.destroy == Done && p.owed == 0 && p.queued == 0)
  {
    RunKeepsInv(FRESH_PEER, steps);
  }

  function Count(steps: seq<Step>, s: Step): nat {
    if steps == [] then 0
    else Count(steps[..|steps| - 1], s) + if steps[|steps| - 1] == s then 1 else 0
  }

  /** Step i is the initial task; before it the destroy task ran, and so did every notify task whose
      call had taken its reference. */
  ghost predicate InitAfterFree(steps: seq<Step>, i: nat) {
    && i < |steps| && steps[i] == RunInit && RunDestroy in steps[..i]
    && Count(steps[..i], Step.Retain) == Count(steps[..i], RunNotify)
  }

  lemma {:induction false} RunLast(p: Peer, steps: seq<Step>)
    requires steps != [] && Legal(p, steps)
    ensures var n := |steps| - 1;
      && Legal(p, steps[..n]) && Enabled(Run(p, steps[..n]), steps[n])
      && Run(p, steps) == Apply(Run(p, steps[..n]), steps[n])
    decreases |steps|
  {
    if |steps| == 1 {
      assert steps[1..] == [] && steps[..0] == [];
    } else {
      var n := |steps| - 1;
      RunLast(Apply(p, steps[0]), steps[1..]);
      assert steps[..n][1..] == steps[1..][..n - 1];
    }
  }

  /** What is left to run, read off the steps. */
  lemma {:induction false} LeftToRun(steps: seq<Step>)
    requires Legal(FRESH_PEER, steps)
    ensures var p := Run(FRESH_PEER, steps);
      && Count(steps, Step.Retain) == Count(steps, RunNotify) + p.owed + p.queued
      && (p.destroy == Done <==> RunDestroy in steps)
    decreases |steps|
  {
    if steps != [] {
      var n := |steps| - 1;
      RunLast(FRESH_PEER, steps);
      LeftToRun(steps[..n]);
      assert steps == steps[..n] + [steps[n]];
    }
  }

  lemma InitIsLate(p: Peer, s: Step)
    requires Inv(p) && Enabled(p, s)
    ensures Apply(p, s).late > 0 <==> p.late > 0 || (s == RunInit && p.freed > 0)
  {
  }

  /** The one way to use the peer after it was freed: its initial task, which holds no reference, is
      run after the task that freed it. */
  lemma {:induction false} LateExactlyWhen(steps: seq<Step>)
    requires Legal(FRESH_PEER, steps)
    ensures Run(FRESH_PEER, steps).late > 0 <==> exists i: nat :: InitAfterFree(steps, i)
    decreases |steps|
  {
    if steps != [] {
      var n := |steps| - 1;
      var before := steps[..n];
      RunLast(FRESH_PEER, steps);
      LateExactlyWhen(before);
      LeftToRun(before);
      RunKeepsInv(FRESH_PEER, before);
      InitIsLate(Run(FRESH_PEER, before), steps[n]);
      assert InitAfterFree(steps, n) <==> steps[n] == RunInit && Run(FRESH_PEER, before).freed > 0;
      forall i: nat | i < n ensures InitAfterFree(steps, i) <==> InitAfterFree(before, i) {
        assert before[..i] == steps[..i];
      }
    }
  }

  /** It can happen: a destroy run directly on the loop thread overtakes the initial task still in
      the queue. */
  lemma InitCanComeLate()
    ensures exists steps :: Legal(FRESH_PEER, steps) && Run(FRESH_PEER, steps).late > 0
  {
    var steps := [CallDestroy, RunDestroy, RunInit];
    var a := Apply(FRESH_PEER, CallDestroy);
    var b := Apply(a, RunDestroy);
    var c := Apply(b, RunInit);
    assert steps[1..] == [RunDestroy, RunInit] && [RunDestroy, RunInit][1..] == [RunInit];
    assert Legal(b, [RunInit]) && Run(b, [RunInit]) == Run(c, []) == c;
    assert Legal(a, steps[1..]) && Run(a, steps[1..]) == c;
    assert Legal(FRESH_PEER, steps) && Run(FRESH_PEER, steps) == c;
  }

  // ---------------------------------------------------------------- the receive area

  const AREA: nat := (65535 + 2 + 18) * 8
  const HEADER: nat := 2 + 18
  /** The largest payload of a UDP datagram over IPv4. */
  const LARGEST: nat := 65507
  /** The largest payload for which the room left never drops below a header. */
  const SAFE: nat := 65487
  const UNSAFE: nat := SAFE + 1
  const WORD: nat := 0x1_0000_0000

  datatype Datagram = Datagram(from: seq<Byte>, payload: seq<Byte>)

  /** One call of recvfrom: a datagram or an error such as EAGAIN. */
  datatype Recv = Got(datagram: Datagram) | Failed

  ghost predicate WellFormed(d: Datagram) {
    |d.from| == 18 && |d.payload| <= LARGEST
  }

  ghost predicate AllWellFormed(recvs: seq<Recv>) {
    forall i :: 0 <= i < |recvs| && recvs[i].Got? ==> WellFormed(recvs[i].datagram)
  }

  /** max_chunk_size: an unsigned 32-bit subtraction. */
  function Room(off: nat): nat
    requires off <= AREA
  {
    if off + HEADER <= AREA then AREA - (off + HEADER) else WORD + AREA - (off + HEADER)
  }

  /** The datagrams one pass takes when it has reached `off`. */
  ghost function Taken(recvs: seq<Recv>, off: nat): seq<Datagram>
  {
    if off > AREA || Room(off) < LARGEST || recvs == [] || recvs[0].Failed? then []
    else [recvs[0].datagram] + Taken(recvs[1..], off + HEADER + |recvs[0].datagram.payload|)
  }

  /** No reached offset leaves less than a header, so the subtraction never wraps. */
  ghost predicate NeverWraps(recvs: seq<Recv>, off: nat) {
    && off + HEADER <= AREA
    && (Room(off) < LARGEST || recvs == [] || recvs[0].Failed?
        || NeverWraps(recvs[1..], off + HEADER + |recvs[0].datagram.payload|))
  }

  /** Payloads of at most 65487 bytes rule the wrap out. */
  lemma {:induction false} SmallNeverWraps(recvs: seq<Recv>, off: nat)
    requires off + HEADER <= AREA
    requires forall i :: 0 <= i < |recvs| && recvs[i].Got? ==> |recvs[i].datagram.payload| <= SAFE
    ensures NeverWraps(recvs, off)
  {
    if !(Room(off) < LARGEST || recvs == [] || recvs[0].Failed?) {
      SmallNeverWraps(recvs[1..], off + HEADER + |recvs[0].datagram.payload|);
    }
  }

  /** A datagram of n bytes. */
  function Sized(n: nat): Recv {
    Got(Datagram(Zeros(18), Zeros(n)))
  }

  function Repeated(n: nat, d: Recv): (s: seq<Recv>)
    ensures |s| == n && forall i :: 0 <= i < n ==> s[i] == d
  {
    if n == 0 then [] else [d] + Repeated(n - 1, d)
  }

  lemma OneMore(size: nat, rest: seq<Recv>, off: nat)
    requires off + HEADER + LARGEST <= AREA
    ensures NeverWraps([Sized(size)] + rest, off) == NeverWraps(rest, off + HEADER + size)
  {
    assert ([Sized(size)] + rest)[1..] == rest;
  }

  /** Where n chunks of the smallest payload that is too large end. */
  function Behind(n: nat, off: nat): nat {
    if n == 0 then off else Behind(n - 1, off + HEADER + UNSAFE)
  }

  lemma {:induction false} ManyMore(n: nat, rest: seq<Recv>, off: nat)
    requires Behind(n, off) + LARGEST <= AREA
    ensures NeverWraps(Repeated(n, Sized(UNSAFE)) + rest, off) == NeverWraps(rest, Behind(n, off))
  {
    if n == 0 {
      assert Repeated(0, Sized(UNSAFE)) + rest == rest;
    } else {
      var more := Repeated(n - 1, Sized(UNSAFE)) + rest;
      assert Repeated(n, Sized(UNSAFE)) + rest == [Sized(UNSAFE)] + more;
      BehindGrows(n - 1, off + HEADER + UNSAFE);
      OneMore(UNSAFE, more, off);
      ManyMore(n - 1, rest, off + HEADER + UNSAFE);
    }
  }

  lemma {:induction false} BehindGrows(n: nat, off: nat)
    ensures Behind(n, off) >= off
  {
    if n > 0 { BehindGrows(n - 1, off + HEADER + UNSAFE); }
  }

  /** One byte more and it can happen: seven datagrams of 65488 bytes, one of 337 and one of the given
      size leave less than a header. */
  lemma LargerCanWrap(size: nat)
    requires SAFE < size <= LARGEST
    ensures var recvs := Repeated(7, Sized(UNSAFE)) + [Sized(337), Sized(size)];
      AllWellFormed(recvs) && AtMost(recvs, size) && !NeverWraps(recvs, 0)
  {
    var off := Behind(7, 0);
    assert off == Behind(5, 131016) == Behind(3, 262032) == Behind(1, 393048) == 458556;
    ManyMore(7, [Sized(337), Sized(size)], 0);
    assert [Sized(337), Sized(size)] == [Sized(337)] + [Sized(size)] && [Sized(size)] == [Sized(size)] + [];
    OneMore(337, [Sized(size)], off);
    OneMore(size, [], off + HEADER + 337);
  }

  ghost predicate AtMost(recvs: seq<Recv>, size: nat) {
    forall i :: 0 <= i < |recvs| && recvs[i].Got? ==> |recvs[i].datagram.payload| <= size
  }

  /** A limit on the payloads rules the wrap out exactly if it is at most 65487 bytes. */
  lemma NeverWrapsExactlyWhen(size: nat)
    requires size <= LARGEST
    ensures (forall recvs :: AllWellFormed(recvs) && AtMost(recvs, size) ==> NeverWraps(recvs, 0)) <==> size <= SAFE
  {
    if size <= SAFE {
      forall recvs | AllWellFormed(recvs) && AtMost(recvs, size) ensures NeverWraps(recvs, 0) {
        SmallNeverWraps(recvs, 0);
      }
    } else {
      LargerCanWrap(size);
    }
  }

  /** A datagram as it lies in the area: its size (low byte first), the sender, the payload. */
  ghost function Chunk(d: Datagram): (c: seq<Byte>)
    requires WellFormed(d)
    ensures |c| == HEADER + |d.payload|
  {
    [|d.payload| % 256, |d.payload| / 256] + d.from + d.payload
  }

  ghost predicate AllChunks(ds: seq<Datagram>) {
    forall i :: 0 <= i < |ds| ==> WellFormed(ds[i])
  }

  ghost function Packed(ds: seq<Datagram>): seq<Byte>
    requires AllChunks(ds)
  {
    if ds == [] then [] else Packed(ds[..|ds| - 1]) + Chunk(ds[|ds| - 1])
  }

  lemma PackedAppend(ds: seq<Datagram>, d: Datagram)
    requires AllChunks(ds) && WellFormed(d)
    ensures AllChunks(ds + [d]) && Packed(ds + [d]) == Packed(ds) + Chunk(d)
  {
    assert (ds + [d])[..|ds|] == ds;
  }

  /** Chunk k starts where the chunks before it end. */
  lemma {:induction false} ChunkAt(area: seq<Byte>, ds: seq<Datagram>, k: nat)
    requires AllChunks(ds) && k < |ds|
    requires Packed(ds) <= area
    ensures var at := |Packed(ds[..k])|;
      && at + |Chunk(ds[k])| <= |Packed(ds)|
      && area[at..at + |Chunk(ds[k])|] == Chunk(ds[k])
      && |Packed(ds[..k + 1])| == at + |Chunk(ds[k])|
  {
    assert ds[..k + 1][..k] == ds[..k];
    if k == |ds| - 1 {
      assert ds[..k + 1] == ds;
    } else {
      var front := ds[..|ds| - 1];
      ChunkAt(area, front, k);
      assert front[..k] == ds[..k];
    }
  }

  /** Recovering size, sender and payload from a chunk. */
  lemma ChunkReads(d: Datagram)
    requires WellFormed(d)
    ensures var c := Chunk(d);
      && c[0] as int + 256 * c[1] as int == |d.payload| && c[2..HEADER] == d.from && c[HEADER..] == d.payload
  {
  }

  // ---------------------------------------------------------------- many readable events

  /** What recvfrom calls one pass uses up, the failing one included. */
  ghost function Left(recvs: seq<Recv>, off: nat): (rest: seq<Recv>)
    ensures |rest| <= |recvs|
  {
    if off > AREA || Room(off) < LARGEST || recvs == [] then recvs
    else if recvs[0].Failed? then recvs[1..]
    else Left(recvs[1..], off + HEADER + |recvs[0].datagram.payload|)
  }

  ghost function Arrived(recvs: seq<Recv>): seq<Datagram> {
    if recvs == [] then []
    else (if recvs[0].Got? then [recvs[0].datagram] else []) + Arrived(recvs[1..])
  }

  /** Readable events until nothing is left to receive. */
  ghost function AllPasses(recvs: seq<Recv>): seq<Datagram>
    decreases |recvs|
  {
    if recvs == [] then []
    else
      assert Room(0) >= LARGEST;
      Taken(recvs, 0) + AllPasses(Left(recvs, 0))
  }

  lemma {:induction false} PassSplits(recvs: seq<Recv>, off: nat)
    ensures Arrived(recvs) == Taken(recvs, off) + Arrived(Left(recvs, off))
  {
    if !(off > AREA || Room(off) < LARGEST || recvs == [] || recvs[0].Failed?) {
      PassSplits(recvs[1..], off + HEADER + |recvs[0].datagram.payload|);
    }
  }

  /** However datagrams and errors alternate and however the area cuts the passes, all datagrams are
      taken once, in order of arrival. */
  lemma {:induction false} PassesTakeAll(recvs: seq<Recv>)
    ensures AllPasses(recvs) == Arrived(recvs)
    decreases |recvs|
  {
    if recvs != [] {
      PassSplits(recvs, 0);
      PassesTakeAll(Left(recvs, 0));
    }
  }

  /** Where the datagrams end that lie in the area from `off` on. */
  function EndOf(ds: seq<Datagram>, off: nat): nat {
    if ds == [] then off else EndOf(ds[1..], off + HEADER + |ds[0].payload|)
  }

  /** A pass takes a datagram exactly while there is room for the largest one: the datagrams taken are the
      first ones received, each found such room, and the one behind them, if it arrived, did not. */
  lemma {:induction false} PassTakesWhatFits(recvs: seq<Recv>, off: nat)
    requires NeverWraps(recvs, off)
    ensures var ds := Taken(recvs, off);
      && |ds| <= |recvs| && (forall i :: 0 <= i < |ds| ==> recvs[i] == Got(ds[i]))
      && (forall i :: 0 <= i < |ds| ==> EndOf(ds[..i], off) + HEADER + LARGEST <= AREA)
      && (|ds| < |recvs| && recvs[|ds|].Got? ==> EndOf(ds, off) + HEADER + LARGEST > AREA)
  {
    if !(Room(off) < LARGEST || recvs == [] || recvs[0].Failed?) {
      var d, rest := recvs[0].datagram, recvs[1..];
      var next := off + HEADER + |d.payload|;
      var ds, more := Taken(recvs, off), Taken(rest, next);
      PassTakesWhatFits(rest, next);
      assert ds == [d] + more && ds[1..] == more;
      forall i | 0 <= i < |ds| ensures recvs[i] == Got(ds[i]) && EndOf(ds[..i], off) + HEADER + LARGEST <= AREA {
        if i > 0 {
          assert rest[i - 1] == Got(more[i - 1]) && ds[..i][1..] == more[..i - 1];
        }
      }
      assert |more| < |rest| ==> rest[|more|] == recvs[|ds|];
    }
  }
}
