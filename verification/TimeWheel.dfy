/** time_wheel.c: circular slots of doubly linked buckets, updated in place. */
module TimeWheel {
  import opened Memory
  import opened WheelModel
  import opened WheelScripts

  datatype Bucket = Bucket(index: nat, steps: Unsigned)

  /** Slot i is a well-formed list of buckets that name it. */
  ghost predicate SlotOk(mem: Heap<Bucket>, slots: seq<seq<Addr>>, heads: seq<Addr>, i: nat)
    requires i < |slots| == |heads|
  {
    && Linked(mem, slots[i])
    && heads[i] == At(slots[i], 0)
    && forall a :: a in slots[i] ==> a in mem && mem[a].val.index == i
  }

  /** Bucket a is in its slot, as far away as its countdown says, or waits in the firing chain. */
  ghost predicate BucketOk(mem: Heap<Bucket>, slots: seq<seq<Addr>>, index: nat, g: State, a: Addr)
    requires index < |slots|
  {
    && (a in mem <==> a in g.live)
    && (a in mem ==>
      && mem[a].val.steps == g.live[a].steps
      && (a in g.firing || (
        && mem[a].val.index < |slots|
        && a in slots[mem[a].val.index]
        && g.live[a].remaining == Distance(|slots|, index, mem[a].val.index))))
  }

  /** Memory, slot heads and wheel index represent the countdown g, bucket x excepted: x is in no
      slot and not waiting to fire.  No bucket has address 0. */
  ghost predicate Mirror(mem: Heap<Bucket>, slots: seq<seq<Addr>>, heads: seq<Addr>, index: nat, g: State, x: Addr) {
    && |slots| == |heads| == g.max && index == g.index < g.max && 0 !in mem && 0 !in g.live
    && (forall i :: 0 <= i < |slots| ==> SlotOk(mem, slots, heads, i))
    && (forall a :: a != x ==> BucketOk(mem, slots, index, g, a))
    && Apart(slots, g.firing, x)
    && Chain(mem, g.firing)
  }

  ghost predicate Apart(slots: seq<seq<Addr>>, firing: seq<Addr>, x: Addr) {
    && x !in firing && 0 !in firing
    && forall i, a :: 0 <= i < |slots| && a in slots[i] ==> a !in firing && a != x && a != 0
  }

  /** The heap after node x was made the head of a slot. */
  function Pushed(h: Heap<Bucket>, head: Addr, x: Addr, v: Bucket): Heap<Bucket> {
    SetPrev(h[x := Node(0, head, v)], head, x)
  }

  lemma PushLinked(h: Heap<Bucket>, s: seq<Addr>, x: Addr, v: Bucket)
    requires Linked(h, s) && x != 0 && x !in s && 0 !in h
    ensures Linked(Pushed(h, At(s, 0), x, v), [x] + s)
  {
    var h1 := h[x := Node(0, 0, v)];
    LinkedFrame(h, h1, s);
    LinkInFacts(h1, s, 0, x);
    assert InsertAt(s, 0, x) == [x] + s;
    assert LinkIn(h1, 0, x, At(s, 0)) == Pushed(h, At(s, 0), x, v);
  }

  /** Putting bucket x at the head of slot b, at the distance its countdown says. */
  lemma PushMirror(h: Heap<Bucket>, slots: seq<seq<Addr>>, heads: seq<Addr>, index: nat, g: State,
                   x: Addr, b: nat, v: Bucket, t: Timer, next: Addr)
    requires Mirror(h, slots, heads, index, g, x) && x != 0 && b < |slots|
    requires v == Bucket(b, t.steps) && t.remaining == Distance(g.max, index, b)
    ensures Mirror(Pushed(h, heads[b], x, v), slots[b := [x] + slots[b]], heads[b := x], index,
                   g.(live := g.live[x := t], next := next), 0)
  {
    var h', slots', heads' := Pushed(h, heads[b], x, v), slots[b := [x] + slots[b]], heads[b := x];
    var g' := g.(live := g.live[x := t], next := next);
    assert SlotOk(h, slots, heads, b);
    PushLinked(h, slots[b], x, v);
    if slots[b] != [] { assert LinkOk(h, slots[b], 0) && heads[b] in slots[b]; }
    forall i | 0 <= i < |slots| ensures SlotOk(h', slots', heads', i) {
      assert SlotOk(h, slots, heads, i);
      if i != b { LinkedFrame(h, h', slots[i]); }
    }
    forall a | a != 0 ensures BucketOk(h', slots', index, g', a) {
      if a != x { assert BucketOk(h, slots, index, g, a); }
    }
    ChainFrame(h, h', g.firing);
  }

  /** Bucket x leaves slot b: its neighbours are joined, and the slot's head moves on if it was x. */
  lemma PullMirror(h: Heap<Bucket>, slots: seq<seq<Addr>>, heads: seq<Addr>, index: nat, g: State, x: Addr)
    requires Mirror(h, slots, heads, index, g, 0) && x in h && g.firing == []
    ensures var b := h[x].val.index;
      && b < |slots| && x in slots[b]
      && Mirror(LinkOut(h, x), slots[b := Without(slots[b], x)],
                if heads[b] == x then heads[b := h[x].next] else heads, index, g, x)
  {
    assert BucketOk(h, slots, index, g, x);
    var b := h[x].val.index;
    assert SlotOk(h, slots, heads, b);
    var h', slots' := LinkOut(h, x), slots[b := Without(slots[b], x)];
    var heads' := if heads[b] == x then heads[b := h[x].next] else heads;
    LinkOutFacts(h, slots[b], x);
    WithoutFacts(slots[b], x);
    PullHead(h, slots[b], x);
    forall i | 0 <= i < |slots| ensures SlotOk(h', slots', heads', i) {
      assert SlotOk(h, slots, heads, i);
      if i != b { LinkedFrame(h, h', slots[i]); }
    }
    forall a | a != x ensures BucketOk(h', slots', index, g, a) { assert BucketOk(h, slots, index, g, a); }
    forall i, a | 0 <= i < |slots| && a in slots'[i] ensures a != x && a in slots[i] {
      assert SlotOk(h, slots, heads, i);
    }
  }

  lemma PullHead(h: Heap<Bucket>, s: seq<Addr>, x: Addr)
    requires Linked(h, s) && x in s && x in h
    ensures At(Without(s, x), 0) == if At(s, 0) == x then h[x].next else At(s, 0)
  {
    var k := IndexOf(s, x);
    WithoutFacts(s, x);
    assert LinkOk(h, s, k);
    if At(s, 0) == x { assert k == 0; }
  }

  /** free(bucket), for a bucket that is nowhere. */
  lemma FreeMirror(h: Heap<Bucket>, slots: seq<seq<Addr>>, heads: seq<Addr>, index: nat, g: State, x: Addr)
    requires Mirror(h, slots, heads, index, g, x)
    ensures Mirror(h - {x}, slots, heads, index, g.(live := g.live - {x}), 0)
  {
    var h', g' := h - {x}, g.(live := g.live - {x});
    forall i | 0 <= i < |slots| ensures SlotOk(h', slots, heads, i) {
      assert SlotOk(h, slots, heads, i);
      LinkedFrame(h, h', slots[i]);
    }
    forall a | a != 0 ensures BucketOk(h', slots, index, g', a) {
      if a != x { assert BucketOk(h, slots, index, g, a); }
    }
    ChainFrame(h, h', g.firing);
  }

  /** A call begins: the current slot is emptied into the firing chain and the wheel moves. */
  lemma BeginMirror(h: Heap<Bucket>, slots: seq<seq<Addr>>, heads: seq<Addr>, index: nat, g: State)
    requires Mirror(h, slots, heads, index, g, 0) && Inv(g) && g.firing == []
    ensures IsOrder(g, slots[index])
    ensures var g' := DoBegin(g, slots[index]);
      Mirror(h, slots[index := []], heads[index := 0], g'.index, g', 0)
  {
    var slots', heads' := slots[index := []], heads[index := 0];
    var index' := if index == 0 then g.max - 1 else index - 1;
    var g' := DoBegin(g, slots[index]);
    assert SlotOk(h, slots, heads, index);
    forall i | 0 <= i < |slots| ensures SlotOk(h, slots', heads', i) { assert SlotOk(h, slots, heads, i); }
    forall a | a != 0 ensures BucketOk(h, slots', index', g', a) {
      assert BucketOk(h, slots, index, g, a) && TimerOk(g, a);
      if a in h && h[a].val.index != index { TurnLowers(g.max, index, h[a].val.index); }
    }
    forall i, a | 0 <= i < |slots| && a in slots'[i] ensures a !in g'.firing { assert SlotOk(h, slots, heads, i); }
    forall i | 0 <= i < |slots[index]| ensures NextOk(h, slots[index], i) { assert LinkOk(h, slots[index], i); }
    BeginOrder(h, slots, heads, index, g);
  }

  lemma BeginOrder(h: Heap<Bucket>, slots: seq<seq<Addr>>, heads: seq<Addr>, index: nat, g: State)
    requires Mirror(h, slots, heads, index, g, 0) && g.firing == []
    ensures IsOrder(g, slots[index])
  {
    assert SlotOk(h, slots, heads, index);
    forall id ensures id in slots[index] <==> id in g.live && g.live[id].remaining == 1 {
      if id != 0 { assert BucketOk(h, slots, index, g, id); }
      if id in h && h[id].val.index != index && id in g.live { TurnLowers(g.max, index, h[id].val.index); }
    }
  }

  /** The first bucket leaves the firing chain. */
  lemma PopMirror(h: Heap<Bucket>, slots: seq<seq<Addr>>, heads: seq<Addr>, index: nat, g: State, log: seq<Fired>)
    requires Mirror(h, slots, heads, index, g, 0) && g.firing != []
    ensures g.firing[0] in h && g.firing[0] != 0 && h[g.firing[0]].next == At(g.firing[1..], 0)
    ensures Mirror(h, slots, heads, index, g.(firing := g.firing[1..], log := log), g.firing[0])
  {
    var x, rest := g.firing[0], g.firing[1..];
    var g' := g.(firing := rest, log := log);
    assert NextOk(h, g.firing, 0);
    assert g.firing == [x] + rest && x in g.firing;
    forall i | 0 <= i < |rest| ensures NextOk(h, rest, i) { assert NextOk(h, g.firing, i + 1); }
    forall i, a | 0 <= i < |slots| && a in slots[i] ensures a !in rest && a != x {
      assert a !in g.firing;
    }
    forall a | a != x ensures BucketOk(h, slots, index, g', a) {
      if a != 0 { assert BucketOk(h, slots, index, g, a); }
    }
  }

  class TimeWheel {
    const maxSteps: nat
    const buckets: array<Addr>
    var index: nat
    var mem: Heap<Bucket>
    var brk: Addr
    ghost var slots: seq<seq<Addr>>
    ghost var g: State

    ghost predicate Valid()
      reads this, buckets
    {
      && Inv(g) && brk == g.next
      && maxSteps == g.max == buckets.Length <= INT_MAX
      && Mirror(mem, slots, buckets[..], index, g, 0)
    }

    constructor (maxSteps: nat)
      requires 0 < maxSteps <= INT_MAX
      ensures Valid() && g == Init(maxSteps) && fresh(buckets)
    {
      this.maxSteps := maxSteps;
      buckets := new Addr[maxSteps](_ => 0);
      index, mem, brk := maxSteps - 1, map[], 1;
      slots := seq(maxSteps, _ => []);
      g := Init(maxSteps);
    }

    /** The slot of a submitted timer, with the code's clamp for too many steps. */
    method SubmitIndex(steps: Unsigned) returns (i: int)
      requires index < maxSteps <= INT_MAX
      ensures 0 <= i < maxSteps && Distance(maxSteps, index, i) == First(maxSteps, steps)
    {
      if steps > maxSteps {
        i := index + 1;
        if i >= maxSteps { i := 0; }
        AheadIsFirst(maxSteps, index, steps);
      } else {
        i := AsInt(index - steps);
        if i < 0 { i := i + maxSteps; }
        RefreshFitsExactly(maxSteps, index, steps);
        BackIsWait(maxSteps, index, steps);
      }
    }

    /** Makes x the head of slot i. */
    method Push(x: Addr, i: nat, v: Bucket, ghost t: Timer, ghost next: Addr)
      requires Mirror(mem, slots, buckets[..], index, g, x) && x != 0 && i < buckets.Length
      requires v == Bucket(i, t.steps) && t.remaining == Distance(g.max, index, i)
      modifies `mem, `slots, `g, buckets
      ensures Mirror(mem, slots, buckets[..], index, g, 0)
      ensures g == old(g).(live := old(g).live[x := t], next := next)
    {
      PushMirror(mem, slots, buckets[..], index, g, x, i, v, t, next);
      assert SlotOk(mem, slots, buckets[..], i);
      if slots[i] != [] { assert LinkOk(mem, slots[i], 0) && slots[i][0] in slots[i]; }
      var head := buckets[i];
      mem := mem[x := Node(0, head, v)];
      if head != 0 {
        mem := mem[head := mem[head].(prev := x)];
      }
      buckets[i] := x;
      slots := slots[i := [x] + slots[i]];
      g := g.(live := g.live[x := t], next := next);
    }

    method Submit(steps: Unsigned) returns (handle: Addr)
      requires Valid()
      modifies this, buckets
      ensures Valid() && handle == old(g).next && g == Apply(old(g), Action.Submit(steps))
    {
      StepKeepsInv(g, Action.Submit(steps));
      handle := brk;
      brk := brk + 1;
      var i := SubmitIndex(steps);
      assert TimerOk(g, handle);
      LooseSubmit(handle);
      Push(handle, i, Bucket(i, steps), Fresh(g, steps, First(g.max, steps)), g.next + 1);
    }

    lemma LooseSubmit(x: Addr)
      requires Mirror(mem, slots, buckets[..], index, g, 0) && x !in g.live && x != 0 && (x in g.firing ==> x in g.live)
      ensures Mirror(mem, slots, buckets[..], index, g, x)
    {
      assert BucketOk(mem, slots, index, g, x);
      forall i, a | 0 <= i < |slots| && a in slots[i] ensures a != x { assert SlotOk(mem, slots, buckets[..], i); }
    }

    /** Takes x out of its slot. */
    method Pull(x: Addr)
      requires Mirror(mem, slots, buckets[..], index, g, 0) && x in mem && g.firing == []
      modifies `mem, `slots, buckets
      ensures Mirror(mem, slots, buckets[..], index, g, x)
      ensures x in mem && mem[x].val == old(mem)[x].val
    {
      PullMirror(mem, slots, buckets[..], index, g, x);
      var prev, next, i := mem[x].prev, mem[x].next, mem[x].val.index;
      assert SlotOk(mem, slots, buckets[..], i) && LinkOk(mem, slots[i], IndexOf(slots[i], x));
      LinkOutNeighbours(mem, slots[i], x);
      if prev != 0 {
        mem := mem[prev := mem[prev].(next := next)];
      }
      if next != 0 {
        mem := mem[next := mem[next].(prev := prev)];
      }
      assert mem == LinkOut(old(mem), x);
      if buckets[i] == x {
        buckets[i] := next;
      }
      slots := slots[i := Without(slots[i], x)];
    }

    static lemma LinkOutNeighbours(h: Heap<Bucket>, s: seq<Addr>, x: Addr)
      requires Linked(h, s) && x in s && x in h && 0 !in h
      ensures h[x].prev != 0 ==> h[x].prev in h
      ensures h[x].next != 0 ==> h[x].next in h
      ensures h[x].next != x
    {
      var k := IndexOf(s, x);
      assert LinkOk(h, s, k);
      if k > 0 { assert LinkOk(h, s, k - 1); }
      if k + 1 < |s| { assert LinkOk(h, s, k + 1); }
    }

    /** time_wheel_cancel. */
    method Cancel(handle: Addr)
      requires Valid() && Enabled(g, Action.Cancel(handle))
      modifies this, buckets
      ensures Valid() && g == Apply(old(g), Action.Cancel(handle))
    {
      StepKeepsInv(g, Action.Cancel(handle));
      assert TimerOk(g, handle) && BucketOk(mem, slots, index, g, handle);
      Pull(handle);
      FreeMirror(mem, slots, buckets[..], index, g, handle);
      mem := mem - {handle};
      g := g.(live := g.live - {handle});
    }

    /** time_wheel_refresh. */
    method Refresh(handle: Addr)
      requires Valid() && Enabled(g, Action.Refresh(handle))
      modifies this, buckets
      ensures Valid() && g == Apply(old(g), Action.Refresh(handle))
    {
      StepKeepsInv(g, Action.Refresh(handle));
      assert TimerOk(g, handle) && BucketOk(mem, slots, index, g, handle);
      Pull(handle);
      var steps := mem[handle].val.steps;
      var i := AsInt(index - steps);
      if i < 0 { i := i + maxSteps; }
      BackIsWait(maxSteps, index, steps);
      Push(handle, i, Bucket(i, steps), Fresh(g, steps, RefreshWait(g.max, index, steps)), g.next);
    }

    /** The first half of time_wheel_step: the current slot is taken and the wheel moves. */
    method TakeSlot() returns (bucket: Addr, ghost order: seq<Addr>)
      requires Valid() && g.firing == []
      modifies this, buckets
      ensures Valid() && IsOrder(old(g), order) && g == DoBegin(old(g), order) && bucket == At(g.firing, 0)
    {
      BeginMirror(mem, slots, buckets[..], index, g);
      order := slots[index];
      StepKeepsInv(g, BeginCall(order));
      assert SlotOk(mem, slots, buckets[..], index);
      bucket := buckets[index];
      buckets[index] := 0;
      slots := slots[index := []];
      index := if index == 0 then maxSteps - 1 else index - 1;
      g := DoBegin(g, order);
    }

    /** One round of its loop: the callback runs, then the bucket is freed or put back. */
    method FireNext(bucket: Addr, cb: Callback) returns (next: Addr)
      requires Valid() && g.firing != [] && bucket == g.firing[0]
      modifies this, buckets
      ensures Valid() && next == At(g.firing, 0) && g == FireWith(old(g), cb)
    {
      PopMirror(mem, slots, buckets[..], index, g, g.log);
      assert TimerOk(g, bucket);
      SubmitManyKeeps(g, cb.submits);
      next := mem[bucket].next;
      SubmitAll(cb.submits);
      assert TimerOk(g, bucket) && BucketOk(mem, slots, index, g, bucket);
      Settle(bucket, cb.again && Fits(maxSteps, index + 1, mem[bucket].val.steps));
    }

    method SubmitAll(submits: seq<Unsigned>)
      requires Valid()
      modifies this, buckets
      ensures Valid() && g == SubmitMany(old(g), submits)
    {
      var i := 0;
      assert submits[0..] == submits;
      while i < |submits|
        invariant i <= |submits| && Valid()
        invariant SubmitMany(g, submits[i..]) == SubmitMany(old(g), submits)
      {
        assert submits[i..][0] == submits[i] && submits[i..][1..] == submits[i + 1..];
        var handle := Submit(submits[i]);
        i := i + 1;
      }
    }

    method Settle(bucket: Addr, again: bool)
      requires Valid() && Enabled(g, Fire(again)) && bucket == g.firing[0]
      modifies this, buckets
      ensures Valid() && g == DoFire(old(g), again)
    {
      StepKeepsInv(g, Fire(again));
      assert TimerOk(g, bucket) && BucketOk(mem, slots, index, g, bucket);
      ghost var log := g.log + [Fired(bucket, g.calls)];
      PopMirror(mem, slots, buckets[..], index, g, log);
      g := g.(firing := g.firing[1..], log := log);
      if !again {
        FreeMirror(mem, slots, buckets[..], index, g, bucket);
        mem := mem - {bucket};
        g := g.(live := g.live - {bucket});
      } else {
        var steps := mem[bucket].val.steps;
        var i := AsInt(index - steps + 1);
        if i < 0 { i := i + maxSteps; }
        AgainIsWait(maxSteps, index, steps);
        Push(bucket, i, Bucket(i, steps), Again(g.live[bucket], AgainWait(maxSteps, index, steps)), g.next);
      }
    }

    /** time_wheel_step, with callbacks[i] for the i-th callback of this call: exactly the timers at
        remaining 1 fire, once each; a timer is put back exactly if its own callback says so, and the
        others come one call closer. */
    method Step(callbacks: seq<Callback>)
      requires Valid() && g.firing == []
      modifies this, buckets
      ensures Valid() && g.firing == []
      ensures exists order ::
        && IsOrder(old(g), order) && g == FireAll(DoBegin(old(g), order), callbacks)
        && CallFollows(old(g), order, callbacks, g)
      ensures Leads(old(g), g)
    {
      var bucket, order := TakeSlot();
      ghost var all := FireAll(g, callbacks);
      var cbs := callbacks;
      NullEnds(mem, g.firing, 0);
      assert g.log[|old(g).log|..] == [];
      FireAllFires(old(g), order, g, callbacks);
      CallEnds(old(g), order, callbacks);
      StepLeads(old(g), order, callbacks);
      while bucket != 0
        invariant Valid() && bucket == At(g.firing, 0) && (bucket != 0 <==> g.firing != [])
        invariant FireAll(g, cbs) == all
        decreases |g.firing|
      {
        FireWithKeeps(g, FirstOf(cbs));
        bucket := FireNext(bucket, FirstOf(cbs));
        NullEnds(mem, g.firing, 0);
        cbs := Rest(cbs);
      }
    }
  }
}
