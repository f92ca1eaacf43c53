/** timer_queue.c: the sorted doubly linked list of timers, updated in place. */
module TimerQueue {
  import opened Memory
  import opened TimerModel
  import opened TimerTheorems
  import opened TimerScripts

  datatype LoopTimer = LoopTimer(
    timestamp: nat, interval: nat, isInCallback: bool, isAlive: bool, isExpired: bool, isInQueue: bool)

  /** The flags of a record, as the place of the timer determines them. */
  predicate Flags(v: LoopTimer, t: Timer) {
    && v.timestamp == t.ts && v.interval == t.interval && v.isAlive == t.alive
    && (v.isInCallback <==> t.place.Running?)
    && (v.isExpired <==> t.place.Due? || t.place.Running?)
    && (t.place.Queued? ==> v.isInQueue)
    && (t.place.Pending? ==> !v.isInQueue)
  }

  ghost predicate NodeOk(mem: Heap<LoopTimer>, ts: map<Addr, Timer>, a: Addr) {
    && (a in mem <==> a in ts)
    && (a in mem ==> Flags(mem[a].val, ts[a]))
  }

  /** Every record but that of x agrees with the model. */
  ghost predicate Nodes(mem: Heap<LoopTimer>, ts: map<Addr, Timer>, x: Addr) {
    forall a :: a != x && a != 0 ==> NodeOk(mem, ts, a)
  }

  /** Touching timer x alone leaves the others in agreement with the model. */
  lemma NodesElsewhere(h: Heap<LoopTimer>, ts: map<Addr, Timer>, h': Heap<LoopTimer>, ts': map<Addr, Timer>, x: Addr)
    requires Nodes(h, ts, x)
    requires forall a :: a != x ==> (a in h <==> a in h') && (a in ts <==> a in ts')
    requires forall a :: a != x && a in h && a in ts ==> h'[a].val == h[a].val && ts'[a] == ts[a]
    ensures Nodes(h', ts', x)
  {
    forall a | a != x && a != 0 ensures NodeOk(h', ts', a) { assert NodeOk(h, ts, a); }
  }

  /** The list fields of the queue represent `list`. */
  ghost predicate Lists(mem: Heap<LoopTimer>, head: Addr, tail: Addr, min: nat, list: seq<Addr>) {
    && Linked(mem, list)
    && head == At(list, 0)
    && tail == At(list, |list| - 1)
    && (list != [] ==> list[0] in mem && min == mem[list[0]].val.timestamp)
  }

  lemma DueCountIs(ts: map<Addr, Timer>, list: seq<Addr>, t: nat, k: nat)
    requires k <= |list|
    requires forall i :: 0 <= i < k ==> list[i] in ts && ts[list[i]].ts <= t
    requires k < |list| ==> list[k] in ts && t < ts[list[k]].ts
    ensures DueCount(ts, list, t) == k
  {
    var n := DueCount(ts, list, t);
  }

  /** Memory and list fields represent the model state g, timer x excepted. */
  ghost predicate Mirror(mem: Heap<LoopTimer>, head: Addr, tail: Addr, min: nat, g: State, x: Addr) {
    && 0 !in mem
    && Lists(mem, head, tail, min, g.list)
    && Chain(mem, g.due)
    && Nodes(mem, g.mem, x)
  }

  lemma ListStamps(mem: Heap<LoopTimer>, g: State, x: Addr)
    requires Nodes(mem, g.mem, x) && x !in g.list && 0 !in g.list
    requires forall id :: id != x ==> PlaceOk(g, id)
    ensures forall a :: a in g.list ==> a in g.mem && a in mem && g.mem[a].ts == mem[a].val.timestamp
  {
    forall a | a in g.list ensures a in g.mem && a in mem && g.mem[a].ts == mem[a].val.timestamp {
      assert PlaceOk(g, a) && NodeOk(mem, g.mem, a);
    }
  }

  lemma ZeroNowhere(g: State, x: Addr)
    requires forall id :: id != x ==> PlaceOk(g, id)
    requires x != 0
    ensures 0 !in g.list && 0 !in g.due && 0 !in g.mem
  {
    assert PlaceOk(g, 0);
  }

  lemma DueElsewhere(g: State, x: Addr)
    requires forall id :: id != x ==> PlaceOk(g, id)
    requires x !in g.due
    ensures forall a :: a in g.due ==> a !in [x] + g.list
  {
    forall a | a in g.due ensures a !in [x] + g.list { assert PlaceOk(g, a); }
  }

  /** The queue after insert_timer_inloop linked `timer` in at its place and flagged it. */
  lemma EnqueueMirror(h: Heap<LoopTimer>, h1: Heap<LoopTimer>, head: Addr, tail: Addr, min: nat, g: State,
                      timer: Addr, e: Event)
    requires Loose(g, timer) && timer in h && 0 !in h
    requires Chain(h, g.due) && Nodes(h, g.mem, timer)
    requires !h[timer].val.isInCallback && !h[timer].val.isExpired
    requires h[timer].val.interval == g.mem[timer].interval && h[timer].val.isAlive == g.mem[timer].alive
    requires OnlyLinks(h, h1, [timer] + g.list)
    requires Lists(h1, head, tail, min, InsertAt(g.list, DueCount(g.mem, g.list, h[timer].val.timestamp), timer))
    ensures var h2 := h1[timer := h1[timer].(val := h1[timer].val.(isInQueue := true))];
      Mirror(h2, head, tail, min, TimerModel.Enqueue(g, timer, h[timer].val.timestamp, e), 0)
  {
    var h2 := h1[timer := h1[timer].(val := h1[timer].val.(isInQueue := true))];
    var g' := TimerModel.Enqueue(g, timer, h[timer].val.timestamp, e);
    LinkedFrame(h1, h2, g'.list);
    DueElsewhere(g, timer);
    ChainFrame(h, h2, g.due);
    NodesElsewhere(h, g.mem, h2, g'.mem, timer);
    assert NodeOk(h2, g'.mem, timer);
  }

  /** free(timer), for a timer in no list. */
  lemma ReleaseMirror(h: Heap<LoopTimer>, head: Addr, tail: Addr, min: nat, g: State, timer: Addr)
    requires Mirror(h, head, tail, min, g, timer) && Loose(g, timer)
    ensures Mirror(h - {timer}, head, tail, min, Release(g, timer), 0)
  {
    LinkedFrame(h, h - {timer}, g.list);
    ChainFrame(h, h - {timer}, g.due);
    NodesElsewhere(h, g.mem, h - {timer}, Release(g, timer).mem, timer);
    assert NodeOk(h - {timer}, Release(g, timer).mem, timer);
  }

  /** Writing the record of timer x, its links apart, leaves everything else as it was. */
  lemma WriteMirror(h: Heap<LoopTimer>, head: Addr, tail: Addr, min: nat, g: State, x: Addr, v: LoopTimer)
    requires Mirror(h, head, tail, min, g, x) && x in h
    requires v.timestamp == h[x].val.timestamp || x !in g.list
    ensures Mirror(h[x := h[x].(val := v)], head, tail, min, g, x)
  {
    var h' := h[x := h[x].(val := v)];
    LinkedFrame(h, h', g.list);
    ChainFrame(h, h', g.due);
    NodesElsewhere(h, g.mem, h', g.mem, x);
  }

  /** A timer whose record agrees need not be excepted. */
  lemma WholeMirror(h: Heap<LoopTimer>, head: Addr, tail: Addr, min: nat, g: State, x: Addr)
    requires Mirror(h, head, tail, min, g, x) && NodeOk(h, g.mem, x)
    ensures Mirror(h, head, tail, min, g, 0)
  {
    forall a | a != 0 ensures NodeOk(h, g.mem, a) { if a != x { assert NodeOk(h, g.mem, a); } }
  }

  lemma PartMirror(h: Heap<LoopTimer>, head: Addr, tail: Addr, min: nat, g: State, x: Addr)
    requires Mirror(h, head, tail, min, g, 0)
    ensures Mirror(h, head, tail, min, g, x)
  {
  }

  lemma AllocMirror(h: Heap<LoopTimer>, head: Addr, tail: Addr, min: nat, g: State, ts: nat, interval: nat)
    requires Mirror(h, head, tail, min, g, 0) && Placed(g)
    ensures Mirror(h[g.next := Node(0, 0, LoopTimer(ts, interval, false, true, false, false))], head, tail, min,
                   Alloc(g, ts, interval), 0)
  {
    var h' := h[g.next := Node(0, 0, LoopTimer(ts, interval, false, true, false, false))];
    var g' := Alloc(g, ts, interval);
    assert PlaceOk(g, g.next) && NodeOk(h, g.mem, g.next);
    LinkedFrame(h, h', g.list);
    ChainFrame(h, h', g.due);
    NodesElsewhere(h, g.mem, h', g'.mem, g.next);
    assert NodeOk(h', g'.mem, g.next);
  }

  /** A queued timer was unlinked: it is now in no list. */
  lemma UnlistMirror(h: Heap<LoopTimer>, h': Heap<LoopTimer>, head: Addr, tail: Addr, min: nat, g: State,
                     x: Addr, log: seq<Event>)
    requires 0 !in h && Chain(h, g.due) && Nodes(h, g.mem, 0) && Placed(g) && x in g.list
    requires OnlyLinks(h, h', g.list) && Lists(h', head, tail, min, Without(g.list, x))
    ensures Mirror(h', head, tail, min, g.(list := Without(g.list, x), log := log), x)
  {
    forall a | a in g.due ensures a !in g.list { assert PlaceOk(g, a); }
    ChainFrame(h, h', g.due);
    NodesElsewhere(h, g.mem, h', g.mem, 0);
  }

  // ---------------------------------------------------------------- splitting the due prefix off

  lemma SplitLinks(h: Heap<LoopTimer>, list: seq<Addr>, k: nat)
    requires Linked(h, list) && 0 !in h && 0 < k <= |list|
    ensures var h' := SetPrev(SetNext(h, At(list, k - 1), 0), At(list, k), 0);
      Linked(h', list[k..]) && Chain(h', list[..k]) && OnlyLinks(h, h', list)
  {
    var h' := SetPrev(SetNext(h, At(list, k - 1), 0), At(list, k), 0);
    assert LinkOk(h, list, k - 1);
    if k < |list| { assert LinkOk(h, list, k); }
    forall i | 0 <= i < |list| - k ensures LinkOk(h', list[k..], i) { assert LinkOk(h, list, k + i); }
    forall i | 0 <= i < k ensures NextOk(h', list[..k], i) { assert LinkOk(h, list, i); }
  }

  /** h' is h with is_expired set on the nodes of s. */
  ghost predicate Expired(h: Heap<LoopTimer>, h': Heap<LoopTimer>, s: seq<Addr>) {
    && h'.Keys == h.Keys
    && forall a :: a in h ==>
      h'[a] == if a in s then h[a].(val := h[a].val.(isExpired := true)) else h[a]
  }

  lemma SplitMirror(h: Heap<LoopTimer>, h': Heap<LoopTimer>, h'': Heap<LoopTimer>, head: Addr, tail: Addr, min: nat,
                    g: State, now: nat, k: nat)
    requires 0 !in h && Linked(h, g.list) && Nodes(h, g.mem, 0)
    requires Placed(g) && Idle(g) && k == DueCount(g.mem, g.list, now) && k > 0
    requires h' == SetPrev(SetNext(h, At(g.list, k - 1), 0), At(g.list, k), 0)
    requires Lists(h', head, tail, min, g.list[k..])
    requires Expired(h', h'', g.list[..k])
    ensures Mirror(h'', head, tail, min, DoBegin(g, now), 0)
  {
    SplitLinks(h, g.list, k);
    var list := g.list[k..];
    LinkedFrame(h', h'', list);
    if list != [] { assert LinkOk(h', list, 0); }
    ChainFrame(h', h'', g.list[..k]);
    SplitNodes(h, h', h'', g, now, k);
  }

  lemma SplitNodes(h: Heap<LoopTimer>, h': Heap<LoopTimer>, h'': Heap<LoopTimer>, g: State, now: nat, k: nat)
    requires Nodes(h, g.mem, 0) && Placed(g) && k == DueCount(g.mem, g.list, now)
    requires OnlyLinks(h, h', g.list) && Expired(h', h'', g.list[..k])
    ensures Nodes(h'', DoBegin(g, now).mem, 0)
  {
    forall a | a != 0 ensures NodeOk(h'', DoBegin(g, now).mem, a) {
      assert NodeOk(h, g.mem, a) && PlaceOk(g, a);
      assert a in g.list[..k] ==> a in g.list;
    }
  }

  lemma NothingDue(g: State, now: nat)
    requires DueCount(g.mem, g.list, now) == 0 && Idle(g)
    ensures DoBegin(g, now) == g.(passNow := now)
  {
    assert MarkDue(g.mem, []) == g.mem;
    assert g.list[..0] == [] && g.list[0..] == g.list;
  }

  // ---------------------------------------------------------------- one timer's turn

  /** The first node was taken off the chain of due timers. */
  lemma PopMirror(h: Heap<LoopTimer>, head: Addr, tail: Addr, min: nat, g: State, log: seq<Event>)
    requires Mirror(h, head, tail, min, g, 0) && Placed(g) && g.due != [] && g.due[0] in h
    ensures var x := g.due[0];
      && h[x].next == At(g.due[1..], 0)
      && Mirror(h[x := h[x].(prev := 0, next := 0)], head, tail, min, g.(due := g.due[1..], log := log), x)
  {
    var x := g.due[0];
    var h' := h[x := h[x].(prev := 0, next := 0)];
    assert NextOk(h, g.due, 0) && PlaceOk(g, x);
    LinkedFrame(h, h', g.list);
    var rest := g.due[1..];
    forall i | 0 <= i < |rest| ensures NextOk(h', rest, i) { assert NextOk(h, g.due, i + 1); }
    NodesElsewhere(h, g.mem, h', g.mem, x);
  }

  /** Running a timer's callback: only its record and the running field change. */
  lemma StartMirror(h: Heap<LoopTimer>, head: Addr, tail: Addr, min: nat, g: State, x: Addr)
    requires Mirror(h, head, tail, min, g, x) && x in h && x in g.mem && x != 0 && x !in g.list
    requires Flags(h[x].val, g.mem[x]) && g.mem[x].place.Due?
    ensures Mirror(h[x := h[x].(val := h[x].val.(isInCallback := true))], head, tail, min, Start(g, x), 0)
  {
    var v := h[x].val.(isInCallback := true);
    var h' := h[x := h[x].(val := v)];
    WriteMirror(h, head, tail, min, g, x, v);
    NodesElsewhere(h', g.mem, h', Start(g, x).mem, x);
    assert NodeOk(h', Start(g, x).mem, x);
    WholeMirror(h', head, tail, min, Start(g, x), x);
  }

  lemma NextDue(h: Heap<LoopTimer>, g: State)
    requires Chain(h, g.due) && g.due != []
    ensures g.due[0] in h && h[g.due[0]].next == At(g.due[1..], 0)
  {
    assert NextOk(h, g.due, 0);
  }

  // ---------------------------------------------------------------- the poll timeout

  const TWO63: nat := 0x8000_0000_0000_0000

  /** min_timestamp - now, subtracted as unsigned long long and cast to long. */
  function SignedGap(min: nat, now: nat): int
    requires min < U64 && now < U64
  {
    var gap := if now <= min then min - now else min - now + U64;
    if gap < TWO63 then gap else gap - U64
  }

  /** The nearest wait between 0 and 100 ms. */
  function Clamped(wait: int): int {
    if wait < 0 then 0 else if wait < 100 then wait else 100
  }

  /** Outside a clock 2^63 ms past the earliest deadline the gap is negative or exact. */
  lemma GapExact(min: nat, now: nat)
    requires min < U64 && now < U64
    ensures SignedGap(min, now) <= 0 || SignedGap(min, now) == min - now || now > min + TWO63
    ensures now > min + TWO63 ==> SignedGap(min, now) == min - now + U64 > 0
    ensures min >= now + TWO63 ==> SignedGap(min, now) < 0
  {
  }

  /** A timer of time 0, and a clock 2^63 + 1 ms on: the timer is long due, and the gap is the longest
      wait there is. */
  lemma OversleepHappens()
    ensures SignedGap(0, TWO63 + 1) == TWO63 - 1 > 100
  {
  }

  /** The deadline of the head of the queue. */
  function Earliest(g: State): nat {
    if g.list != [] && g.list[0] in g.mem then g.mem[g.list[0]].ts else 0
  }

  /** Some queued timer is due before time t. */
  predicate Oversleeps(g: State, t: int) {
    exists id :: id in g.list && id in g.mem && g.mem[id].ts < t
  }

  lemma EarliestFirst(g: State)
    requires Placed(g) && g.list != []
    ensures g.list[0] in g.mem
    ensures forall t :: Oversleeps(g, t) <==> Earliest(g) < t
  {
    assert PlaceOk(g, g.list[0]);
    forall id | id in g.list && id in g.mem ensures Earliest(g) <= g.mem[id].ts {
      var i :| 0 <= i < |g.list| && g.list[i] == id;
      if i > 0 { assert Before(g.mem, g.list[0], g.list[i]); }
    }
    forall t | Earliest(g) < t ensures Oversleeps(g, t) { assert g.list[0] in g.list; }
  }

  class TimerQueue {
    var mem: Heap<LoopTimer>
    var brk: Addr
    var timerList: Addr
    var timerListEnd: Addr
    var minTimestamp: nat
    /** The local variable done_timer of the pass in progress. */
    ghost var doneTimer: Addr
    ghost var g: State

    ghost predicate Mirrors(x: Addr)
      reads this
    {
      brk == g.next && doneTimer == At(g.due, 0) && Mirror(mem, timerList, timerListEnd, minTimestamp, g, x)
    }

    ghost predicate Valid()
      reads this
    {
      Inv(g) && Mirrors(0)
    }

    constructor ()
      ensures Valid() && g == INIT
    {
      mem, brk, timerList, timerListEnd, minTimestamp, doneTimer := map[], 1, 0, 0, 0, 0;
      g := INIT;
      assert forall id :: PlaceOk(INIT, id);
    }

    /** The first node later than the given time, and how many are not. */
    method FindLater(timestamp: nat, ghost list: seq<Addr>, ghost ts: map<Addr, Timer>)
      returns (tIter: Addr, ghost k: nat)
      requires Linked(mem, list) && timerList == At(list, 0)
      requires forall a :: a in list ==> a in ts && a in mem && ts[a].ts == mem[a].val.timestamp
      ensures k == DueCount(ts, list, timestamp) && tIter == At(list, k)
    {
      tIter, k := timerList, 0;
      while tIter != 0 && mem[tIter].val.timestamp <= timestamp
        invariant k <= |list| && tIter == At(list, k)
        invariant tIter != 0 ==> k < |list|
        invariant forall i :: 0 <= i < k ==> ts[list[i]].ts <= timestamp
        decreases |list| - k
      {
        assert LinkOk(mem, list, k);
        tIter := mem[tIter].next;
        k := k + 1;
      }
      if k < |list| { assert LinkOk(mem, list, k); }
      DueCountIs(ts, list, timestamp, k);
    }

    /** Insertion into the empty list, then the three ways of insert_timer_inloop. */
    method InsertFirst(timer: Addr)
      requires timer in mem && timer != 0
      modifies `mem, `timerList, `timerListEnd, `minTimestamp
      ensures Lists(mem, timerList, timerListEnd, minTimestamp, [timer])
      ensures OnlyLinks(old(mem), mem, [timer])
    {
      mem := mem[timer := mem[timer].(prev := 0, next := 0)];
      timerList := timer;
      timerListEnd := timer;
      minTimestamp := mem[timer].val.timestamp;
    }

    method InsertAtTail(timer: Addr, ghost list: seq<Addr>)
      requires Lists(mem, timerList, timerListEnd, minTimestamp, list) && list != []
      requires timer in mem && timer != 0 && timer !in list && 0 !in mem
      requires mem[timer].prev == 0 && mem[timer].next == 0
      modifies `mem, `timerListEnd
      ensures Lists(mem, timerList, timerListEnd, minTimestamp, InsertAt(list, |list|, timer))
      ensures OnlyLinks(old(mem), mem, [timer] + list)
    {
      assert LinkOk(mem, list, |list| - 1);
      LinkInFacts(mem, list, |list|, timer);
      InsertAtFacts(list, |list|, timer);
      mem := mem[timerListEnd := mem[timerListEnd].(next := timer)];
      mem := mem[timer := mem[timer].(prev := timerListEnd)];
      assert mem == LinkIn(old(mem), timerListEnd, timer, 0);
      timerListEnd := timer;
    }

    method InsertAtHead(timer: Addr, ghost list: seq<Addr>)
      requires Lists(mem, timerList, timerListEnd, minTimestamp, list) && list != []
      requires timer in mem && timer != 0 && timer !in list && 0 !in mem
      modifies `mem, `timerList, `minTimestamp
      ensures Lists(mem, timerList, timerListEnd, minTimestamp, InsertAt(list, 0, timer))
      ensures OnlyLinks(old(mem), mem, [timer] + list)
    {
      assert LinkOk(mem, list, 0);
      LinkInFacts(mem, list, 0, timer);
      InsertAtFacts(list, 0, timer);
      var tIter := timerList;
      mem := mem[timer := mem[timer].(prev := 0, next := tIter)];
      mem := mem[tIter := mem[tIter].(prev := timer)];
      assert mem == LinkIn(old(mem), 0, timer, tIter);
      timerList := timer;
      minTimestamp := mem[timer].val.timestamp;
    }

    method InsertBetween(timer: Addr, tIter: Addr, ghost list: seq<Addr>, ghost k: nat)
      requires Lists(mem, timerList, timerListEnd, minTimestamp, list) && 0 < k < |list| && list[k] == tIter
      requires timer in mem && timer != 0 && timer !in list && 0 !in mem
      modifies `mem
      ensures Lists(mem, timerList, timerListEnd, minTimestamp, InsertAt(list, k, timer))
      ensures OnlyLinks(old(mem), mem, [timer] + list)
    {
      assert LinkOk(mem, list, k) && LinkOk(mem, list, k - 1);
      LinkInFacts(mem, list, k, timer);
      InsertAtFacts(list, k, timer);
      var before := mem[tIter].prev;
      mem := mem[before := mem[before].(next := timer)];
      mem := mem[timer := mem[timer].(prev := before, next := tIter)];
      mem := mem[tIter := mem[tIter].(prev := timer)];
      assert mem == LinkIn(old(mem), before, timer, tIter);
    }

    method InsertTimerInloop(timer: Addr, ghost list: seq<Addr>, ghost ts: map<Addr, Timer>) returns (ghost k: nat)
      requires Lists(mem, timerList, timerListEnd, minTimestamp, list)
      requires timer in mem && timer != 0 && timer !in list && 0 !in mem
      requires forall a :: a in list ==> a in ts && a in mem && ts[a].ts == mem[a].val.timestamp
      modifies `mem, `timerList, `timerListEnd, `minTimestamp
      ensures k == DueCount(ts, list, old(mem[timer].val.timestamp))
      ensures Lists(mem, timerList, timerListEnd, minTimestamp, InsertAt(list, k, timer))
      ensures OnlyLinks(old(mem), mem, [timer] + list)
    {
      NullMeansEmpty(mem, list);
      if timerList == 0 {
        assert InsertAt(list, 0, timer) == [timer] == [timer] + list;
        InsertFirst(timer);
        k := 0;
      } else {
        var timestamp := mem[timer].val.timestamp;
        mem := mem[timer := mem[timer].(prev := 0, next := 0)];
        ghost var cleared := mem;
        LinkedFrame(old(mem), mem, list);
        k := InsertSorted(timer, timestamp, list, ts);
        OnlyLinksTrans(old(mem), cleared, mem, timer, list);
      }
    }

    method InsertSorted(timer: Addr, timestamp: nat, ghost list: seq<Addr>, ghost ts: map<Addr, Timer>)
      returns (ghost k: nat)
      requires Lists(mem, timerList, timerListEnd, minTimestamp, list) && list != []
      requires timer in mem && timer != 0 && timer !in list && 0 !in mem && mem[timer].prev == 0 && mem[timer].next == 0
      requires forall a :: a in list ==> a in ts && a in mem && ts[a].ts == mem[a].val.timestamp
      modifies `mem, `timerList, `timerListEnd, `minTimestamp
      ensures k == DueCount(ts, list, timestamp)
      ensures Lists(mem, timerList, timerListEnd, minTimestamp, InsertAt(list, k, timer))
      ensures OnlyLinks(old(mem), mem, [timer] + list)
    {
      var tIter;
      tIter, k := FindLater(timestamp, list, ts);
      if k < |list| { assert LinkOk(mem, list, k); }
      if k > 0 { assert LinkOk(mem, list, k - 1); }
      if tIter == 0 {
        InsertAtTail(timer, list);
      } else if mem[tIter].prev == 0 {
        InsertAtHead(timer, list);
      } else {
        InsertBetween(timer, tIter, list, k);
      }
    }

    /** Unlinks a queued timer; the clock is only read when the list becomes empty. */
    method RemoveTimerInloop(timer: Addr, ghost list: seq<Addr>, now: nat)
      requires Lists(mem, timerList, timerListEnd, minTimestamp, list)
      requires timer in list && timer in mem && 0 !in mem
      modifies `mem, `timerList, `timerListEnd, `minTimestamp
      ensures Lists(mem, timerList, timerListEnd, minTimestamp, Without(list, timer))
      ensures OnlyLinks(old(mem), mem, list)
    {
      ghost var k := IndexOf(list, timer);
      assert LinkOk(mem, list, k);
      LinkOutFacts(mem, list, timer);
      WithoutFacts(list, timer);
      if k > 0 { assert LinkOk(mem, list, k - 1); }
      if k + 1 < |list| { assert LinkOk(mem, list, k + 1); }
      if timerList == timer {
        RemoveHead(timer, list, now);
      } else if timerListEnd == timer {
        timerListEnd := mem[timer].prev;
        mem := mem[timerListEnd := mem[timerListEnd].(next := 0)];
        assert mem == LinkOut(old(mem), timer);
      } else {
        var prev, next := mem[timer].prev, mem[timer].next;
        mem := mem[prev := mem[prev].(next := next)];
        mem := mem[next := mem[next].(prev := prev)];
        assert mem == LinkOut(old(mem), timer);
      }
    }

    method RemoveHead(timer: Addr, ghost list: seq<Addr>, now: nat)
      requires Lists(mem, timerList, timerListEnd, minTimestamp, list)
      requires list != [] && timer == list[0] && timer in mem && 0 !in mem
      modifies `mem, `timerList, `timerListEnd, `minTimestamp
      ensures Lists(mem, timerList, timerListEnd, minTimestamp, Without(list, timer))
      ensures mem == LinkOut(old(mem), timer)
    {
      assert LinkOk(mem, list, 0);
      LinkOutFacts(mem, list, timer);
      WithoutFacts(list, timer);
      if |list| > 1 { assert LinkOk(mem, list, 1); }
      timerList := mem[timer].next;
      if timerList != 0 {
        mem := mem[timerList := mem[timerList].(prev := 0)];
        minTimestamp := mem[timerList].val.timestamp;
      } else {
        timerListEnd := 0;
        minTimestamp := now;
      }
      assert mem == LinkOut(old(mem), timer);
    }

    /** insert_timer_inloop on a timer that is in no list. */
    method Enqueue(timer: Addr, ghost e: Event)
      requires Mirrors(timer) && Loose(g, timer)
      requires timer in mem && !mem[timer].val.isInCallback && !mem[timer].val.isExpired
      requires mem[timer].val.interval == g.mem[timer].interval && mem[timer].val.isAlive == g.mem[timer].alive
      modifies this
      ensures Mirrors(0) && g == TimerModel.Enqueue(old(g), timer, old(mem[timer].val.timestamp), e)
    {
      ZeroNowhere(g, timer);
      ListStamps(mem, g, timer);
      ghost var k := InsertTimerInloop(timer, g.list, g.mem);
      EnqueueMirror(old(mem), mem, timerList, timerListEnd, minTimestamp, g, timer, e);
      mem := mem[timer := mem[timer].(val := mem[timer].val.(isInQueue := true))];
      g := TimerModel.Enqueue(g, timer, old(mem[timer].val.timestamp), e);
    }

    method Free(timer: Addr)
      requires Mirrors(timer) && Loose(g, timer) && timer in mem
      modifies `mem, `g
      ensures Mirrors(0) && g == Release(old(g), timer)
    {
      ReleaseMirror(mem, timerList, timerListEnd, minTimestamp, g, timer);
      mem := mem - {timer};
      g := Release(g, timer);
    }

    /** do_insert_timer: the task posted by timer_queue_add. */
    method DoInsertTimer(timer: Addr)
      requires Valid() && Enabled(g, InsertTask(timer))
      modifies this
      ensures Valid() && g == Apply(old(g), InsertTask(timer))
    {
      StepKeepsInv(g, InsertTask(timer));
      assert PlaceOk(g, timer) && NodeOk(mem, g.mem, timer);
      PendingLoose(g, timer);
      PartMirror(mem, timerList, timerListEnd, minTimestamp, g, timer);
      if mem[timer].val.isAlive {
        Enqueue(timer, Inserted(timer));
      } else {
        Free(timer);
      }
    }

    /** timer_queue_add: on the loop thread the insertion runs at once, from another thread it is
        posted and the handle is returned first. */
    method Add(timestamp: nat, interval: nat, inLoop: bool) returns (timer: Addr)
      requires Valid() && timestamp < U64
      modifies this
      ensures Valid() && timer == old(g).next
      ensures g ==
              Apply(old(g), if inLoop then Step.Add(timestamp, interval) else Step.AddDeferred(timestamp, interval))
    {
      StepKeepsInv(g, Step.AddDeferred(timestamp, interval));
      AllocMirror(mem, timerList, timerListEnd, minTimestamp, g, timestamp, interval);
      timer := brk;
      brk := brk + 1;
      mem := mem[timer := Node(0, 0, LoopTimer(timestamp, interval, false, true, false, false))];
      g := Alloc(g, timestamp, interval);
      if inLoop {
        DoInsertTimer(timer);
      }
    }

    /** timer_queue_cancel_inloop: a timer in the queue is unlinked and freed, one whose callback
        runs or is still due in this pass, or whose insertion is pending, is only marked. */
    method Cancel(timer: Addr, now: nat)
      requires Valid() && Enabled(g, Step.Cancel(timer))
      modifies this
      ensures Valid() && g == Apply(old(g), Step.Cancel(timer))
    {
      StepKeepsInv(g, Step.Cancel(timer));
      assert PlaceOk(g, timer) && NodeOk(mem, g.mem, timer);
      if mem[timer].val.isInCallback {
        Mark(timer);
      } else if mem[timer].val.isExpired {
        Mark(timer);
      } else {
        if mem[timer].val.isInQueue {
          Unlist(timer, now, g.log + [Cancelled(timer)]);
          Free(timer);
        } else {
          Mark(timer);
        }
      }
    }

    method Unlist(timer: Addr, now: nat, ghost log: seq<Event>)
      requires Placed(g) && Mirrors(0) && timer in g.list && timer in mem && timer != 0
      modifies this
      ensures Mirrors(timer) && Loose(g, timer)
      ensures g == old(g).(list := Without(old(g).list, timer), log := log)
      ensures timer in mem && mem[timer].val == old(mem)[timer].val
    {
      RemoveTimerInloop(timer, g.list, now);
      UnlistMirror(old(mem), mem, timerList, timerListEnd, minTimestamp, g, timer, log);
      UnlistLoose(g, timer, log);
      g := g.(list := Without(g.list, timer), log := log);
    }

    /** is_alive = 0 */
    method Mark(timer: Addr)
      requires Mirrors(0) && timer in mem && timer in g.mem && timer != 0
      modifies `mem, `g
      ensures Mirrors(0) && g == MarkDead(Emit(old(g), Cancelled(timer)), timer)
    {
      assert NodeOk(mem, g.mem, timer);
      PartMirror(mem, timerList, timerListEnd, minTimestamp, g, timer);
      WriteMirror(mem, timerList, timerListEnd, minTimestamp, g, timer, mem[timer].val.(isAlive := false));
      mem := mem[timer := mem[timer].(val := mem[timer].val.(isAlive := false))];
      ghost var g0 := g;
      g := MarkDead(Emit(g, Cancelled(timer)), timer);
      NodesElsewhere(mem, g0.mem, mem, g.mem, timer);
      WholeMirror(mem, timerList, timerListEnd, minTimestamp, g, timer);
    }

    /** timer_queue_refresh: a periodic timer in the queue starts its interval anew. */
    method Refresh(timer: Addr, now: nat)
      requires Valid() && timer in g.mem && g.mem[timer].place.Queued? && now < U64
      modifies this
      ensures Valid()
      ensures g == DoRefresh(old(g), timer, Wrap(now + old(g).mem[timer].interval))
    {
      assert PlaceOk(g, timer) && NodeOk(mem, g.mem, timer);
      ghost var timestamp := Wrap(now + g.mem[timer].interval);
      if mem[timer].val.interval > 0 {
        assert Wrap(now + mem[timer].val.interval) == timestamp;
        DoTimerQueueRefresh(timer, Wrap(now + mem[timer].val.interval), now);
        assert g == DoRefresh(old(g), timer, timestamp);
      }
    }

    method DoTimerQueueRefresh(timer: Addr, timestamp: nat, now: nat)
      requires Valid() && timer in g.mem && g.mem[timer].place.Queued? && timestamp < U64 && g.mem[timer].interval != 0
      modifies this
      ensures Valid() && g == DoRefresh(old(g), timer, timestamp)
    {
      StepKeepsInv(g, Step.Refresh(timer, timestamp));
      assert PlaceOk(g, timer) && NodeOk(mem, g.mem, timer);
      Unlist(timer, now, g.log);
      WriteMirror(mem, timerList, timerListEnd, minTimestamp, g, timer, mem[timer].val.(timestamp := timestamp));
      mem := mem[timer := mem[timer].(val := mem[timer].val.(timestamp := timestamp))];
      Enqueue(timer, Refreshed(timer, timestamp));
    }

    /** timer_queue_gettimeout: the wait for the earliest deadline, between 0 and 100; a sleep of that
        length does not pass the deadline of any queued timer, exactly as long as the clock is not
        more than 2^63 ms past the earliest one. */
    method GetTimeout(now: nat) returns (timeout: int)
      requires Valid() && now < U64
      ensures 0 <= timeout <= 100
      ensures g.list == [] ==> timeout == 100
      ensures g.list != [] ==> (Oversleeps(g, now + timeout) && timeout > 0 <==> now > Earliest(g) + TWO63)
      ensures g.list != [] ==>
        var wait: int := Earliest(g) - now;
        timeout == if wait >= TWO63 then 0 else Clamped(if wait + TWO63 < 0 then wait + U64 else wait)
    {
      NullMeansEmpty(mem, g.list);
      if timerList == 0 { return 100; }
      assert PlaceOk(g, g.list[0]) && NodeOk(mem, g.mem, g.list[0]);
      assert LinkOk(mem, g.list, 0);
      GapExact(minTimestamp, now);
      EarliestFirst(g);
      var interval := SignedGap(minTimestamp, now);
      timeout := 100;
      if timeout > interval { timeout := interval; }
      if timeout < 0 { timeout := 0; }
    }

    /** The loop that flags the split-off chain as expired. */
    method MarkExpired(done: Addr, ghost s: seq<Addr>)
      requires Chain(mem, s) && done == At(s, 0)
      modifies `mem
      ensures Expired(old(mem), mem, s)
    {
      var timerIter := done;
      ghost var k := 0;
      NullEnds(mem, s, 0);
      assert s[..0] == [];
      while timerIter != 0
        invariant k <= |s| && timerIter == At(s, k) && (timerIter != 0 <==> k < |s|)
        invariant Expired(old(mem), mem, s[..k])
        decreases |s| - k
      {
        assert NextOk(old(mem), s, k);
        assert s[..k + 1] == s[..k] + [s[k]];
        mem := mem[timerIter := mem[timerIter].(val := mem[timerIter].val.(isExpired := true))];
        timerIter := mem[timerIter].next;
        k := k + 1;
        NullEnds(old(mem), s, k);
      }
      assert s[..k] == s;
    }

    /** Cuts the list after its first k nodes; `timer` is the first one not due, or NULL. */
    method CutList(timer: Addr, now: nat, ghost list: seq<Addr>, ghost k: nat) returns (done: Addr)
      requires Lists(mem, timerList, timerListEnd, minTimestamp, list) && 0 !in mem
      requires 0 < k <= |list| && timer == At(list, k)
      modifies `mem, `timerList, `timerListEnd, `minTimestamp
      ensures done == At(list, 0)
      ensures mem == SetPrev(SetNext(old(mem), At(list, k - 1), 0), At(list, k), 0)
      ensures Lists(mem, timerList, timerListEnd, minTimestamp, list[k..]) && Chain(mem, list[..k])
    {
      SplitLinks(mem, list, k);
      assert LinkOk(mem, list, 0) && LinkOk(mem, list, k - 1);
      if k < |list| { assert LinkOk(mem, list, k); }
      done := timerList;
      if timer == 0 {
        mem := mem[done := mem[done].(prev := 0)];
        mem := mem[timerListEnd := mem[timerListEnd].(next := 0)];
        timerList, timerListEnd, minTimestamp := 0, 0, now;
      } else {
        var doneEnd := mem[timer].prev;
        mem := mem[doneEnd := mem[doneEnd].(next := 0)];
        timerList := timer;
        mem := mem[timerList := mem[timerList].(prev := 0)];
        minTimestamp := mem[timer].val.timestamp;
      }
      assert mem == SetPrev(SetNext(old(mem), At(list, k - 1), 0), At(list, k), 0);
    }

    /** The first half of timer_queue_process_inloop: the timers due at `now` leave the list. */
    method SplitDue(now: nat) returns (done: Addr)
      requires Valid() && Idle(g)
      modifies this
      ensures Valid() && g == DoBegin(old(g), now) && done == doneTimer
    {
      StepKeepsInv(g, Begin(now));
      ZeroNowhere(g, 1);
      ListStamps(mem, g, 0);
      NullMeansEmpty(mem, g.list);
      if timerList == 0 {
        NothingDue(g, now);
        g := DoBegin(g, now);
        return 0;
      }
      var timer, k := FindLater(now, g.list, g.mem);
      if k < |g.list| { assert LinkOk(mem, g.list, k); }
      if k > 0 { assert LinkOk(mem, g.list, k - 1); }
      if timer != 0 && mem[timer].prev == 0 {
        NothingDue(g, now);
        g := DoBegin(g, now);
        return 0;
      }
      done := SplitSome(timer, now, k);
    }

    method SplitSome(timer: Addr, now: nat, ghost k: nat) returns (done: Addr)
      requires Mirrors(0) && Placed(g) && Idle(g)
      requires k == DueCount(g.mem, g.list, now) && k > 0 && timer == At(g.list, k)
      modifies this
      ensures Mirrors(0) && g == DoBegin(old(g), now) && done == doneTimer
    {
      done := CutList(timer, now, g.list, k);
      ghost var cut := mem;
      MarkExpired(done, g.list[..k]);
      SplitMirror(old(mem), cut, mem, timerList, timerListEnd, minTimestamp, g, now, k);
      g := DoBegin(g, now);
      doneTimer := done;
    }

    /** A due timer that was not cancelled: its callback starts. */
    method StartTurn(timer: Addr)
      requires Valid() && Enabled(g, Turn) && timer == g.due[0] && g.mem[timer].alive
      modifies this
      ensures Valid() && g == DoTurn(old(g))
    {
      StepKeepsInv(g, Turn);
      assert PlaceOk(g, timer) && NodeOk(mem, g.mem, timer);
      PopMirror(mem, timerList, timerListEnd, minTimestamp, g, g.log);
      doneTimer := mem[timer].next;
      mem := mem[timer := mem[timer].(prev := 0, next := 0)];
      g := g.(due := g.due[1..]);
      StartMirror(mem, timerList, timerListEnd, minTimestamp, g, timer);
      mem := mem[timer := mem[timer].(val := mem[timer].val.(isInCallback := true))];
      g := Start(g, timer);
    }

    /** A due timer that was cancelled before its turn: it is freed. */
    method DropTurn(timer: Addr)
      requires Valid() && Enabled(g, Turn) && timer == g.due[0] && !g.mem[timer].alive
      modifies this
      ensures Valid() && g == DoTurn(old(g))
    {
      StepKeepsInv(g, Turn);
      assert PlaceOk(g, timer) && NodeOk(mem, g.mem, timer);
      ghost var log := g.log + [Skipped(timer)];
      PopMirror(mem, timerList, timerListEnd, minTimestamp, g, log);
      UndueLoose(g, log);
      doneTimer := mem[timer].next;
      mem := mem[timer := mem[timer].(prev := 0, next := 0)];
      g := g.(due := g.due[1..], log := log);
      Free(timer);
    }

    /** The callback returned: a live periodic timer is put back, any other is freed. */
    method FinishTurn(timer: Addr)
      requires Mirrors(0) && Placed(g) && g.running == Some(timer) && timer in g.mem
      modifies this
      ensures Mirrors(0) && g == DoReturn(old(g))
    {
      assert PlaceOk(g, timer) && NodeOk(mem, g.mem, timer);
      RunningLoose(g);
      PartMirror(mem, timerList, timerListEnd, minTimestamp, g, timer);
      g := g.(running := None);
      if mem[timer].val.isAlive && mem[timer].val.interval != 0 {
        Rearm(timer);
      } else {
        Free(timer);
      }
    }

    method Rearm(timer: Addr)
      requires Mirrors(timer) && Loose(g, timer) && timer in mem && Flags(mem[timer].val, g.mem[timer])
      modifies this
      ensures Mirrors(0)
      ensures var t := old(g).mem[timer];
        g == TimerModel.Enqueue(old(g), timer, Wrap(t.ts + t.interval), Rearmed(timer))
    {
      ghost var ts := Wrap(g.mem[timer].ts + g.mem[timer].interval);
      var v := mem[timer].val;
      v := v.(isInCallback := false, timestamp := Wrap(v.timestamp + v.interval), isExpired := false);
      assert v.timestamp == ts;
      WriteMirror(mem, timerList, timerListEnd, minTimestamp, g, timer, v);
      mem := mem[timer := mem[timer].(val := v)];
      Enqueue(timer, Rearmed(timer));
    }

    /** One client operation of a callback, if it is legal here: cancel and refresh on handles
        that are freed, or not queued, are never made. */
    method Perform(op: Step, now: nat)
      requires Valid()
      modifies this
      ensures Valid() && g == TryClient(old(g), op)
    {
      match op
      case Add(ts, interval) => if ts < U64 { var timer := Add(ts, interval, true); }
      case AddDeferred(ts, interval) => if ts < U64 { var timer := Add(ts, interval, false); }
      case InsertTask(id) => PerformOn(op, now);
      case Cancel(id) => PerformOn(op, now);
      case Refresh(id, ts) => PerformOn(op, now);
      case _ =>
    }

    method PerformOn(op: Step, now: nat)
      requires Valid() && (op.InsertTask? || op.Cancel? || op.Refresh?)
      modifies this
      ensures Valid() && g == TryClient(old(g), op)
    {
      var place := PlaceOf(op.id);
      if op.InsertTask? && place == Some(Pending) {
        DoInsertTimer(op.id);
      } else if op.Cancel? && place.Some? {
        Cancel(op.id, now);
      } else if op.Refresh? && place == Some(Queued) && op.ts < U64 && mem[op.id].val.interval != 0 {
        DoTimerQueueRefresh(op.id, op.ts, now);
      }
    }

    /** The flags of an allocated timer determine its place. */
    method PlaceOf(id: Addr) returns (place: Option<Place>)
      requires Valid()
      ensures place.Some? <==> id in g.mem
      ensures place.Some? ==> id in mem && place.value == g.mem[id].place && mem[id].val.interval == g.mem[id].interval
    {
      assert PlaceOk(g, id);
      assert id != 0 ==> NodeOk(mem, g.mem, id);
      if id !in mem { return None; }
      var v := mem[id].val;
      if v.isInCallback { return Some(Running); }
      if v.isExpired { return Some(Due); }
      return Some(if v.isInQueue then Queued else Pending);
    }

    /** A timer's callback, asking for the operations `ops`. */
    method ExpireCallback(ops: seq<Step>, now: nat)
      requires Valid()
      modifies this
      ensures Valid() && g == RunClient(old(g), ops)
    {
      var i := 0;
      assert ops[0..] == ops;
      while i < |ops|
        invariant i <= |ops| && Valid()
        invariant RunClient(g, ops[i..]) == RunClient(old(g), ops)
      {
        assert ops[i..][0] == ops[i] && ops[i..][1..] == ops[i + 1..];
        Perform(ops[i], now);
        i := i + 1;
      }
    }

    /** One round of the loop over the due timers. */
    method TakeTurn(timer: Addr, ops: seq<Step>, now: nat) returns (done: Addr, fired: bool)
      requires Valid() && g.running.None? && g.due != [] && timer == doneTimer
      modifies this
      ensures Valid() && g == TurnResult(old(g), ops) && done == doneTimer
      ensures old(g).due[0] in old(g).mem && fired == old(g).mem[old(g).due[0]].alive
    {
      assert PlaceOk(g, timer) && NodeOk(mem, g.mem, timer);
      NextDue(mem, g);
      fired := mem[timer].val.isAlive;
      done := mem[timer].next;
      if fired {
        FireTurn(timer, ops, now);
        TurnResultKeeps(old(g), ops);
      } else {
        DropTurn(timer);
      }
    }

    method FireTurn(timer: Addr, ops: seq<Step>, now: nat)
      requires Valid() && Enabled(g, Turn) && timer == g.due[0] && g.mem[timer].alive
      modifies this
      ensures Valid() && g == Finish(RunClient(DoTurn(old(g)), ops))
    {
      StartTurn(timer);
      assert g.running == Some(timer);
      RunClientKeeps(g, ops);
      ExpireCallback(ops, now);
      assert PlaceOk(g, timer);
      FinishKeeps(g);
      FinishTurn(timer);
    }

    /** The loop over the done chain. */
    method TakeTurns(first: Addr, now: nat, script: seq<seq<Step>>)
      requires Valid() && g.running.None? && first == doneTimer && (first == 0 <==> g.due == [])
      modifies this
      ensures Valid() && g.running.None? && g.due == []
      ensures Leads(old(g), g) && Follows(old(g), script, g)
    {
      ghost var begun := g;
      LeadsSame(g);
      FollowsNone(g, script);
      var done := first;
      var i: nat := 0;
      while done != 0
        invariant Valid() && g.running.None? && done == doneTimer && (done == 0 <==> g.due == [])
        invariant TurnsTaken(begun, script, g, i)
        decreases |g.due|
      {
        assert PlaceOk(g, g.due[0]);
        OneMoreTurn(begun, script, g, i);
        var fired;
        done, fired := TakeTurn(done, if i < |script| then script[i] else [], now);
        NullEnds(mem, g.due, 0);
        if fired { i := i + 1; }
      }
    }

    /** timer_queue_process_inloop at clock `now`; the i-th callback that runs asks for the
        operations script[i]. */
    method Process(now: nat, script: seq<seq<Step>>)
      requires Valid() && Idle(g)
      modifies this
      ensures Valid() && PassFollows(old(g), now, script, g)
    {
      var done := SplitDue(now);
      NullEnds(mem, g.due, 0);
      TakeTurns(done, now, script);
      PassIs(old(g), now, g);
    }
  }

  /** Since the pass began in s1, i callbacks have run, as the script asks. */
  ghost predicate TurnsTaken(s1: State, script: seq<seq<Step>>, s: State, i: nat) {
    Leads(s1, s) && Follows(s1, script, s) && i == Fires(s.log[|s1.log|..]) && Inv(s1)
  }

  lemma OneMoreTurn(s1: State, script: seq<seq<Step>>, s: State, i: nat)
    requires Inv(s) && TurnsTaken(s1, script, s, i) && s.due != [] && s.running.None? && s.due[0] in s.mem
    ensures var s' := TurnResult(s, ScriptAt(script, i));
      && TurnsTaken(s1, script, s', if s.mem[s.due[0]].alive then i + 1 else i)
      && s'.running.None? && s'.due == s.due[1..]
  {
    var s' := TurnResult(s, ScriptAt(script, i));
    TurnResultKeeps(s, ScriptAt(script, i));
    FollowsTurn(s1, script, s);
    LeadsTrans(s1, s, s');
  }

  lemma PassIs(s0: State, now: nat, s: State)
    requires Idle(s0) && Leads(DoBegin(s0, now), s)
    ensures Pass(s0, now, s)
  {
  }
}
