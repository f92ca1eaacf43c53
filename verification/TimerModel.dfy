/** The timer queue as a state machine: what each loop-thread action does to the set of
    allocated timers, the sorted queue and the chain of timers still due in a pass.

    One pass of the queue is cut into its atomic pieces (`Begin`, then `Turn` and `Return` for
    each due timer), and a callback is whatever client steps happen between a `Turn` and its
    `Return`.  A run is any legal sequence of steps, so the theorems cover callbacks that add
    and cancel any timer, and insertions posted by other threads at any moment.
  */
module TimerModel {
  import opened Memory

  const U64: nat := 0x1_0000_0000_0000_0000

  /** Unsigned 64-bit arithmetic wraps: n mod 2^64. */
  function Wrap(n: nat): (r: nat)
    ensures r < U64
  {
    if n < U64 then n else Wrap(n - U64)
  }

  /** Where an allocated timer is: its insertion task has not run, it is in the queue, it is due
      in the current pass, or its callback is running. */
  datatype Place = Pending | Queued | Due | Running

  /** `stamp` is the number of the timer's last insertion; it only serves to state tie order. */
  datatype Timer = Timer(ts: nat, interval: nat, alive: bool, place: Place, stamp: nat)

  datatype Event =
    | Added(id: Addr, ts: nat, interval: nat)
    | Inserted(id: Addr)
    | Cancelled(id: Addr)
    | Refreshed(id: Addr, ts: nat)
    | Fired(id: Addr, deadline: nat, now: nat)
    | Skipped(id: Addr)
    | Rearmed(id: Addr)
    | Freed(id: Addr)

  datatype State = State(
    mem: map<Addr, Timer>,
    next: Addr,
    stamp: nat,
    list: seq<Addr>,
    due: seq<Addr>,
    running: Option<Addr>,
    passNow: nat,
    freed: set<Addr>,
    log: seq<Event>)

  datatype Step =
    | Add(ts: nat, interval: nat)
    | AddDeferred(ts: nat, interval: nat)
    | InsertTask(id: Addr)
    | Cancel(id: Addr)
    | Refresh(id: Addr, ts: nat)
    | Begin(now: nat)
    | Turn
    | Return

  const INIT: State := State(map[], 1, 0, [], [], None, 0, {}, [])

  /** The client steps are what callbacks, other loop callbacks and other threads may do. */
  predicate Client(e: Step) {
    e.Add? || e.AddDeferred? || e.InsertTask? || e.Cancel? || e.Refresh?
  }

  predicate Idle(s: State) {
    s.due == [] && s.running.None?
  }

  /** Cancel needs a handle that was not freed, Refresh one that is in the queue; `ts` is the
      refreshed deadline (the clock plus the interval, wrapped). */
  predicate Enabled(s: State, e: Step) {
    match e
    case Add(ts, interval) => ts < U64
    case AddDeferred(ts, interval) => ts < U64
    case InsertTask(id) => id in s.mem && s.mem[id].place.Pending?
    case Cancel(id) => id in s.mem
    case Refresh(id, ts) => id in s.mem && s.mem[id].place.Queued? && ts < U64
    case Begin(now) => Idle(s)
    case Turn => s.due != [] && s.running.None? && s.due[0] in s.mem
    case Return => s.running.Some? && s.running.value in s.mem
  }

  /** How many timers at the front of the list are due at time t. */
  function DueCount(mem: map<Addr, Timer>, list: seq<Addr>, t: nat): (n: nat)
    ensures n <= |list|
    ensures forall i :: 0 <= i < n ==> list[i] in mem && mem[list[i]].ts <= t
    ensures n < |list| && list[n] in mem ==> t < mem[list[n]].ts
  {
    if list == [] || list[0] !in mem || t < mem[list[0]].ts then 0
    else 1 + DueCount(mem, list[1..], t)
  }

  function Emit(s: State, e: Event): State {
    s.(log := s.log + [e])
  }

  function Alloc(s: State, ts: nat, interval: nat): State {
    Emit(s.(mem := s.mem[s.next := Timer(ts, interval, true, Pending, 0)], next := s.next + 1),
         Added(s.next, ts, interval))
  }

  /** Sorted insertion, after every timer with the same timestamp. */
  function Enqueue(s: State, id: Addr, ts: nat, e: Event): State
    requires id in s.mem
  {
    var k := DueCount(s.mem, s.list, ts);
    Emit(s.(mem := s.mem[id := s.mem[id].(ts := ts, place := Queued, stamp := s.stamp)],
            stamp := s.stamp + 1,
            list := InsertAt(s.list, k, id)), e)
  }

  function Release(s: State, id: Addr): State {
    Emit(s.(mem := s.mem - {id}, freed := s.freed + {id}), Freed(id))
  }

  function MarkDead(s: State, id: Addr): State
    requires id in s.mem
  {
    s.(mem := s.mem[id := s.mem[id].(alive := false)])
  }

  function Start(s: State, id: Addr): State
    requires id in s.mem
  {
    Emit(s.(mem := s.mem[id := s.mem[id].(place := Running)], running := Some(id)),
         Fired(id, s.mem[id].ts, s.passNow))
  }

  function MarkDue(mem: map<Addr, Timer>, ids: seq<Addr>): map<Addr, Timer> {
    map a | a in mem :: if a in ids then mem[a].(place := Due) else mem[a]
  }

  function DoInsert(s: State, id: Addr): State
    requires id in s.mem
  {
    if s.mem[id].alive then Enqueue(s, id, s.mem[id].ts, Inserted(id)) else Release(s, id)
  }

  /** A queued timer is unlinked and freed at once; any other is only marked. */
  function DoCancel(s: State, id: Addr): State
    requires id in s.mem
  {
    var s1 := Emit(s, Cancelled(id));
    if s.mem[id].place.Queued? then Release(s1.(list := Without(s.list, id)), id)
    else MarkDead(s1, id)
  }

  function DoRefresh(s: State, id: Addr, ts: nat): State
    requires id in s.mem
  {
    if s.mem[id].interval == 0 then s
    else Enqueue(s.(list := Without(s.list, id)), id, ts, Refreshed(id, ts))
  }

  function DoBegin(s: State, now: nat): State {
    var k := DueCount(s.mem, s.list, now);
    s.(due := s.list[..k], list := s.list[k..], passNow := now, mem := MarkDue(s.mem, s.list[..k]))
  }

  function DoTurn(s: State): State
    requires s.due != [] && s.due[0] in s.mem
  {
    var id := s.due[0];
    var s1 := s.(due := s.due[1..]);
    if s.mem[id].alive then Start(s1, id) else Release(Emit(s1, Skipped(id)), id)
  }

  function DoReturn(s: State): State
    requires s.running.Some? && s.running.value in s.mem
  {
    var id := s.running.value;
    var s1 := s.(running := None);
    if s.mem[id].alive && s.mem[id].interval != 0 then
      Enqueue(s1, id, Wrap(s.mem[id].ts + s.mem[id].interval), Rearmed(id))
    else
      Release(s1, id)
  }

  function Apply(s: State, e: Step): State
    requires Enabled(s, e)
  {
    match e
    case Add(ts, interval) => Enqueue(Alloc(s, ts, interval), s.next, ts, Inserted(s.next))
    case AddDeferred(ts, interval) => Alloc(s, ts, interval)
    case InsertTask(id) => DoInsert(s, id)
    case Cancel(id) => DoCancel(s, id)
    case Refresh(id, ts) => DoRefresh(s, id, ts)
    case Begin(now) => DoBegin(s, now)
    case Turn => DoTurn(s)
    case Return => DoReturn(s)
  }

  predicate Legal(s: State, steps: seq<Step>)
    decreases |steps|
  {
    steps == [] || (Enabled(s, steps[0]) && Legal(Apply(s, steps[0]), steps[1..]))
  }

  function Run(s: State, steps: seq<Step>): State
    requires Legal(s, steps)
    decreases |steps|
  {
    if steps == [] then s else Run(Apply(s, steps[0]), steps[1..])
  }

  // ---------------------------------------------------------------- invariants

  /** Timer id is allocated or freed, never both; if allocated it is in the place its record
      names and nowhere else. */
  ghost predicate PlaceOk(s: State, id: Addr) {
    && (id in s.mem || id in s.freed <==> 0 < id < s.next)
    && (id in s.mem ==> id !in s.freed && s.mem[id].ts < U64)
    && (id in s.list <==> id in s.mem && s.mem[id].place.Queued?)
    && (id in s.due <==> id in s.mem && s.mem[id].place.Due?)
    && (s.running == Some(id) <==> id in s.mem && s.mem[id].place.Running?)
    && (id in s.list ==> s.mem[id].stamp < s.stamp)
    && (id in s.due ==> s.mem[id].ts <= s.passNow)
  }

  predicate Before(mem: map<Addr, Timer>, a: Addr, b: Addr) {
    a in mem && b in mem
    && (mem[a].ts < mem[b].ts || (mem[a].ts == mem[b].ts && mem[a].stamp < mem[b].stamp))
  }

  /** Sorted by timestamp, ties in insertion order (so no timer occurs twice). */
  ghost predicate Sorted(mem: map<Addr, Timer>, list: seq<Addr>) {
    forall i, j :: 0 <= i < j < |list| ==> Before(mem, list[i], list[j])
  }

  ghost predicate Placed(s: State) {
    && s.next > 0
    && Sorted(s.mem, s.list)
    && Sorted(s.mem, s.due)
    && forall id :: PlaceOk(s, id)
  }

  /** Timer x is allocated but, whatever its record says, in no place; everything else is placed. */
  ghost predicate Loose(s: State, x: Addr) {
    && 0 < x < s.next && x in s.mem && x !in s.freed
    && x !in s.list && x !in s.due && s.running != Some(x)
    && Sorted(s.mem, s.list)
    && Sorted(s.mem, s.due)
    && forall id :: id != x ==> PlaceOk(s, id)
  }

  /** The deadline of timer id's next firing, read off its history alone. */
  function Deadline(log: seq<Event>, id: Addr): nat {
    if log == [] then 0
    else
      var e := log[|log| - 1];
      var before := log[..|log| - 1];
      if e.id != id then Deadline(before, id)
      else match e
        case Added(_, ts, _) => ts
        case Refreshed(_, ts) => ts
        case Fired(_, _, _) => Wrap(Deadline(before, id) + Interval(before, id))
        case _ => Deadline(before, id)
  }

  function Interval(log: seq<Event>, id: Addr): nat {
    if log == [] then 0
    else
      var e := log[|log| - 1];
      if e.id == id && e.Added? then e.interval else Interval(log[..|log| - 1], id)
  }

  /** What may follow a history: nothing touches a freed timer, an address is handed out once,
      a cancelled timer does not fire, only a cancelled timer loses its turn, and a timer fires
      at its deadline and not before the clock reached it. */
  ghost predicate GoodNext(log: seq<Event>, e: Event) {
    && Freed(e.id) !in log
    && (e.Added? ==> forall x :: x in log ==> x.id != e.id)
    && (e.Fired? ==> Cancelled(e.id) !in log && e.deadline == Deadline(log, e.id) && e.deadline <= e.now)
    && (e.Skipped? ==> Cancelled(e.id) in log)
  }

  ghost predicate GoodLog(log: seq<Event>) {
    log == [] || (GoodLog(log[..|log| - 1]) && GoodNext(log[..|log| - 1], log[|log| - 1]))
  }

  function NextDeadline(t: Timer): nat {
    if t.place.Running? then Wrap(t.ts + t.interval) else t.ts
  }

  /** The record of timer id agrees with the history. */
  ghost predicate Agrees(log: seq<Event>, id: Addr, t: Timer) {
    && Freed(id) !in log
    && (t.alive <==> Cancelled(id) !in log)
    && t.interval == Interval(log, id)
    && NextDeadline(t) == Deadline(log, id)
  }

  ghost predicate Recorded(mem: map<Addr, Timer>, next: Addr, log: seq<Event>) {
    && GoodLog(log)
    && (forall e :: e in log ==> 0 < e.id < next)
    && (forall id :: id in mem ==> Agrees(log, id, mem[id]))
  }

  ghost predicate Inv(s: State) {
    Placed(s) && Recorded(s.mem, s.next, s.log)
  }

  // ---------------------------------------------------------------- the building blocks keep it

  lemma AppendFacts(log: seq<Event>, e: Event)
    ensures (log + [e])[..|log|] == log
    ensures GoodLog(log + [e]) <==> GoodLog(log) && GoodNext(log, e)
    ensures forall id :: id != e.id || !(e.Added? || e.Refreshed? || e.Fired?) ==>
              Deadline(log + [e], id) == Deadline(log, id)
    ensures forall id :: id != e.id || !e.Added? ==> Interval(log + [e], id) == Interval(log, id)
  {
    assert (log + [e])[..|log|] == log;
  }

  lemma DueCountSplits(mem: map<Addr, Timer>, list: seq<Addr>, t: nat)
    requires Sorted(mem, list) && (forall id :: id in list ==> id in mem)
    ensures var k := DueCount(mem, list, t);
      forall i :: 0 <= i < |list| ==> (mem[list[i]].ts <= t <==> i < k)
  {
    var k := DueCount(mem, list, t);
    forall i | k <= i < |list| ensures t < mem[list[i]].ts {
      if i > k { assert Before(mem, list[k], list[i]); }
    }
  }

  lemma SortedDistinct(mem: map<Addr, Timer>, list: seq<Addr>)
    requires Sorted(mem, list)
    ensures Distinct(list)
  {
    forall i, j | 0 <= i < j < |list| ensures list[i] != list[j] { assert Before(mem, list[i], list[j]); }
  }

  /** Changing records outside a list, or fields that do not order it, leaves it sorted. */
  lemma SortedElsewhere(mem: map<Addr, Timer>, list: seq<Addr>, mem': map<Addr, Timer>)
    requires Sorted(mem, list)
    requires forall id :: id in list && id in mem ==>
               id in mem' && mem'[id].ts == mem[id].ts && mem'[id].stamp == mem[id].stamp
    ensures Sorted(mem', list)
  {
    forall i, j | 0 <= i < j < |list| ensures Before(mem', list[i], list[j]) { assert Before(mem, list[i], list[j]); }
  }

  lemma SortedPart(mem: map<Addr, Timer>, list: seq<Addr>, k: nat)
    requires Sorted(mem, list) && k <= |list|
    ensures Sorted(mem, list[..k]) && Sorted(mem, list[k..])
  {
    var r := list[k..];
    forall i, j | 0 <= i < j < |r| ensures Before(mem, r[i], r[j]) {
      assert Before(mem, list[k + i], list[k + j]);
    }
  }

  lemma SortedWithout(mem: map<Addr, Timer>, list: seq<Addr>, id: Addr)
    requires Sorted(mem, list) && id in list
    ensures Sorted(mem, Without(list, id))
  {
    SortedDistinct(mem, list);
    WithoutFacts(list, id);
    var r := Without(list, id);
    var k := IndexOf(list, id);
    forall i, j | 0 <= i < j < |r| ensures Before(mem, r[i], r[j]) {
      assert Before(mem, list[if i < k then i else i + 1], list[if j < k then j else j + 1]);
    }
  }

  lemma SortedInsert(mem: map<Addr, Timer>, list: seq<Addr>, id: Addr, t: Timer)
    requires Sorted(mem, list) && id !in list
    requires forall a :: a in list ==> a in mem && mem[a].stamp < t.stamp
    ensures Sorted(mem[id := t], InsertAt(list, DueCount(mem, list, t.ts), id))
  {
    var k := DueCount(mem, list, t.ts);
    var r := InsertAt(list, k, id);
    DueCountSplits(mem, list, t.ts);
    InsertAtFacts(list, k, id);
    forall i, j | 0 <= i < j < |r| ensures Before(mem[id := t], r[i], r[j]) {
      if i != k && j != k { assert Before(mem, list[if i < k then i else i - 1], list[if j < k then j else j - 1]); }
    }
  }

  lemma EnqueueKeeps(s: State, id: Addr, ts: nat, e: Event)
    requires Loose(s, id) && ts < U64
    ensures Placed(Enqueue(s, id, ts, e))
  {
    var s' := Enqueue(s, id, ts, e);
    forall a | a in s.list ensures a in s.mem && s.mem[a].stamp < s.stamp { assert PlaceOk(s, a); }
    InsertAtFacts(s.list, DueCount(s.mem, s.list, ts), id);
    SortedInsert(s.mem, s.list, id, s.mem[id].(ts := ts, place := Queued, stamp := s.stamp));
    SortedElsewhere(s.mem, s.due, s'.mem);
    forall a ensures PlaceOk(s', a) { if a != id { assert PlaceOk(s, a); } }
  }

  lemma ReleaseKeeps(s: State, id: Addr)
    requires Loose(s, id)
    ensures Placed(Release(s, id))
  {
    var s' := Release(s, id);
    SortedElsewhere(s.mem, s.list, s'.mem);
    SortedElsewhere(s.mem, s.due, s'.mem);
    forall a ensures PlaceOk(s', a) { if a != id { assert PlaceOk(s, a); } }
  }

  lemma UnlistLoose(s: State, id: Addr, log: seq<Event>)
    requires Placed(s) && id in s.list
    ensures Loose(s.(list := Without(s.list, id), log := log), id)
  {
    var s' := s.(list := Without(s.list, id), log := log);
    assert PlaceOk(s, id);
    SortedDistinct(s.mem, s.list);
    WithoutFacts(s.list, id);
    SortedWithout(s.mem, s.list, id);
    forall a | a != id ensures PlaceOk(s', a) { assert PlaceOk(s, a); }
  }

  /** An event about one timer leaves every other record in agreement. */
  lemma AgreesOther(log: seq<Event>, e: Event, id: Addr, t: Timer, t': Timer)
    requires Agrees(log, id, t) && id != e.id
    requires SameRecord(t, t')
    ensures Agrees(log + [e], id, t')
  {
    AppendFacts(log, e);
  }

  ghost predicate SameRecord(t: Timer, t': Timer) {
    t'.alive == t.alive && t'.interval == t.interval && NextDeadline(t') == NextDeadline(t)
  }

  lemma RecordOne(mem: map<Addr, Timer>, next: Addr, log: seq<Event>, e: Event, mem': map<Addr, Timer>, next': Addr)
    requires Recorded(mem, next, log) && GoodNext(log, e)
    requires 0 < e.id < next' && next <= next'
    requires forall id :: id in mem' && id != e.id ==> id in mem && SameRecord(mem[id], mem'[id])
    requires e.id in mem' ==> Agrees(log + [e], e.id, mem'[e.id])
    ensures Recorded(mem', next', log + [e])
  {
    assert GoodLog(log + [e]) by { AppendFacts(log, e); }
    forall id | id in mem' ensures Agrees(log + [e], id, mem'[id]) {
      if id != e.id { AgreesOther(log, e, id, mem[id], mem'[id]); }
    }
  }

  lemma AllocPlaced(s: State, ts: nat, interval: nat)
    requires Placed(s) && ts < U64
    ensures Placed(Alloc(s, ts, interval))
  {
    var s' := Alloc(s, ts, interval);
    assert PlaceOk(s, s.next);
    SortedElsewhere(s.mem, s.list, s'.mem);
    SortedElsewhere(s.mem, s.due, s'.mem);
    forall a ensures PlaceOk(s', a) { assert PlaceOk(s, a); }
  }

  lemma AllocRecorded(mem: map<Addr, Timer>, next: Addr, log: seq<Event>, ts: nat, interval: nat)
    requires Recorded(mem, next, log) && next > 0
    ensures Recorded(mem[next := Timer(ts, interval, true, Pending, 0)], next + 1, log + [Added(next, ts, interval)])
  {
    var e := Added(next, ts, interval);
    var t := Timer(ts, interval, true, Pending, 0);
    assert Agrees(log + [e], next, t);
    RecordOne(mem, next, log, e, mem[next := t], next + 1);
  }

  lemma PendingLoose(s: State, id: Addr)
    requires Placed(s) && id in s.mem && s.mem[id].place.Pending?
    ensures Loose(s, id)
  {
    assert PlaceOk(s, id);
  }

  /** The record of id after it was put into the queue at deadline ts. */
  lemma QueuedRecorded(mem: map<Addr, Timer>, next: Addr, log: seq<Event>, id: Addr, ts: nat, stamp: nat, e: Event)
    requires Recorded(mem, next, log) && id in mem && e.id == id && 0 < id < next
    requires e.Inserted? || e.Rearmed? || e == Refreshed(id, ts)
    requires !e.Refreshed? ==> ts == NextDeadline(mem[id])
    ensures Recorded(mem[id := mem[id].(ts := ts, place := Queued, stamp := stamp)], next, log + [e])
  {
    AppendFacts(log, e);
    assert Agrees(log, id, mem[id]);
    var t := mem[id].(ts := ts, place := Queued, stamp := stamp);
    assert Agrees(log + [e], id, t);
    RecordOne(mem, next, log, e, mem[id := t], next);
  }

  lemma FreedRecorded(mem: map<Addr, Timer>, next: Addr, log: seq<Event>, id: Addr)
    requires Recorded(mem, next, log) && id in mem && 0 < id < next
    ensures Recorded(mem - {id}, next, log + [Freed(id)])
  {
    assert Agrees(log, id, mem[id]);
    RecordOne(mem, next, log, Freed(id), mem - {id}, next);
  }

  lemma CancelledRecorded(mem: map<Addr, Timer>, next: Addr, log: seq<Event>, id: Addr)
    requires Recorded(mem, next, log) && id in mem && 0 < id < next
    ensures Recorded(mem[id := mem[id].(alive := false)], next, log + [Cancelled(id)])
  {
    var e := Cancelled(id);
    AppendFacts(log, e);
    assert Agrees(log, id, mem[id]);
    assert e in log + [e];
    RecordOne(mem, next, log, e, mem[id := mem[id].(alive := false)], next);
  }

  lemma StartedRecorded(mem: map<Addr, Timer>, next: Addr, log: seq<Event>, id: Addr, now: nat)
    requires Recorded(mem, next, log) && id in mem && 0 < id < next && mem[id].place.Due? && mem[id].alive
    requires mem[id].ts <= now
    ensures Recorded(mem[id := mem[id].(place := Running)], next, log + [Fired(id, mem[id].ts, now)])
  {
    var e := Fired(id, mem[id].ts, now);
    AppendFacts(log, e);
    assert Agrees(log, id, mem[id]);
    var t := mem[id].(place := Running);
    assert Agrees(log + [e], id, t);
    RecordOne(mem, next, log, e, mem[id := t], next);
  }

  lemma SkippedRecorded(mem: map<Addr, Timer>, next: Addr, log: seq<Event>, id: Addr)
    requires Recorded(mem, next, log) && id in mem && 0 < id < next && !mem[id].alive
    ensures Recorded(mem, next, log + [Skipped(id)])
  {
    var e := Skipped(id);
    AppendFacts(log, e);
    assert Agrees(log, id, mem[id]);
    assert Agrees(log + [e], id, mem[id]);
    RecordOne(mem, next, log, e, mem, next);
  }

  lemma CancelQueuedPlaced(s: State, id: Addr)
    requires Placed(s) && id in s.mem && s.mem[id].place.Queued?
    ensures Placed(DoCancel(s, id))
  {
    assert PlaceOk(s, id);
    var log := s.log + [Cancelled(id)];
    UnlistLoose(s, id, log);
    ReleaseKeeps(s.(list := Without(s.list, id), log := log), id);
  }

  lemma CancelUnqueuedPlaced(s: State, id: Addr)
    requires Placed(s) && id in s.mem && !s.mem[id].place.Queued?
    ensures Placed(DoCancel(s, id))
  {
    var s' := DoCancel(s, id);
    SortedElsewhere(s.mem, s.list, s'.mem);
    SortedElsewhere(s.mem, s.due, s'.mem);
    forall a ensures PlaceOk(s', a) { assert PlaceOk(s, a); }
  }

  lemma RefreshPlaced(s: State, id: Addr, ts: nat)
    requires Placed(s) && id in s.mem && s.mem[id].place.Queued? && ts < U64
    ensures Placed(DoRefresh(s, id, ts))
  {
    if s.mem[id].interval != 0 {
      assert PlaceOk(s, id);
      UnlistLoose(s, id, s.log);
      EnqueueKeeps(s.(list := Without(s.list, id)), id, ts, Refreshed(id, ts));
    }
  }

  lemma TakeDrop(s: seq<Addr>, k: nat)
    requires k <= |s|
    ensures s == s[..k] + s[k..]
  {
  }

  lemma BeginPlaced(s: State, now: nat)
    requires Placed(s) && Idle(s)
    ensures Placed(DoBegin(s, now))
  {
    var k := DueCount(s.mem, s.list, now);
    var s' := DoBegin(s, now);
    SortedDistinct(s.mem, s.list);
    SortedPart(s.mem, s.list, k);
    SortedElsewhere(s.mem, s'.list, s'.mem);
    SortedElsewhere(s.mem, s'.due, s'.mem);
    forall id ensures PlaceOk(s', id) { BeginPlaceOk(s, now, id); }
  }

  lemma BeginPlaceOk(s: State, now: nat, id: Addr)
    requires PlaceOk(s, id) && Idle(s) && Distinct(s.list)
    ensures PlaceOk(DoBegin(s, now), id)
  {
    TakeDrop(s.list, DueCount(s.mem, s.list, now));
  }

  lemma UndueLoose(s: State, log: seq<Event>)
    requires Placed(s) && s.due != []
    ensures Loose(s.(due := s.due[1..], log := log), s.due[0])
  {
    var s' := s.(due := s.due[1..], log := log);
    SortedDistinct(s.mem, s.due);
    SortedPart(s.mem, s.due, 1);
    assert s.due == [s.due[0]] + s'.due;
    assert PlaceOk(s, s.due[0]);
    forall a | a != s.due[0] ensures PlaceOk(s', a) { assert PlaceOk(s, a); }
  }

  lemma StartKeeps(s: State, id: Addr)
    requires Loose(s, id) && s.running.None? && s.mem[id].ts < U64
    ensures Placed(Start(s, id))
  {
    var s' := Start(s, id);
    SortedElsewhere(s.mem, s.list, s'.mem);
    SortedElsewhere(s.mem, s.due, s'.mem);
    forall a ensures PlaceOk(s', a) { if a != id { assert PlaceOk(s, a); } }
  }

  lemma TurnPlaced(s: State)
    requires Placed(s) && s.due != [] && s.running.None? && s.due[0] in s.mem
    ensures Placed(DoTurn(s))
  {
    var id := s.due[0];
    var s1 := s.(due := s.due[1..]);
    assert PlaceOk(s, id);
    if s.mem[id].alive {
      UndueLoose(s, s.log);
      StartKeeps(s1, id);
    } else {
      UndueLoose(s, s.log + [Skipped(id)]);
      ReleaseKeeps(Emit(s1, Skipped(id)), id);
    }
  }

  lemma RunningLoose(s: State)
    requires Placed(s) && s.running.Some?
    ensures Loose(s.(running := None), s.running.value)
  {
    var s' := s.(running := None);
    assert PlaceOk(s, s.running.value);
    forall a | a != s.running.value ensures PlaceOk(s', a) { assert PlaceOk(s, a); }
  }

  lemma RearmPlaced(s: State, id: Addr, ts: nat)
    requires Placed(s) && s.running == Some(id) && id in s.mem && ts < U64
    ensures Placed(Enqueue(s.(running := None), id, ts, Rearmed(id)))
  {
    RunningLoose(s);
    EnqueueKeeps(s.(running := None), id, ts, Rearmed(id));
  }

  lemma ReturnPlaced(s: State)
    requires Placed(s) && s.running.Some? && s.running.value in s.mem
    ensures Placed(DoReturn(s))
  {
    var id := s.running.value;
    var ts := Wrap(s.mem[id].ts + s.mem[id].interval);
    if s.mem[id].alive && s.mem[id].interval != 0 {
      RearmPlaced(s, id, ts);
      assert DoReturn(s) == Enqueue(s.(running := None), id, ts, Rearmed(id));
    } else {
      RunningLoose(s);
      ReleaseKeeps(s.(running := None), id);
      assert DoReturn(s) == Release(s.(running := None), id);
    }
  }

  lemma AddPlaced(s: State, ts: nat, interval: nat)
    requires Placed(s) && ts < U64
    ensures Placed(Enqueue(Alloc(s, ts, interval), s.next, ts, Inserted(s.next)))
  {
    var s1 := Alloc(s, ts, interval);
    AllocPlaced(s, ts, interval);
    PendingLoose(s1, s.next);
    EnqueueKeeps(s1, s.next, ts, Inserted(s.next));
  }

  lemma InsertTaskPlaced(s: State, id: Addr)
    requires Placed(s) && id in s.mem && s.mem[id].place.Pending?
    ensures Placed(DoInsert(s, id))
  {
    assert PlaceOk(s, id);
    PendingLoose(s, id);
    if s.mem[id].alive { EnqueueKeeps(s, id, s.mem[id].ts, Inserted(id)); } else { ReleaseKeeps(s, id); }
  }

  lemma StepPlaced(s: State, e: Step)
    requires Placed(s) && Enabled(s, e)
    ensures Placed(Apply(s, e))
  {
    match e
    case Add(ts, interval) => AddPlaced(s, ts, interval);
    case AddDeferred(ts, interval) => AllocPlaced(s, ts, interval);
    case InsertTask(id) => InsertTaskPlaced(s, id);
    case Cancel(id) =>
      if s.mem[id].place.Queued? { CancelQueuedPlaced(s, id); } else { CancelUnqueuedPlaced(s, id); }
    case Refresh(id, ts) => RefreshPlaced(s, id, ts);
    case Begin(now) => BeginPlaced(s, now);
    case Turn => TurnPlaced(s);
    case Return => ReturnPlaced(s);
  }

  lemma TurnRecorded(s: State)
    requires Inv(s) && Enabled(s, Turn)
    ensures var s' := DoTurn(s); Recorded(s'.mem, s'.next, s'.log)
  {
    var id := s.due[0];
    assert PlaceOk(s, id);
    if s.mem[id].alive {
      StartedRecorded(s.mem, s.next, s.log, id, s.passNow);
    } else {
      SkippedRecorded(s.mem, s.next, s.log, id);
      FreedRecorded(s.mem, s.next, s.log + [Skipped(id)], id);
    }
  }

  predicate Rearms(s: State)
    requires Enabled(s, Return)
  {
    s.mem[s.running.value].alive && s.mem[s.running.value].interval != 0
  }

  /** A live periodic timer is put back. */
  lemma RearmedRecorded(s: State, id: Addr, ts: nat)
    requires Inv(s) && s.running == Some(id) && id in s.mem && ts == Wrap(s.mem[id].ts + s.mem[id].interval)
    ensures var s' := Enqueue(s.(running := None), id, ts, Rearmed(id)); Recorded(s'.mem, s'.next, s'.log)
  {
    assert PlaceOk(s, id);
    QueuedRecorded(s.mem, s.next, s.log, id, ts, s.stamp, Rearmed(id));
  }

  lemma RearmRecorded(s: State)
    requires Inv(s) && Enabled(s, Return) && Rearms(s)
    ensures var s' := DoReturn(s); Recorded(s'.mem, s'.next, s'.log)
  {
    var id := s.running.value;
    var ts := Wrap(s.mem[id].ts + s.mem[id].interval);
    RearmIs(s, id, ts);
    RearmedRecorded(s, id, ts);
  }

  lemma RearmIs(s: State, id: Addr, ts: nat)
    requires Enabled(s, Return) && Rearms(s) && id == s.running.value && ts == Wrap(s.mem[id].ts + s.mem[id].interval)
    ensures DoReturn(s) == Enqueue(s.(running := None), id, ts, Rearmed(id))
  {
  }

  /** Any other timer is freed. */
  lemma DropRecorded(s: State)
    requires Inv(s) && Enabled(s, Return) && !Rearms(s)
    ensures var s' := DoReturn(s); Recorded(s'.mem, s'.next, s'.log)
  {
    var id := s.running.value;
    assert PlaceOk(s, id);
    FreedRecorded(s.mem, s.next, s.log, id);
    var s' := DoReturn(s);
    assert s'.mem == s.mem - {id} && s'.next == s.next && s'.log == s.log + [Freed(id)];
  }

  lemma ReturnRecorded(s: State)
    requires Inv(s) && Enabled(s, Return)
    ensures var s' := DoReturn(s); Recorded(s'.mem, s'.next, s'.log)
  {
    if Rearms(s) {
      RearmRecorded(s);
    } else {
      DropRecorded(s);
    }
  }

  lemma CancelRecorded(s: State, id: Addr)
    requires Inv(s) && id in s.mem
    ensures var s' := DoCancel(s, id); Recorded(s'.mem, s'.next, s'.log)
  {
    assert PlaceOk(s, id);
    var mem := s.mem[id := s.mem[id].(alive := false)];
    CancelledRecorded(s.mem, s.next, s.log, id);
    if s.mem[id].place.Queued? {
      FreedRecorded(mem, s.next, s.log + [Cancelled(id)], id);
      assert mem - {id} == s.mem - {id};
    }
  }

  lemma AddRecorded(s: State, ts: nat, interval: nat)
    requires Recorded(s.mem, s.next, s.log) && s.next > 0
    ensures var s' := Enqueue(Alloc(s, ts, interval), s.next, ts, Inserted(s.next)); Recorded(s'.mem, s'.next, s'.log)
  {
    AllocRecorded(s.mem, s.next, s.log, ts, interval);
    var s1 := Alloc(s, ts, interval);
    QueuedRecorded(s1.mem, s1.next, s1.log, s.next, ts, s.stamp, Inserted(s.next));
  }

  lemma InsertTaskRecorded(s: State, id: Addr)
    requires Inv(s) && Enabled(s, InsertTask(id))
    ensures var s' := DoInsert(s, id); Recorded(s'.mem, s'.next, s'.log)
  {
    assert PlaceOk(s, id);
    if s.mem[id].alive {
      QueuedRecorded(s.mem, s.next, s.log, id, s.mem[id].ts, s.stamp, Inserted(id));
    } else {
      FreedRecorded(s.mem, s.next, s.log, id);
    }
  }

  lemma RefreshRecorded(s: State, id: Addr, ts: nat)
    requires Inv(s) && id in s.mem
    ensures var s' := DoRefresh(s, id, ts); Recorded(s'.mem, s'.next, s'.log)
  {
    assert PlaceOk(s, id);
    if s.mem[id].interval != 0 {
      QueuedRecorded(s.mem, s.next, s.log, id, ts, s.stamp, Refreshed(id, ts));
    }
  }

  lemma BeginRecorded(s: State, now: nat)
    requires Inv(s) && Idle(s)
    ensures var s' := DoBegin(s, now); Recorded(s'.mem, s'.next, s'.log)
  {
    var s' := DoBegin(s, now);
    forall id | id in s'.mem ensures Agrees(s'.log, id, s'.mem[id]) {
      assert Agrees(s.log, id, s.mem[id]);
      assert PlaceOk(s, id);
    }
  }

  lemma StepRecorded(s: State, e: Step)
    requires Inv(s) && Enabled(s, e)
    ensures var s' := Apply(s, e); Recorded(s'.mem, s'.next, s'.log)
  {
    match e
    case Add(ts, interval) => AddRecorded(s, ts, interval);
    case AddDeferred(ts, interval) => AllocRecorded(s.mem, s.next, s.log, ts, interval);
    case InsertTask(id) => InsertTaskRecorded(s, id);
    case Cancel(id) => CancelRecorded(s, id);
    case Refresh(id, ts) => RefreshRecorded(s, id, ts);
    case Begin(now) => BeginRecorded(s, now);
    case Turn => TurnRecorded(s);
    case Return => ReturnRecorded(s);
  }

  /** Every step of the queue, from any state the invariant allows, keeps the invariant. */
  lemma StepKeepsInv(s: State, e: Step)
    requires Inv(s) && Enabled(s, e)
    ensures Inv(Apply(s, e))
  {
    StepPlaced(s, e);
    StepRecorded(s, e);
  }

  lemma {:induction false} RunKeepsInv(s: State, steps: seq<Step>)
    requires Inv(s) && Legal(s, steps)
    ensures Inv(Run(s, steps))
    decreases |steps|
  {
    if steps != [] {
      StepKeepsInv(s, steps[0]);
      RunKeepsInv(Apply(s, steps[0]), steps[1..]);
    }
  }
}
