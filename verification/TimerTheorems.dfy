/** What every run of the timer queue guarantees. */
module TimerTheorems {
  import opened Memory
  import opened TimerModel

  /** Some run leads from the empty queue to s. */
  ghost predicate Reachable(s: State) {
    exists steps :: Legal(INIT, steps) && Run(INIT, steps) == s
  }

  /** Every state a run can reach satisfies the invariant. */
  lemma ReachableInv(s: State)
    requires Reachable(s)
    ensures Inv(s)
  {
    var steps :| Legal(INIT, steps) && Run(INIT, steps) == s;
    assert forall id :: PlaceOk(INIT, id);
    RunKeepsInv(INIT, steps);
  }

  // ---------------------------------------------------------------- ownership

  /** In how many places timer id is: awaiting its insertion task, in the queue, in the chain of
      due timers, in its own callback, freed. */
  function Places(s: State, id: Addr): nat {
    (if id in s.mem && s.mem[id].place.Pending? then 1 else 0)
    + (if id in s.list then 1 else 0)
    + (if id in s.due then 1 else 0)
    + (if s.running == Some(id) then 1 else 0)
    + (if id in s.freed then 1 else 0)
  }

  /** Every timer handed out by malloc is in exactly one place, every other address in none;
      it occurs once in its list, and it is allocated exactly when it was not freed. */
  lemma ExactlyOnePlace(s: State, id: Addr)
    requires Reachable(s)
    ensures Places(s, id) == (if 0 < id < s.next then 1 else 0)
    ensures id in s.mem <==> 0 < id < s.next && id !in s.freed
    ensures Distinct(s.list) && Distinct(s.due)
  {
    ReachableInv(s);
    assert PlaceOk(s, id);
    SortedDistinct(s.mem, s.list);
    SortedDistinct(s.mem, s.due);
  }

  // ---------------------------------------------------------------- histories

  lemma {:induction false} GoodLogAt(log: seq<Event>, j: nat)
    requires GoodLog(log) && j < |log|
    ensures GoodLog(log[..j]) && GoodNext(log[..j], log[j])
    decreases |log|
  {
    var n := |log| - 1;
    if j < n {
      GoodLogAt(log[..n], j);
      assert log[..n][..j] == log[..j];
    }
  }

  /** In every history: after a timer is freed no event touches it again (so it is freed at most
      once), once cancelled its callback never starts, and an address is handed out once. */
  lemma HistorySafety(s: State, i: nat, j: nat)
    requires Reachable(s)
    requires i < j < |s.log| && s.log[i].id == s.log[j].id
    ensures !s.log[i].Freed?
    ensures s.log[i].Cancelled? ==> !s.log[j].Fired?
    ensures !s.log[j].Added?
  {
    ReachableInv(s);
    GoodLogAt(s.log, j);
    assert s.log[i] in s.log[..j];
  }

  /** A due timer loses its turn only because it was cancelled before. */
  lemma SkippedWasCancelled(s: State, j: nat)
    requires Reachable(s)
    requires j < |s.log| && s.log[j].Skipped?
    ensures exists i :: 0 <= i < j && s.log[i] == Cancelled(s.log[j].id)
  {
    ReachableInv(s);
    GoodLogAt(s.log, j);
    var i :| 0 <= i < j && s.log[..j][i] == Cancelled(s.log[j].id);
    assert s.log[i] == Cancelled(s.log[j].id);
  }

  // ---------------------------------------------------------------- no drift

  /** How often timer id has fired. */
  function FireCount(log: seq<Event>, id: Addr): nat {
    if log == [] then 0
    else FireCount(log[..|log| - 1], id) + (if log[|log| - 1].Fired? && log[|log| - 1].id == id then 1 else 0)
  }

  lemma {:induction false} WrapIsMod(n: nat)
    ensures Wrap(n) == n % 0x1_0000_0000_0000_0000
  {
    if n >= U64 { WrapIsMod(n - U64); }
  }

  lemma {:induction false} WrapAdd(x: nat, y: nat)
    ensures Wrap(Wrap(x) + y) == Wrap(x + y)
  {
    if x >= U64 { WrapAdd(x - U64, y); }
  }

  lemma {:induction false} Untouched(log: seq<Event>, id: Addr)
    requires forall e :: e in log ==> e.id != id
    ensures FireCount(log, id) == 0
  {
    if log != [] {
      var before := log[..|log| - 1];
      forall e | e in before ensures e.id != id { assert e in log; }
      Untouched(before, id);
      assert log[|log| - 1] in log;
    }
  }

  /** One more event moves the deadline and the firing count of timer id together. */
  lemma DeadlineStep(log: seq<Event>, e: Event, id: Addr)
    requires e.id == id ==> !e.Refreshed? && !e.Added?
    ensures Interval(log + [e], id) == Interval(log, id)
    ensures if e.id == id && e.Fired?
      then FireCount(log + [e], id) == FireCount(log, id) + 1
        && Deadline(log + [e], id) == Wrap(Deadline(log, id) + Interval(log, id))
      else FireCount(log + [e], id) == FireCount(log, id) && Deadline(log + [e], id) == Deadline(log, id)
  {
    assert (log + [e])[..|log|] == log;
  }

  /** The k-th deadline of a timer added for time t0. */
  function Nth(t0: nat, interval: nat, k: nat): nat {
    if k == 0 then t0 else Nth(t0, interval, k - 1) + interval
  }

  lemma {:induction false} NthIsMultiple(t0: nat, interval: nat, k: nat)
    ensures Nth(t0, interval, k) == t0 + k * interval
  {
    if k > 0 { NthIsMultiple(t0, interval, k - 1); }
  }

  lemma {:induction false} DeadlineFormula(log: seq<Event>, a: nat, id: Addr, t0: nat, interval: nat)
    requires GoodLog(log) && a < |log| && log[a] == Added(id, t0, interval) && t0 < U64
    requires forall e :: e in log && e.id == id ==> !e.Refreshed?
    ensures Interval(log, id) == interval
    ensures Deadline(log, id) == Wrap(Nth(t0, interval, FireCount(log, id)))
    decreases |log|
  {
    var n := |log| - 1;
    var before, e := log[..n], log[n];
    GoodLogAt(log, n);
    if a == n {
      Untouched(before, id);
      assert FireCount(log, id) == 0;
    } else {
      assert before[a] == log[a] && before[a] in before;
      DeadlineFormula(before, a, id, t0, interval);
      assert log == before + [e];
      DeadlineMoves(before, e, id, t0, interval);
    }
  }

  lemma DeadlineMoves(log: seq<Event>, e: Event, id: Addr, t0: nat, interval: nat)
    requires e.id == id ==> !e.Refreshed? && !e.Added?
    requires Interval(log, id) == interval && Deadline(log, id) == Wrap(Nth(t0, interval, FireCount(log, id)))
    ensures Interval(log + [e], id) == interval
    ensures Deadline(log + [e], id) == Wrap(Nth(t0, interval, FireCount(log + [e], id)))
  {
    DeadlineStep(log, e, id);
    WrapAdd(Nth(t0, interval, FireCount(log, id)), interval);
  }

  /** No drift: if it was never refreshed, the k-th firing (from k = 0) of a timer added for time
      t0 has deadline t0 + k * interval, in 64-bit arithmetic (WrapIsMod), however late the passes
      run; and no firing comes before its deadline. */
  lemma NoDrift(s: State, a: nat, i: nat)
    requires Reachable(s)
    requires a < i < |s.log| && s.log[a].Added? && s.log[i].Fired? && s.log[a].id == s.log[i].id
    requires s.log[a].ts < U64
    requires forall e :: e in s.log[..i] && e.id == s.log[i].id ==> !e.Refreshed?
    ensures s.log[i].deadline == Wrap(s.log[a].ts + FireCount(s.log[..i], s.log[i].id) * s.log[a].interval)
    ensures s.log[i].deadline <= s.log[i].now
  {
    ReachableInv(s);
    DriftInLog(s.log, a, i);
  }

  lemma DriftInLog(log: seq<Event>, a: nat, i: nat)
    requires GoodLog(log) && a < i < |log| && log[a].Added? && log[i].Fired? && log[a].id == log[i].id
    requires log[a].ts < U64
    requires forall e :: e in log[..i] && e.id == log[i].id ==> !e.Refreshed?
    ensures log[i].deadline == Wrap(log[a].ts + FireCount(log[..i], log[i].id) * log[a].interval)
    ensures log[i].deadline <= log[i].now
  {
    GoodLogAt(log, i);
    assert log[..i][a] == log[a];
    DeadlineFormula(log[..i], a, log[i].id, log[a].ts, log[a].interval);
    NthIsMultiple(log[a].ts, log[a].interval, FireCount(log[..i], log[i].id));
  }

  // ---------------------------------------------------------------- one pass

  /** The timers that got their turn, in order. */
  function Turns(log: seq<Event>): seq<Addr> {
    if log == [] then []
    else
      var e := log[|log| - 1];
      Turns(log[..|log| - 1]) + (if e.Fired? || e.Skipped? then [e.id] else [])
  }

  lemma TurnsAppend(log: seq<Event>, e: Event)
    ensures Turns(log + [e]) == Turns(log) + (if e.Fired? || e.Skipped? then [e.id] else [])
  {
    assert (log + [e])[..|log|] == log;
  }

  function Emitted(s: State, e: Step): seq<Event>
    requires Enabled(s, e)
  {
    match e
    case Add(ts, interval) => [Added(s.next, ts, interval), Inserted(s.next)]
    case AddDeferred(ts, interval) => [Added(s.next, ts, interval)]
    case InsertTask(id) => if s.mem[id].alive then [Inserted(id)] else [Freed(id)]
    case Cancel(id) => if s.mem[id].place.Queued? then [Cancelled(id), Freed(id)] else [Cancelled(id)]
    case Refresh(id, ts) => if s.mem[id].interval == 0 then [] else [Refreshed(id, ts)]
    case Begin(now) => []
    case Turn =>
      var id := s.due[0];
      if s.mem[id].alive then [Fired(id, s.mem[id].ts, s.passNow)] else [Skipped(id), Freed(id)]
    case Return =>
      var id := s.running.value;
      if s.mem[id].alive && s.mem[id].interval != 0 then [Rearmed(id)] else [Freed(id)]
  }

  lemma StepLog(s: State, e: Step)
    requires Enabled(s, e)
    ensures Apply(s, e).log == s.log + Emitted(s, e)
  {
    match e
    case Add(ts, interval) =>
    case Cancel(id) =>
    case Turn =>
    case _ =>
  }

  lemma StepPass(s: State, e: Step)
    requires Inv(s) && Enabled(s, e) && !e.Begin?
    ensures var s' := Apply(s, e);
      && s'.passNow == s.passNow
      && s'.due == (if e.Turn? then s.due[1..] else s.due)
      && forall id :: id in s'.due ==> id in s'.mem && id in s.mem && s'.mem[id].ts == s.mem[id].ts
  {
    forall id | id in s.due ensures id in s.mem && s.mem[id].place.Due? && id != s.next { assert PlaceOk(s, id); }
    if e.InsertTask? || e.Cancel? || e.Refresh? { assert PlaceOk(s, e.id); }
    if e.Turn? { SortedDistinct(s.mem, s.due); }
    if e.Return? { assert PlaceOk(s, s.running.value); }
  }

  /** A firing carries the timer's deadline and the time of the pass. */
  ghost predicate FiresRight(s0: State, now: nat, due: seq<Addr>, e: Event) {
    e.Fired? ==> e.id in due && e.id in s0.mem && e.deadline == s0.mem[e.id].ts && e.now == now
  }

  /** The part of the pass that began in state s0 at time `now` and has reached state s. */
  ghost predicate InPass(s0: State, now: nat, s: State) {
    var due := s0.list[..DueCount(s0.mem, s0.list, now)];
    && s.passNow == now
    && s0.log <= s.log
    && Turns(s.log[|s0.log|..]) + s.due == due
    && (forall id :: id in due ==> id in s0.mem)
    && (forall id :: id in s.due ==> id in s.mem && s.mem[id].ts == s0.mem[id].ts)
    && (forall e :: e in s.log[|s0.log|..] ==> FiresRight(s0, now, due, e))
  }

  lemma TurnsTwo(part: seq<Event>, x: Event, y: Event)
    requires !y.Fired? && !y.Skipped?
    ensures Turns(part + [x, y]) == Turns(part) + (if x.Fired? || x.Skipped? then [x.id] else [])
  {
    assert part + [x, y] == part + [x] + [y];
    TurnsAppend(part, x);
    TurnsAppend(part + [x], y);
  }

  /** The turn of at most two events is in the first. */
  lemma TurnsOf(part: seq<Event>, out: seq<Event>)
    requires |out| <= 2 && (|out| == 2 ==> !out[1].Fired? && !out[1].Skipped?)
    ensures Turns(part + out) ==
            Turns(part) + if |out| > 0 && (out[0].Fired? || out[0].Skipped?) then [out[0].id] else []
  {
    if |out| == 0 {
      assert part + out == part;
    } else if |out| == 1 {
      assert out == [out[0]];
      TurnsAppend(part, out[0]);
    } else {
      assert out == [out[0], out[1]];
      TurnsTwo(part, out[0], out[1]);
    }
  }

  lemma EmittedShape(s: State, e: Step)
    requires Enabled(s, e)
    ensures var out := Emitted(s, e);
      && |out| <= 2 && (|out| == 2 ==> !out[1].Fired? && !out[1].Skipped?)
      && (|out| > 0 && (out[0].Fired? || out[0].Skipped?) <==> e.Turn?)
      && (e.Turn? ==> out[0].id == s.due[0])
  {
  }

  lemma EmittedFired(s: State, e: Step)
    requires Enabled(s, e)
    ensures forall x :: x in Emitted(s, e) && x.Fired? ==>
      e.Turn? && x == Fired(s.due[0], s.mem[s.due[0]].ts, s.passNow)
  {
  }

  lemma TurnsEmitted(part: seq<Event>, s: State, e: Step)
    requires Enabled(s, e)
    ensures Turns(part + Emitted(s, e)) == Turns(part) + (if e.Turn? then [s.due[0]] else [])
    ensures forall x :: x in Emitted(s, e) && x.Fired? ==>
      e.Turn? && x == Fired(s.due[0], s.mem[s.due[0]].ts, s.passNow)
  {
    EmittedShape(s, e);
    EmittedFired(s, e);
    TurnsOf(part, Emitted(s, e));
  }

  lemma PassTurns(s: State, e: Step, part: seq<Event>, due: seq<Addr>)
    requires Enabled(s, e) && due == (if e.Turn? then s.due[1..] else s.due)
    ensures Turns(part + Emitted(s, e)) + due == Turns(part) + s.due
  {
    TurnsEmitted(part, s, e);
    if e.Turn? { assert s.due == [s.due[0]] + s.due[1..]; }
  }

  lemma PassFires(s0: State, now: nat, s: State, e: Step)
    requires InPass(s0, now, s) && Enabled(s, e)
    ensures forall x :: x in Emitted(s, e) ==> FiresRight(s0, now, s0.list[..DueCount(s0.mem, s0.list, now)], x)
  {
    var part := s.log[|s0.log|..];
    TurnsEmitted(part, s, e);
    if e.Turn? { assert s.due[0] in Turns(part) + s.due; }
  }

  lemma PassStep(s0: State, now: nat, s: State, e: Step)
    requires InPass(s0, now, s) && Inv(s) && Enabled(s, e) && !e.Begin?
    ensures InPass(s0, now, Apply(s, e))
  {
    var part := s.log[|s0.log|..];
    StepPass(s, e);
    StepLog(s, e);
    PassTurns(s, e, part, Apply(s, e).due);
    PassFires(s0, now, s, e);
    PassEmit(s0, now, s, Emitted(s, e), Apply(s, e));
  }

  lemma PassEmit(s0: State, now: nat, s: State, out: seq<Event>, s': State)
    requires InPass(s0, now, s) && s'.passNow == now && s'.log == s.log + out
    requires Turns(s.log[|s0.log|..] + out) + s'.due == Turns(s.log[|s0.log|..]) + s.due
    requires forall x :: x in out ==> FiresRight(s0, now, s0.list[..DueCount(s0.mem, s0.list, now)], x)
    requires forall id :: id in s'.due ==> id in s'.mem && id in s.due && s'.mem[id].ts == s.mem[id].ts
    ensures InPass(s0, now, s')
  {
    SuffixAppend(s.log, out, |s0.log|);
    FiresAppend(s0, now, s0.list[..DueCount(s0.mem, s0.list, now)], s.log[|s0.log|..], out);
  }

  lemma SuffixAppend(log: seq<Event>, out: seq<Event>, n: nat)
    requires n <= |log|
    ensures (log + out)[n..] == log[n..] + out && (log + out)[..n] == log[..n]
  {
  }

  lemma FiresAppend(s0: State, now: nat, due: seq<Addr>, part: seq<Event>, out: seq<Event>)
    requires forall x :: x in part ==> FiresRight(s0, now, due, x)
    requires forall x :: x in out ==> FiresRight(s0, now, due, x)
    ensures forall x :: x in part + out ==> FiresRight(s0, now, due, x)
  {
  }

  lemma {:induction false} PassRun(s0: State, now: nat, s: State, steps: seq<Step>)
    requires InPass(s0, now, s) && Inv(s) && Legal(s, steps)
    requires forall e :: e in steps ==> !e.Begin?
    ensures InPass(s0, now, Run(s, steps))
    decreases |steps|
  {
    if steps != [] {
      assert steps[0] in steps;
      PassStep(s0, now, s, steps[0]);
      StepKeepsInv(s, steps[0]);
      PassRun(s0, now, Apply(s, steps[0]), steps[1..]);
    }
  }

  lemma ListAllocated(s: State)
    requires Placed(s)
    ensures forall id :: id in s.list ==> id in s.mem
  {
    forall id | id in s.list ensures id in s.mem { assert PlaceOk(s, id); }
  }

  lemma PassBegins(s0: State, now: nat)
    requires Inv(s0) && Idle(s0)
    ensures InPass(s0, now, Apply(s0, Begin(now)))
  {
    var s := Apply(s0, Begin(now));
    var due := s0.list[..DueCount(s0.mem, s0.list, now)];
    assert s.log[|s0.log|..] == [];
    ListAllocated(s0);
  }

  /** Steps, none of which begins a pass, that lead from s to s'. */
  ghost predicate Path(s: State, steps: seq<Step>, s': State) {
    Legal(s, steps) && (forall e: Step :: e in steps ==> !e.Begin?) && Run(s, steps) == s'
  }

  ghost predicate Leads(s: State, s': State) {
    exists steps :: Path(s, steps, s')
  }

  lemma {:induction false} PathAppend(s: State, a: seq<Step>, s': State, b: seq<Step>, s'': State)
    requires Path(s, a, s') && Path(s', b, s'')
    ensures Path(s, a + b, s'')
    decreases |a|
  {
    var c := a + b;
    if a == [] {
      assert c == b;
    } else {
      assert c[0] == a[0] && c[1..] == a[1..] + b;
      assert Path(Apply(s, a[0]), a[1..], s');
      PathAppend(Apply(s, a[0]), a[1..], s', b, s'');
    }
  }

  lemma {:induction false} RunAppend(s: State, a: seq<Step>, b: seq<Step>)
    requires Legal(s, a) && Legal(Run(s, a), b)
    ensures Legal(s, a + b) && Run(s, a + b) == Run(Run(s, a), b)
    decreases |a|
  {
    if a == [] {
      assert a + b == b;
    } else {
      assert (a + b)[0] == a[0] && (a + b)[1..] == a[1..] + b;
      RunAppend(Apply(s, a[0]), a[1..], b);
    }
  }

  /** A step from a reachable state reaches one ... */
  lemma StepReaches(s: State, e: Step)
    requires Reachable(s) && Enabled(s, e)
    ensures Reachable(Apply(s, e))
  {
    var a :| Legal(INIT, a) && Run(INIT, a) == s;
    var s' := Apply(s, e);
    assert [e][1..] == [];
    assert Legal(s', []) && Run(s', []) == s';
    assert Legal(s, [e]) && Run(s, [e]) == s';
    RunAppend(INIT, a, [e]);
  }

  /** ... and so does a whole pass: the theorems hold of the state it leaves. */
  lemma PassReaches(s0: State, now: nat, s: State)
    requires Reachable(s0) && Pass(s0, now, s)
    ensures Reachable(s)
  {
    var s1 := Apply(s0, Begin(now));
    StepReaches(s0, Begin(now));
    var a :| Legal(INIT, a) && Run(INIT, a) == s1;
    var b :| Path(s1, b, s);
    RunAppend(INIT, a, b);
  }

  lemma LeadsStep(s: State, e: Step)
    requires Enabled(s, e) && !e.Begin?
    ensures Leads(s, Apply(s, e))
  {
    var s' := Apply(s, e);
    assert [e][1..] == [];
    assert Legal(s', []) && Run(s', []) == s';
    assert Legal(s, [e]) && Run(s, [e]) == s';
    assert Path(s, [e], s');
  }

  lemma LeadsTrans(s: State, s': State, s'': State)
    requires Leads(s, s') && Leads(s', s'')
    ensures Leads(s, s'')
  {
    var a :| Path(s, a, s');
    var b :| Path(s', b, s'');
    PathAppend(s, a, s', b, s'');
  }

  lemma LeadsSame(s: State)
    ensures Leads(s, s)
  {
    assert Path(s, [], s);
  }

  /** A pass that began in s0 at time `now`, with everything callbacks and other threads did
      meanwhile, has led to s. */
  ghost predicate Pass(s0: State, now: nat, s: State) {
    Idle(s0) && Leads(Apply(s0, Begin(now)), s)
  }

  lemma PassInvariant(s0: State, now: nat, s: State)
    requires Inv(s0) && Pass(s0, now, s)
    ensures InPass(s0, now, s)
  {
    var s1 := Apply(s0, Begin(now));
    var steps :| Path(s1, steps, s);
    StepKeepsInv(s0, Begin(now));
    PassBegins(s0, now);
    PassRun(s0, now, s1, steps);
  }

  /** One pass, whatever its callbacks and other threads do meanwhile, gives a turn to exactly the
      timers due when it began, once each, in timestamp order with ties in insertion order; the
      turn runs the callback, for the deadline the timer had, unless it was cancelled first
      (HistorySafety, SkippedWasCancelled). */
  lemma PassTheorem(s0: State, now: nat, s: State)
    requires Inv(s0) && Pass(s0, now, s) && s.due == []
    ensures s0.log <= s.log
    ensures var k := DueCount(s0.mem, s0.list, now);
      && Turns(s.log[|s0.log|..]) == s0.list[..k]
      && Sorted(s0.mem, s0.list[..k])
      && (forall i :: 0 <= i < |s0.list| ==> s0.list[i] in s0.mem && (s0.mem[s0.list[i]].ts <= now <==> i < k))
      && (forall e :: e in s.log[|s0.log|..] ==> FiresRight(s0, now, s0.list[..k], e))
  {
    PassInvariant(s0, now, s);
    ListAllocated(s0);
    DueCountSplits(s0.mem, s0.list, now);
    SortedPart(s0.mem, s0.list, DueCount(s0.mem, s0.list, now));
  }

  // ---------------------------------------------------------------- callbacks

  /** What a callback that asks for `ops` does: each client step that is legal when its turn comes. */
  function RunClient(s: State, ops: seq<Step>): State
    decreases |ops|
  {
    if ops == [] then s
    else RunClient(TryClient(s, ops[0]), ops[1..])
  }

  function TryClient(s: State, e: Step): State {
    if Client(e) && Enabled(s, e) then Apply(s, e) else s
  }

  /** A callback never touches the chain of due timers or the running timer's place. */
  lemma TryClientKeeps(s: State, e: Step)
    requires Inv(s)
    ensures var s' := TryClient(s, e);
      Inv(s') && Leads(s, s') && s'.due == s.due && s'.running == s.running
  {
    if Client(e) && Enabled(s, e) {
      StepKeepsInv(s, e);
      StepPass(s, e);
      LeadsStep(s, e);
    } else {
      LeadsSame(s);
    }
  }

  lemma {:induction false} RunClientKeeps(s: State, ops: seq<Step>)
    requires Inv(s)
    ensures var s' := RunClient(s, ops);
      Inv(s') && Leads(s, s') && s'.due == s.due && s'.running == s.running
    decreases |ops|
  {
    if ops == [] {
      LeadsSame(s);
    } else {
      var s1 := TryClient(s, ops[0]);
      TryClientKeeps(s, ops[0]);
      RunClientKeeps(s1, ops[1..]);
      LeadsTrans(s, s1, RunClient(s1, ops[1..]));
    }
  }

  /** A whole turn: the callback asking for `ops`, if it runs, between DoTurn and DoReturn. */
  function TurnResult(s: State, ops: seq<Step>): State {
    if s.due == [] || s.due[0] !in s.mem then s
    else if s.mem[s.due[0]].alive then Finish(RunClient(DoTurn(s), ops))
    else DoTurn(s)
  }

  function Finish(s: State): State {
    if s.running.Some? && s.running.value in s.mem then DoReturn(s) else s
  }

  lemma TurnResultKeeps(s: State, ops: seq<Step>)
    requires Inv(s) && s.due != [] && s.due[0] in s.mem && s.running.None?
    ensures var s' := TurnResult(s, ops);
      Inv(s') && Leads(s, s') && s'.due == s.due[1..] && s'.running.None?
  {
    StepKeepsInv(s, Turn);
    LeadsStep(s, Turn);
    assert Apply(s, Turn) == DoTurn(s);
    if s.mem[s.due[0]].alive {
      var s1 := DoTurn(s);
      var s2 := RunClient(s1, ops);
      RunClientKeeps(s1, ops);
      assert PlaceOk(s2, s.due[0]);
      FinishKeeps(s2);
      LeadsTrans(s, s1, s2);
      LeadsTrans(s, s2, Finish(s2));
    }
  }

  lemma FinishKeeps(s: State)
    requires Inv(s) && s.running.Some? && s.running.value in s.mem
    ensures Inv(Finish(s)) && Leads(s, Finish(s)) && Finish(s).due == s.due && Finish(s).running.None?
  {
    StepKeepsInv(s, Return);
    StepPass(s, Return);
    LeadsStep(s, Return);
    assert Apply(s, Return) == Finish(s);
  }
}
