/** Channels and the dispatch of one epoll batch as a state machine.  A callback is whatever client
    steps happen between a Turn and its Return; it may detach and destroy any channel. */
module ChannelModel {
  import opened Memory

  /** A set of event bits; the kernel watches a channel exactly when it is monitored. */
  type Mask = set<nat>

  datatype Chan = Chan(event: Mask, monitored: bool, attached: bool, alive: bool)

  datatype LogEntry =
    | Created(id: Addr)
    | Called(id: Addr)
    | Skipped(id: Addr)
    | Destroyed(id: Addr)
    | Freed(id: Addr)

  datatype State = State(
    mem: map<Addr, Chan>,
    next: Addr,
    registered: set<Addr>,    // the kernel's interest list
    todo: seq<Addr>,          // channels of the batch that still wait for their turn
    running: bool,            // the first of them is in its callback
    freed: set<Addr>,
    log: seq<LogEntry>)

  datatype Step =
    | New
    | SetEvent(id: Addr, event: Mask)
    | ClearEvent(id: Addr, event: Mask)
    | Detach(id: Addr)
    | Attach(id: Addr)
    | Destroy(id: Addr)
    | Begin(batch: seq<Addr>)
    | Turn
    | Return

  const INIT: State := State(map[], 1, {}, [], false, {}, [])

  predicate Client(e: Step) {
    e.New? || e.SetEvent? || e.ClearEvent? || e.Detach? || e.Attach? || e.Destroy?
  }

  /** Handles are used only until destroy; epoll_wait reports distinct registered channels, which the
      loop can only handle while they are allocated. */
  ghost predicate Enabled(s: State, e: Step) {
    match e
    case New => true
    case SetEvent(id, event) => id in s.mem && s.mem[id].alive && (s.mem[id].attached || event <= s.mem[id].event)
    case ClearEvent(id, event) => id in s.mem && s.mem[id].alive && (s.mem[id].attached || event !! s.mem[id].event)
    case Detach(id) => id in s.mem && s.mem[id].alive
    case Attach(id) => id in s.mem && s.mem[id].alive && !s.mem[id].attached
    case Destroy(id) => id in s.mem && s.mem[id].alive
    case Begin(batch) =>
      s.todo == [] && Distinct(batch) && forall id :: id in batch ==> id in s.registered && id in s.mem
    case Turn => s.todo != [] && !s.running && s.todo[0] in s.mem
    case Return => s.todo != [] && s.running && s.todo[0] in s.mem
  }

  function Emit(s: State, e: LogEntry): State {
    s.(log := s.log + [e])
  }

  function Release(s: State, id: Addr): State {
    Emit(s.(mem := s.mem - {id}, freed := s.freed + {id}), Freed(id))
  }

  /** do_loop_update_channel: an empty mask leaves the interest list, any other enters it. */
  function Update(s: State, id: Addr, c: Chan, watched: Mask): State {
    var on := watched != {};
    s.(mem := s.mem[id := c.(monitored := on)],
       registered := if on then s.registered + {id} else s.registered - {id})
  }

  function DoSetEvent(s: State, id: Addr, event: Mask): State
    requires id in s.mem
  {
    if event <= s.mem[id].event then s
    else
      var c := s.mem[id].(event := s.mem[id].event + event);
      Update(s, id, c, c.event)
  }

  function DoClearEvent(s: State, id: Addr, event: Mask): State
    requires id in s.mem
  {
    if event !! s.mem[id].event then s
    else
      var c := s.mem[id].(event := s.mem[id].event - event);
      Update(s, id, c, c.event)
  }

  /** The mask is kept for a later attach, but the kernel forgets the channel. */
  function DoDetach(s: State, id: Addr): State
    requires id in s.mem
  {
    if s.mem[id].event == {} || !s.mem[id].attached then s
    else Update(s, id, s.mem[id].(attached := false), {})
  }

  function DoAttach(s: State, id: Addr): State
    requires id in s.mem
  {
    Update(s, id, s.mem[id].(attached := true), s.mem[id].event)
  }

  /** A channel that still has its turn in this batch, or whose callback runs, is only marked. */
  function DoDestroy(s: State, id: Addr): State
    requires id in s.mem
  {
    var s1 := Emit(s, Destroyed(id));
    if id in s.todo then s1.(mem := s.mem[id := s.mem[id].(alive := false)])
    else Release(s1, id)
  }

  function DoTurn(s: State): State
    requires s.todo != [] && s.todo[0] in s.mem
  {
    var id := s.todo[0];
    if s.mem[id].alive then Emit(s.(running := true), Called(id))
    else Release(Emit(s.(todo := s.todo[1..]), Skipped(id)), id)
  }

  function DoReturn(s: State): State
    requires s.todo != [] && s.todo[0] in s.mem
  {
    var id := s.todo[0];
    var s1 := s.(running := false, todo := s.todo[1..]);
    if s.mem[id].alive then s1 else Release(s1, id)
  }

  function DoNew(s: State): State {
    Emit(s.(mem := s.mem[s.next := Chan({}, false, true, true)], next := s.next + 1), Created(s.next))
  }

  ghost function Apply(s: State, e: Step): State
    requires Enabled(s, e)
  {
    match e
    case New => DoNew(s)
    case SetEvent(id, event) => DoSetEvent(s, id, event)
    case ClearEvent(id, event) => DoClearEvent(s, id, event)
    case Detach(id) => DoDetach(s, id)
    case Attach(id) => DoAttach(s, id)
    case Destroy(id) => DoDestroy(s, id)
    case Begin(batch) => s.(todo := batch)
    case Turn => DoTurn(s)
    case Return => DoReturn(s)
  }

  // ---------------------------------------------------------------- invariants

  ghost predicate ChanOk(s: State, id: Addr) {
    && (id in s.mem || id in s.freed <==> 0 < id < s.next)
    && (id in s.mem ==> id !in s.freed)
    && (id in s.registered ==> 0 < id < s.next)
    && (id in s.todo ==> id in s.mem)
    && (id in s.mem ==>
      && (s.mem[id].monitored <==> id in s.registered)
      && (s.mem[id].alive ==> (s.mem[id].monitored <==> s.mem[id].attached && s.mem[id].event != {}))
      && (!s.mem[id].alive ==> id in s.todo))
  }

  ghost predicate GoodNext(log: seq<LogEntry>, e: LogEntry) {
    && Freed(e.id) !in log
    && (e.Created? ==> forall x :: x in log ==> x.id != e.id)
    && (e.Called? || e.Destroyed? ==> Destroyed(e.id) !in log)
    && (e.Skipped? || e.Freed? ==> Destroyed(e.id) in log)
  }

  ghost predicate GoodLog(log: seq<LogEntry>) {
    log == [] || (GoodLog(log[..|log| - 1]) && GoodNext(log[..|log| - 1], log[|log| - 1]))
  }

  ghost predicate LogOk(log: seq<LogEntry>, mem: map<Addr, Chan>, freed: set<Addr>, next: Addr, id: Addr) {
    && (Freed(id) in log <==> id in freed)
    && (id in mem ==> (mem[id].alive <==> Destroyed(id) !in log))
    && (id >= next ==> forall e :: e in log ==> e.id != id)
    && (Destroyed(id) in log ==> 0 < id < next)
  }

  ghost predicate Inv(s: State) {
    && s.next > 0
    && Distinct(s.todo) && (s.running ==> s.todo != [])
    && (forall id :: ChanOk(s, id))
    && GoodLog(s.log)
    && (forall id :: LogOk(s.log, s.mem, s.freed, s.next, id))
  }

  lemma Append(log: seq<LogEntry>, e: LogEntry)
    ensures GoodLog(log + [e]) <==> GoodLog(log) && GoodNext(log, e)
  {
    assert (log + [e])[..|log|] == log;
  }

  lemma NewKeeps(s: State)
    requires Inv(s)
    ensures Inv(DoNew(s))
  {
    var s' := DoNew(s);
    assert ChanOk(s, s.next) && LogOk(s.log, s.mem, s.freed, s.next, s.next);
    Append(s.log, Created(s.next));
    forall id ensures ChanOk(s', id) && LogOk(s'.log, s'.mem, s'.freed, s'.next, id) {
      assert ChanOk(s, id) && LogOk(s.log, s.mem, s.freed, s.next, id);
    }
  }

  lemma UpdateKeeps(s: State, id: Addr, c: Chan, watched: Mask)
    requires Inv(s) && id in s.mem && s.mem[id].alive && c.alive
    requires watched != {} <==> c.attached && c.event != {}
    ensures Inv(Update(s, id, c, watched))
  {
    var s' := Update(s, id, c, watched);
    forall a ensures ChanOk(s', a) && LogOk(s'.log, s'.mem, s'.freed, s'.next, a) {
      assert ChanOk(s, a) && LogOk(s.log, s.mem, s.freed, s.next, a);
    }
  }

  /** Freeing a dead channel that has no turn any more. */
  lemma ReleaseKeeps(s: State, id: Addr)
    requires s.next > 0 && Distinct(s.todo) && (s.running ==> s.todo != [])
    requires id in s.mem && 0 < id < s.next && id !in s.freed && id !in s.todo
    requires forall a :: a != id ==> ChanOk(s, a)
    requires GoodLog(s.log) && Destroyed(id) in s.log
    requires forall a :: a != id ==> LogOk(s.log, s.mem, s.freed, s.next, a)
    requires Freed(id) !in s.log
    ensures Inv(Release(s, id))
  {
    var s' := Release(s, id);
    Append(s.log, Freed(id));
    forall a ensures ChanOk(s', a) && LogOk(s'.log, s'.mem, s'.freed, s'.next, a) {
      if a != id { assert ChanOk(s, a) && LogOk(s.log, s.mem, s.freed, s.next, a); }
    }
  }

  lemma DestroyKeeps(s: State, id: Addr)
    requires Inv(s) && Enabled(s, Destroy(id))
    ensures Inv(DoDestroy(s, id))
  {
    var s1 := Emit(s, Destroyed(id));
    var s' := DoDestroy(s, id);
    assert ChanOk(s, id) && LogOk(s.log, s.mem, s.freed, s.next, id);
    Append(s.log, Destroyed(id));
    if id in s.todo {
      forall a ensures ChanOk(s', a) && LogOk(s'.log, s'.mem, s'.freed, s'.next, a) {
        assert ChanOk(s, a) && LogOk(s.log, s.mem, s.freed, s.next, a);
      }
    } else {
      forall a | a != id ensures ChanOk(s1, a) && LogOk(s1.log, s1.mem, s1.freed, s1.next, a) {
        assert ChanOk(s, a) && LogOk(s.log, s.mem, s.freed, s.next, a);
      }
      ReleaseKeeps(s1, id);
    }
  }

  lemma BeginKeeps(s: State, batch: seq<Addr>)
    requires Inv(s) && Enabled(s, Begin(batch))
    ensures Inv(s.(todo := batch))
  {
    var s' := s.(todo := batch);
    forall a ensures ChanOk(s', a) && LogOk(s'.log, s'.mem, s'.freed, s'.next, a) {
      assert ChanOk(s, a) && LogOk(s.log, s.mem, s.freed, s.next, a);
    }
  }

  lemma PopFacts(todo: seq<Addr>)
    requires todo != [] && Distinct(todo)
    ensures Distinct(todo[1..]) && todo[0] !in todo[1..]
    ensures forall a :: a in todo[1..] <==> a in todo && a != todo[0]
  {
    assert todo == [todo[0]] + todo[1..];
  }

  lemma CalledKeeps(s: State)
    requires Inv(s) && Enabled(s, Turn) && s.mem[s.todo[0]].alive
    ensures Inv(DoTurn(s))
  {
    var id, s' := s.todo[0], DoTurn(s);
    assert ChanOk(s, id) && LogOk(s.log, s.mem, s.freed, s.next, id);
    Append(s.log, Called(id));
    forall a ensures ChanOk(s', a) && LogOk(s'.log, s'.mem, s'.freed, s'.next, a) {
      assert ChanOk(s, a) && LogOk(s.log, s.mem, s.freed, s.next, a);
    }
  }

  lemma SkippedKeeps(s: State)
    requires Inv(s) && Enabled(s, Turn) && !s.mem[s.todo[0]].alive
    ensures Inv(DoTurn(s))
  {
    var id := s.todo[0];
    var s1 := Emit(s.(todo := s.todo[1..]), Skipped(id));
    assert ChanOk(s, id) && LogOk(s.log, s.mem, s.freed, s.next, id);
    PopFacts(s.todo);
    Append(s.log, Skipped(id));
    forall a | a != id ensures ChanOk(s1, a) && LogOk(s1.log, s1.mem, s1.freed, s1.next, a) {
      assert ChanOk(s, a) && LogOk(s.log, s.mem, s.freed, s.next, a);
    }
    ReleaseKeeps(s1, id);
  }

  lemma ReturnKeeps(s: State)
    requires Inv(s) && Enabled(s, Return)
    ensures Inv(DoReturn(s))
  {
    var id := s.todo[0];
    var s1 := s.(running := false, todo := s.todo[1..]);
    assert ChanOk(s, id) && LogOk(s.log, s.mem, s.freed, s.next, id);
    PopFacts(s.todo);
    forall a | a != id || s.mem[id].alive ensures ChanOk(s1, a) && LogOk(s1.log, s1.mem, s1.freed, s1.next, a) {
      assert ChanOk(s, a) && LogOk(s.log, s.mem, s.freed, s.next, a);
    }
    if !s.mem[id].alive { ReleaseKeeps(s1, id); }
  }

  /** Every step keeps the invariant. */
  lemma StepKeepsInv(s: State, e: Step)
    requires Inv(s) && Enabled(s, e)
    ensures Inv(Apply(s, e))
  {
    if !e.New? && !e.Begin? && !e.Turn? && !e.Return? { assert ChanOk(s, e.id); }
    match e
    case New => NewKeeps(s);
    case SetEvent(id, event) =>
      if !(event <= s.mem[id].event) {
        var c := s.mem[id].(event := s.mem[id].event + event);
        UpdateKeeps(s, id, c, c.event);
      }
    case ClearEvent(id, event) =>
      if !(event !! s.mem[id].event) {
        var c := s.mem[id].(event := s.mem[id].event - event);
        UpdateKeeps(s, id, c, c.event);
      }
    case Detach(id) =>
      if s.mem[id].event != {} && s.mem[id].attached { UpdateKeeps(s, id, s.mem[id].(attached := false), {}); }
    case Attach(id) => UpdateKeeps(s, id, s.mem[id].(attached := true), s.mem[id].event);
    case Destroy(id) => DestroyKeeps(s, id);
    case Begin(batch) => BeginKeeps(s, batch);
    case Turn => if s.mem[s.todo[0]].alive { CalledKeeps(s); } else { SkippedKeeps(s); }
    case Return => ReturnKeeps(s);
  }

  // ---------------------------------------------------------------- runs

  ghost predicate Legal(s: State, steps: seq<Step>)
    decreases |steps|
  {
    steps == [] || (Enabled(s, steps[0]) && Legal(Apply(s, steps[0]), steps[1..]))
  }

  ghost function Run(s: State, steps: seq<Step>): State
    requires Legal(s, steps)
    decreases |steps|
  {
    if steps == [] then s else Run(Apply(s, steps[0]), steps[1..])
  }

  /** Some legal run leads from s to s'. */
  ghost predicate Leads(s: State, s': State) {
    exists steps :: Legal(s, steps) && Run(s, steps) == s'
  }

  ghost predicate Reachable(s: State) {
    Leads(INIT, s)
  }

  lemma {:induction false} RunAppend(s: State, a: seq<Step>, b: seq<Step>)
    requires Legal(s, a) && Legal(Run(s, a), b)
    ensures Legal(s, a + b) && Run(s, a + b) == Run(Run(s, a), b)
    decreases |a|
  {
    if a == [] {
      assert a + b == b;
    } else {
      assert (a + b)[0] == a[0] && (a + b)[1..] == a[1..] + b;
      RunAppend(Apply(s, a[0]), a[1..], b);
    }
  }

  lemma LeadsSame(s: State)
    ensures Leads(s, s)
  {
    assert Legal(s, []) && Run(s, []) == s;
  }

  lemma LeadsStep(s: State, e: Step)
    requires Enabled(s, e)
    ensures Leads(s, Apply(s, e))
  {
    var s' := Apply(s, e);
    assert [e][1..] == [];
    assert Legal(s', []) && Run(s', []) == s';
    assert Legal(s, [e]) && Run(s, [e]) == s';
  }

  /** What a reachable state leads to is reachable. */
  lemma LeadsTrans(s: State, s': State, s'': State)
    requires Leads(s, s') && Leads(s', s'')
    ensures Leads(s, s'')
  {
    var a :| Legal(s, a) && Run(s, a) == s';
    var b :| Legal(s', b) && Run(s', b) == s'';
    RunAppend(s, a, b);
  }

  lemma {:induction false} RunKeepsInv(s: State, steps: seq<Step>)
    requires Inv(s) && Legal(s, steps)
    ensures Inv(Run(s, steps))
    decreases |steps|
  {
    if steps != [] {
      StepKeepsInv(s, steps[0]);
      RunKeepsInv(Apply(s, steps[0]), steps[1..]);
    }
  }

  lemma InitInv()
    ensures Inv(INIT)
  {
    assert forall id :: ChanOk(INIT, id);
    assert forall id :: LogOk(INIT.log, INIT.mem, INIT.freed, INIT.next, id);
  }

  lemma ReachableInv(s: State)
    requires Reachable(s)
    ensures Inv(s)
  {
    var steps :| Legal(INIT, steps) && Run(INIT, steps) == s;
    InitInv();
    RunKeepsInv(INIT, steps);
  }

  lemma {:induction false} GoodLogAt(log: seq<LogEntry>, j: nat)
    requires GoodLog(log) && j < |log|
    ensures GoodNext(log[..j], log[j])
    decreases |log|
  {
    var n := |log| - 1;
    if j < n {
      GoodLogAt(log[..n], j);
      assert log[..n][..j] == log[..j];
    }
  }

  /** In every history: a freed channel is not touched again (so it is freed once), it is freed and
      skipped only after destroy, destroyed once, and not called after destroy. */
  lemma HistorySafety(s: State, i: nat, j: nat)
    requires Reachable(s) && i < j < |s.log| && s.log[i].id == s.log[j].id
    ensures !s.log[i].Freed?
    ensures s.log[i].Destroyed? ==> !s.log[j].Called? && !s.log[j].Destroyed?
  {
    ReachableInv(s);
    GoodLogAt(s.log, j);
    assert s.log[i] in s.log[..j];
  }

  lemma SkippedOrFreedWasDestroyed(s: State, j: nat)
    requires Reachable(s) && j < |s.log| && (s.log[j].Skipped? || s.log[j].Freed?)
    ensures exists i :: 0 <= i < j && s.log[i] == Destroyed(s.log[j].id)
  {
    ReachableInv(s);
    GoodLogAt(s.log, j);
    var i :| 0 <= i < j && s.log[..j][i] == Destroyed(s.log[j].id);
    assert s.log[i] == Destroyed(s.log[j].id);
  }

  // What the kernel still watches

  /** The kernel watches a channel that was destroyed. */
  predicate Stray(s: State, id: Addr) {
    id in s.registered && !(id in s.mem && s.mem[id].alive)
  }

  /** Step i destroys channel id while it is attached with a mask that is not empty. */
  ghost predicate DestroyedWatched(s: State, steps: seq<Step>, i: nat, id: Addr) {
    && i < |steps| && steps[i] == Destroy(id)
    && Legal(s, steps[..i])
    && var chans := Run(s, steps[..i]).mem;
      id in chans && chans[id].attached && chans[id].event != {}
  }

  lemma StrayStep(s: State, e: Step, id: Addr)
    requires Inv(s) && Enabled(s, e)
    ensures Stray(Apply(s, e), id) <==>
      Stray(s, id) || (e == Destroy(id) && s.mem[id].attached && s.mem[id].event != {})
  {
    assert ChanOk(s, id);
    if !e.New? && !e.Begin? && !e.Turn? && !e.Return? { assert ChanOk(s, e.id); }
  }

  lemma WatchedLater(s: State, steps: seq<Step>, i: nat, id: Addr)
    requires steps != [] && Enabled(s, steps[0])
    ensures DestroyedWatched(s, steps, i + 1, id) <==> DestroyedWatched(Apply(s, steps[0]), steps[1..], i, id)
  {
    if i + 1 < |steps| { assert steps[..i + 1][1..] == steps[1..][..i]; }
  }

  lemma WatchedFirst(s: State, steps: seq<Step>, id: Addr)
    requires steps != [] && Enabled(s, steps[0])
    ensures DestroyedWatched(s, steps, 0, id) <==>
      steps[0] == Destroy(id) && s.mem[id].attached && s.mem[id].event != {}
  {
    assert steps[..0] == [] && Legal(s, []) && Run(s, []) == s;
  }

  lemma {:induction false} StraysOfRun(s: State, steps: seq<Step>, id: Addr)
    requires Inv(s) && Legal(s, steps)
    ensures Stray(Run(s, steps), id) <==> Stray(s, id) || exists i: nat :: DestroyedWatched(s, steps, i, id)
    decreases |steps|
  {
    if steps != [] {
      var s1 := Apply(s, steps[0]);
      StepKeepsInv(s, steps[0]);
      StrayStep(s, steps[0], id);
      StraysOfRun(s1, steps[1..], id);
      WatchedFirst(s, steps, id);
      if i: nat :| DestroyedWatched(s, steps, i, id) {
        if i > 0 { WatchedLater(s, steps, i - 1, id); }
      }
      if i: nat :| DestroyedWatched(s1, steps[1..], i, id) {
        WatchedLater(s, steps, i, id);
      }
    }
  }

  /** Between batches exactly the destroyed channels were freed, and of these the kernel still knows
      those that the run destroyed while attached with a mask that was not empty. */
  lemma NothingLingers(steps: seq<Step>, id: Addr)
    requires Legal(INIT, steps) && Run(INIT, steps).todo == []
    ensures var s := Run(INIT, steps);
      && (Destroyed(id) in s.log <==> id in s.freed)
      && (id in s.registered ==> id in s.mem || id in s.freed)
      && (id in s.registered && id in s.freed <==> exists i: nat :: DestroyedWatched(INIT, steps, i, id))
  {
    var s := Run(INIT, steps);
    InitInv();
    RunKeepsInv(INIT, steps);
    StraysOfRun(INIT, steps, id);
    assert ChanOk(s, id) && LogOk(s.log, s.mem, s.freed, s.next, id);
    if id in s.freed {
      assert Freed(id) in s.log;
      var j :| 0 <= j < |s.log| && s.log[j] == Freed(id);
      GoodLogAt(s.log, j);
      assert Destroyed(id) in s.log[..j];
    }
  }

  /** The next batch can name a freed channel exactly if the run destroyed one while it was attached
      with a mask that was not empty. */
  lemma DanglingExactlyWhen(steps: seq<Step>)
    requires Legal(INIT, steps) && Run(INIT, steps).todo == []
    ensures (exists id :: id in Run(INIT, steps).registered && id in Run(INIT, steps).freed) <==>
            exists i: nat, id :: DestroyedWatched(INIT, steps, i, id)
  {
    var s := Run(INIT, steps);
    if id :| id in s.registered && id in s.freed {
      NothingLingers(steps, id);
    }
    if i: nat, id :| DestroyedWatched(INIT, steps, i, id) {
      NothingLingers(steps, id);
    }
  }

  lemma DanglingHappens()
    ensures exists s :: Reachable(s) && s.todo == [] && exists id :: id in s.registered && id in s.freed
  {
    var s0 := Apply(INIT, New);
    LeadsStep(INIT, New);
    assert 1 in s0.mem;
    var s1 := Apply(s0, SetEvent(1, {0}));
    LeadsStep(s0, SetEvent(1, {0}));
    assert 0 in s1.mem[1].event;
    var s2 := Apply(s1, Destroy(1));
    LeadsStep(s1, Destroy(1));
    LeadsTrans(INIT, s0, s1);
    LeadsTrans(INIT, s1, s2);
    assert 1 in s2.registered && 1 in s2.freed;
  }

  // ---------------------------------------------------------------- one batch

  /** The channels whose turn has come, called or skipped, in order. */
  function Turns(log: seq<LogEntry>): seq<Addr> {
    if log == [] then []
    else
      var e := log[|log| - 1];
      Turns(log[..|log| - 1]) + (if e.Called? || e.Skipped? then [e.id] else [])
  }

  lemma TurnsAppend(log: seq<LogEntry>, e: LogEntry)
    ensures Turns(log + [e]) == Turns(log) + (if e.Called? || e.Skipped? then [e.id] else [])
  {
    assert (log + [e])[..|log|] == log;
  }

  /** The turns of the batch still to come: the running channel had its turn. */
  function Waiting(s: State): seq<Addr> {
    if s.running && s.todo != [] then s.todo[1..] else s.todo
  }

  ghost predicate InBatch(s0: State, batch: seq<Addr>, s: State) {
    s0.log <= s.log && Turns(s.log[|s0.log|..]) + Waiting(s) == batch
  }

  /** Entries other than Called and Skipped are nobody's turn. */
  lemma {:induction false} TurnsNoise(part: seq<LogEntry>, out: seq<LogEntry>)
    requires forall e :: e in out ==> !e.Called? && !e.Skipped?
    ensures Turns(part + out) == Turns(part)
    decreases |out|
  {
    if out == [] {
      assert part + out == part;
    } else {
      var n := |out| - 1;
      assert out[n] in out;
      assert part + out == part + out[..n] + [out[n]];
      TurnsNoise(part, out[..n]);
      TurnsAppend(part + out[..n], out[n]);
    }
  }

  lemma InBatchEmit(s0: State, batch: seq<Addr>, s: State, s': State)
    requires InBatch(s0, batch, s) && s.log <= s'.log
    requires Turns(s.log[|s0.log|..] + s'.log[|s.log|..]) + Waiting(s') == Turns(s.log[|s0.log|..]) + Waiting(s)
    ensures InBatch(s0, batch, s')
  {
    assert s'.log[|s0.log|..] == s.log[|s0.log|..] + s'.log[|s.log|..];
  }

  lemma TurnStep(part: seq<LogEntry>, s: State)
    requires Enabled(s, Turn)
    ensures var s' := DoTurn(s);
      s.log <= s'.log && Turns(part + s'.log[|s.log|..]) + Waiting(s') == Turns(part) + s.todo
  {
    var id := s.todo[0];
    TurnTakes(s);
    TurnsOne(part, id);
    TurnsSkipped(part, id);
    assert Turns(part) + s.todo == Turns(part) + [id] + s.todo[1..];
  }

  lemma TurnTakes(s: State)
    requires Enabled(s, Turn)
    ensures var id, s' := s.todo[0], DoTurn(s);
      && s.log <= s'.log && Waiting(s') == s.todo[1..]
      && s'.log[|s.log|..] == if s.mem[id].alive then [Called(id)] else [Skipped(id), Freed(id)]
  {
    var id, s' := s.todo[0], DoTurn(s);
    assert s'.log == s.log + if s.mem[id].alive then [Called(id)] else [Skipped(id), Freed(id)];
  }

  lemma TurnsOne(part: seq<LogEntry>, id: Addr)
    ensures Turns(part + [Called(id)]) == Turns(part) + [id]
  {
    TurnsAppend(part, Called(id));
  }

  lemma TurnsSkipped(part: seq<LogEntry>, id: Addr)
    ensures Turns(part + [Skipped(id), Freed(id)]) == Turns(part) + [id]
  {
    TurnsAppend(part, Skipped(id));
    TurnsNoise(part + [Skipped(id)], [Freed(id)]);
    assert part + [Skipped(id), Freed(id)] == part + [Skipped(id)] + [Freed(id)];
  }

  /** A step that is not a turn leaves the turns to come as they were. */
  lemma OtherStep(s: State, e: Step)
    requires Enabled(s, e) && !e.Begin? && !e.Turn?
    ensures var s' := Apply(s, e);
      && s.log <= s'.log && Waiting(s') == Waiting(s)
      && forall x :: x in s'.log[|s.log|..] ==> !x.Called? && !x.Skipped?
  {
  }

  lemma InBatchStep(s0: State, batch: seq<Addr>, s: State, e: Step)
    requires InBatch(s0, batch, s) && Enabled(s, e) && !e.Begin?
    ensures InBatch(s0, batch, Apply(s, e))
  {
    var part := s.log[|s0.log|..];
    var s' := Apply(s, e);
    if e.Turn? {
      TurnStep(part, s);
    } else {
      OtherStep(s, e);
      TurnsNoise(part, s'.log[|s.log|..]);
    }
    InBatchEmit(s0, batch, s, s');
  }

  lemma {:induction false} InBatchRun(s0: State, batch: seq<Addr>, s: State, steps: seq<Step>)
    requires InBatch(s0, batch, s) && Legal(s, steps) && (forall e: Step :: e in steps ==> !e.Begin?)
    ensures InBatch(s0, batch, Run(s, steps))
    decreases |steps|
  {
    if steps != [] {
      assert steps[0] in steps;
      InBatchStep(s0, batch, s, steps[0]);
      InBatchRun(s0, batch, Apply(s, steps[0]), steps[1..]);
    }
  }

  /** In a complete batch, whatever the callbacks do, every reported channel has exactly one turn, in
      the order reported: it is called, or skipped because it was destroyed earlier in the batch
      (HistorySafety, SkippedOrFreedWasDestroyed). */
  lemma BatchTheorem(s0: State, batch: seq<Addr>, steps: seq<Step>)
    requires Inv(s0) && Enabled(s0, Begin(batch)) && Legal(Apply(s0, Begin(batch)), steps)
    requires forall e: Step :: e in steps ==> !e.Begin?
    requires Run(Apply(s0, Begin(batch)), steps).todo == []
    ensures var s := Run(Apply(s0, Begin(batch)), steps);
      s0.log <= s.log && Turns(s.log[|s0.log|..]) == batch && Distinct(batch)
  {
    var s1 := Apply(s0, Begin(batch));
    assert s1.log[|s0.log|..] == [];
    InBatchRun(s0, batch, s1, steps);
  }

  // ---------------------------------------------------------------- callbacks

  ghost function Try(s: State, e: Step): State {
    if Client(e) && Enabled(s, e) then Apply(s, e) else s
  }

  /** A callback that asks for `ops` does each that is legal when its turn comes. */
  ghost function RunClient(s: State, ops: seq<Step>): State
    decreases |ops|
  {
    if ops == [] then s else RunClient(Try(s, ops[0]), ops[1..])
  }

  ghost function Finish(s: State): State {
    if s.todo != [] && s.todo[0] in s.mem then DoReturn(s) else s
  }

  /** channel_onevent for the first waiting channel. */
  ghost function TurnResult(s: State, ops: seq<Step>): State {
    if s.todo == [] || s.todo[0] !in s.mem then s
    else if s.mem[s.todo[0]].alive then Finish(RunClient(DoTurn(s), ops))
    else DoTurn(s)
  }

  lemma TryKeeps(s: State, e: Step, s0: State, batch: seq<Addr>)
    requires Inv(s) && InBatch(s0, batch, s)
    ensures var s' := Try(s, e); Inv(s') && InBatch(s0, batch, s') && s'.todo == s.todo && s'.running == s.running
  {
    if Client(e) && Enabled(s, e) {
      StepKeepsInv(s, e);
      InBatchStep(s0, batch, s, e);
    }
  }

  lemma {:induction false} RunClientKeeps(s: State, ops: seq<Step>, s0: State, batch: seq<Addr>)
    requires Inv(s) && InBatch(s0, batch, s)
    ensures var s' := RunClient(s, ops);
      Inv(s') && InBatch(s0, batch, s') && s'.todo == s.todo && s'.running == s.running
    decreases |ops|
  {
    if ops != [] {
      TryKeeps(s, ops[0], s0, batch);
      RunClientKeeps(Try(s, ops[0]), ops[1..], s0, batch);
    }
  }

  lemma TurnResultKeeps(s: State, ops: seq<Step>, s0: State, batch: seq<Addr>)
    requires Inv(s) && InBatch(s0, batch, s) && s.todo != [] && !s.running
    ensures var s' := TurnResult(s, ops);
      Inv(s') && InBatch(s0, batch, s') && !s'.running && s'.todo == s.todo[1..]
  {
    var id := s.todo[0];
    assert ChanOk(s, id);
    StepKeepsInv(s, Turn);
    InBatchStep(s0, batch, s, Turn);
    if s.mem[id].alive {
      RunClientKeeps(DoTurn(s), ops, s0, batch);
      FinishKeeps(RunClient(DoTurn(s), ops), s0, batch);
    }
  }

  lemma FinishKeeps(s: State, s0: State, batch: seq<Addr>)
    requires Inv(s) && InBatch(s0, batch, s) && s.todo != [] && s.running
    ensures var s' := Finish(s); Inv(s') && InBatch(s0, batch, s') && !s'.running && s'.todo == s.todo[1..]
  {
    assert ChanOk(s, s.todo[0]);
    StepKeepsInv(s, Return);
    InBatchStep(s0, batch, s, Return);
  }

  // The same turns as legal runs

  lemma TryLeads(s: State, e: Step)
    ensures Leads(s, Try(s, e))
  {
    LeadsSame(s);
    if Client(e) && Enabled(s, e) { LeadsStep(s, e); }
  }

  lemma {:induction false} RunClientLeads(s: State, ops: seq<Step>)
    ensures Leads(s, RunClient(s, ops))
    decreases |ops|
  {
    if ops == [] {
      LeadsSame(s);
    } else {
      var s' := Try(s, ops[0]);
      TryLeads(s, ops[0]);
      RunClientLeads(s', ops[1..]);
      LeadsTrans(s, s', RunClient(s', ops[1..]));
    }
  }

  lemma TurnLeads(s: State, ops: seq<Step>)
    requires Inv(s) && s.todo != [] && !s.running
    ensures Leads(s, TurnResult(s, ops))
  {
    assert ChanOk(s, s.todo[0]);
    LeadsStep(s, Turn);
    if s.mem[s.todo[0]].alive {
      var s1 := DoTurn(s);
      var s2 := RunClient(s1, ops);
      StepKeepsInv(s, Turn);
      assert s1.log[|s1.log|..] == [];
      RunClientKeeps(s1, ops, s1, Waiting(s1));
      RunClientLeads(s1, ops);
      assert ChanOk(s2, s2.todo[0]);
      LeadsStep(s2, Return);
      LeadsTrans(s, s1, s2);
      LeadsTrans(s, s2, Finish(s2));
    }
  }
}
