/** The async task queue as a protocol between any number of submitting threads and the loop
    thread.  Each lock section, each eventfd call and each task run is one atomic step, and the
    steps of different threads interleave arbitrarily.
  */
module AsyncModel {

  type Task = nat

  /** The eventfd counter saturates here: a further write fails with EAGAIN and is ignored. */
  const COUNTER_MAX: nat := 0xffff_ffff_ffff_fffe

  /** Where the loop thread is: in (or on its way to) epoll_wait; between eventfd_read and the lock
      section that takes the list; running the tasks it took; out of loop_loop. */
  datatype Pc = Polling | Awake | Draining | Stopped

  datatype State = State(
    queue: seq<Task>,
    counter: nat,
    owed: nat,              // submitters between their lock section and their eventfd_write
    grabbed: seq<Task>,
    pc: Pc,
    started: bool,
    quited: bool,
    executed: seq<Task>,    // tasks the loop took from the queue and ran
    inlined: seq<Task>,     // calls loop_run_inloop ran in the calling thread
    submitted: seq<Task>,   // all submissions, in lock order
    requests: seq<Task>)    // all calls of loop_async and loop_run_inloop

  datatype Step =
    | Submit(task: Task)
    | Signal
    | Wake
    | Grab
    | RunTask
    | Return
    | Start
    | Quit
    | Stop
    | RunInloop(task: Task, onLoopThread: bool)

  const INIT: State := State([], 0, 0, [], Polling, false, false, [], [], [], [])

  predicate Enabled(s: State, e: Step) {
    match e
    case Submit(_) => true
    case Signal => s.owed > 0
    case Wake => s.started && s.pc.Polling? && s.counter > 0
    case Grab => s.pc.Awake?
    case RunTask => s.pc.Draining? && s.grabbed != []
    case Return => s.pc.Draining? && s.grabbed == []
    case Start => !s.started
    case Quit => true
    case Stop => s.started && s.pc.Polling? && s.quited
    case RunInloop(_, _) => true
  }

  function DoSubmit(s: State, task: Task): State {
    s.(queue := s.queue + [task], submitted := s.submitted + [task], owed := s.owed + 1,
       requests := s.requests + [task])
  }

  function Apply(s: State, e: Step): State
    requires Enabled(s, e)
  {
    match e
    case Submit(task) => DoSubmit(s, task)
    case Signal => s.(owed := s.owed - 1, counter := if s.counter < COUNTER_MAX then s.counter + 1 else s.counter)
    case Wake => s.(counter := 0, pc := Awake)
    case Grab => s.(grabbed := s.queue, queue := [], pc := Draining)
    case RunTask => s.(grabbed := s.grabbed[1..], executed := s.executed + [s.grabbed[0]])
    case Return => s.(pc := Polling)
    case Start => s.(started := true)
    case Quit => s.(quited := true)
    case Stop => s.(pc := Stopped)
    case RunInloop(task, onLoopThread) =>
      if !s.started || onLoopThread || s.quited then
        s.(inlined := s.inlined + [task], requests := s.requests + [task])
      else DoSubmit(s, task)
  }

  predicate Legal(s: State, steps: seq<Step>)
    decreases |steps|
  {
    steps == [] || (Enabled(s, steps[0]) && Legal(Apply(s, steps[0]), steps[1..]))
  }

  function Run(s: State, steps: seq<Step>): State
    requires Legal(s, steps)
    decreases |steps|
  {
    if steps == [] then s else Run(Apply(s, steps[0]), steps[1..])
  }

  /** Some legal run leads from s to s'. */
  ghost predicate Leads(s: State, s': State) {
    exists steps :: Legal(s, steps) && Run(s, steps) == s'
  }

  ghost predicate Reachable(s: State) {
    Leads(INIT, s)
  }

  lemma {:induction false} RunAppend(s: State, a: seq<Step>, b: seq<Step>)
    requires Legal(s, a) && Legal(Run(s, a), b)
    ensures Legal(s, a + b) && Run(s, a + b) == Run(Run(s, a), b)
    decreases |a|
  {
    if a == [] {
      assert a + b == b;
    } else {
      assert (a + b)[0] == a[0] && (a + b)[1..] == a[1..] + b;
      RunAppend(Apply(s, a[0]), a[1..], b);
    }
  }

  lemma LeadsSame(s: State)
    ensures Leads(s, s)
  {
    assert Legal(s, []) && Run(s, []) == s;
  }

  lemma LeadsStep(s: State, e: Step)
    requires Enabled(s, e)
    ensures Leads(s, Apply(s, e))
  {
    var s' := Apply(s, e);
    assert [e][1..] == [];
    assert Legal(s', []) && Run(s', []) == s';
    assert Legal(s, [e]) && Run(s, [e]) == s';
  }

  /** What a reachable state leads to is reachable. */
  lemma LeadsTrans(s: State, s': State, s'': State)
    requires Leads(s, s') && Leads(s', s'')
    ensures Leads(s, s'')
  {
    var a :| Legal(s, a) && Run(s, a) == s';
    var b :| Legal(s', b) && Run(s', b) == s'';
    RunAppend(s, a, b);
  }

  /** Nothing is lost, duplicated or reordered, and a task that waits is announced. */
  predicate Inv(s: State) {
    && s.executed + s.grabbed + s.queue == s.submitted
    && (s.queue != [] ==> s.counter > 0 || s.owed > 0 || s.pc.Awake?)
    && (s.grabbed != [] ==> s.pc.Draining?)
    && s.counter <= COUNTER_MAX
    && (s.pc.Stopped? ==> s.quited)
  }

  lemma StepKeepsInv(s: State, e: Step)
    requires Inv(s) && Enabled(s, e)
    ensures Inv(Apply(s, e))
  {
    match e
    case Submit(task) =>
      assert s.executed + s.grabbed + (s.queue + [task]) == s.executed + s.grabbed + s.queue + [task];
    case RunInloop(task, _) =>
      assert s.executed + s.grabbed + (s.queue + [task]) == s.executed + s.grabbed + s.queue + [task];
    case Grab => assert s.grabbed == [] && s.executed + s.queue + [] == s.executed + s.grabbed + s.queue;
    case RunTask => assert s.executed + [s.grabbed[0]] + s.grabbed[1..] == s.executed + s.grabbed;
    case _ =>
  }

  lemma {:induction false} RunKeepsInv(s: State, steps: seq<Step>)
    requires Inv(s) && Legal(s, steps)
    ensures Inv(Run(s, steps))
    decreases |steps|
  {
    if steps != [] {
      StepKeepsInv(s, steps[0]);
      RunKeepsInv(Apply(s, steps[0]), steps[1..]);
    }
  }

  lemma ReachableInv(s: State)
    requires Reachable(s)
    ensures Inv(s)
  {
    var steps :| Legal(INIT, steps) && Run(INIT, steps) == s;
    RunKeepsInv(INIT, steps);
  }

  /** Under every interleaving the tasks run so far, those taken but not run, and those queued are,
      in this order, exactly the submissions in lock order: FIFO, each at most once. */
  lemma Conservation(s: State)
    requires Reachable(s)
    ensures s.executed + s.grabbed + s.queue == s.submitted
    ensures s.executed <= s.submitted
  {
    ReachableInv(s);
    assert s.submitted == s.executed + (s.grabbed + s.queue);
  }

  /** No lost wakeup. */
  lemma NoLostWakeup(s: State)
    requires Reachable(s) && s.queue != []
    ensures s.counter > 0 || s.owed > 0 || s.pc.Awake?
  {
    ReachableInv(s);
  }

  // ---------------------------------------------------------------- progress

  /** The steps that are not a new request: pending writes and the loop thread's own work. */
  predicate Internal(e: Step) {
    e.Signal? || e.Wake? || e.Grab? || e.RunTask? || e.Return? || e.Stop?
  }

  function Rank(pc: Pc): nat {
    match pc
    case Stopped => 0
    case Polling => 1
    case Draining => 2
    case Awake => 3
  }

  function Measure(s: State): nat {
    4 * s.owed + (if s.counter > 0 then 3 else 0) + Rank(s.pc) + |s.grabbed| + |s.queue|
  }

  lemma InternalDescends(s: State, e: Step)
    requires Enabled(s, e) && Internal(e) && Inv(s)
    ensures Measure(Apply(s, e)) < Measure(s)
  {
  }

  /** If no submission comes in, the protocol comes to rest within Measure steps... */
  lemma {:induction false} InternalRunsAreShort(s: State, steps: seq<Step>)
    requires Inv(s) && Legal(s, steps) && (forall e :: e in steps ==> Internal(e))
    ensures |steps| + Measure(Run(s, steps)) <= Measure(s)
    decreases |steps|
  {
    if steps != [] {
      assert steps[0] in steps;
      InternalDescends(s, steps[0]);
      StepKeepsInv(s, steps[0]);
      InternalRunsAreShort(Apply(s, steps[0]), steps[1..]);
    }
  }

  /** Only a new request can move the protocol. */
  ghost predicate AtRest(s: State) {
    forall e :: Internal(e) ==> !Enabled(s, e)
  }

  lemma AtRestIs(s: State)
    requires AtRest(s) && s.started && Inv(s)
    ensures s.grabbed == [] && s.owed == 0
    ensures s.pc.Stopped? || (s.pc.Polling? && s.queue == [])
  {
    assert !Enabled(s, Signal) && !Enabled(s, Wake) && !Enabled(s, Grab) && !Enabled(s, RunTask) && !Enabled(s, Return);
  }

  /** ... and where it rests every submitted task has run, exactly unless the loop has stopped with
      tasks in its queue, which are then the ones that have not. */
  lemma AtRestExactlyWhen(s: State)
    requires Reachable(s) && s.started && AtRest(s)
    ensures s.executed + s.queue == s.submitted
    ensures s.executed == s.submitted <==> !(s.pc.Stopped? && s.queue != [])
  {
    ReachableInv(s);
    AtRestIs(s);
    NothingBetween(s);
    if s.executed == s.submitted {
      assert |s.submitted| == |s.executed| + |s.queue|;
    }
  }

  /** The submissions among some steps. */
  function Submits(steps: seq<Step>): seq<Task> {
    if steps == [] then []
    else (if steps[0].Submit? then [steps[0].task] else []) + Submits(steps[1..])
  }

  /** Once the loop has stopped its queue only grows: nothing in it ever runs. */
  lemma {:induction false} StoppedStaysStopped(s: State, steps: seq<Step>)
    requires Inv(s) && s.pc.Stopped? && Legal(s, steps)
    ensures var s' := Run(s, steps);
      s'.pc.Stopped? && s'.executed == s.executed && s'.queue == s.queue + Submits(steps)
    decreases |steps|
  {
    if steps == [] {
      assert s.queue + [] == s.queue;
    } else {
      var s1 := Apply(s, steps[0]);
      StepKeepsInv(s, steps[0]);
      StoppedStaysStopped(s1, steps[1..]);
      var first := if steps[0].Submit? then [steps[0].task] else [];
      assert s1.queue == s.queue + first;
      assert s.queue + first + Submits(steps[1..]) == s.queue + (first + Submits(steps[1..]));
    }
  }

  /** In every run in which the loop stops, the tasks that never run are exactly those queued when it
      stopped, followed by those submitted afterwards. */
  lemma StrandedExactly(pre: seq<Step>, post: seq<Step>)
    requires Legal(INIT, pre) && Enabled(Run(INIT, pre), Stop) && Legal(Apply(Run(INIT, pre), Stop), post)
    ensures var atStop := Run(INIT, pre); var s := Run(Apply(atStop, Stop), post);
      && s.submitted == s.executed + (atStop.queue + Submits(post))
      && s.queue == atStop.queue + Submits(post)
      && s.executed == atStop.executed
  {
    var atStop := Run(INIT, pre);
    RunKeepsInv(INIT, pre);
    StepKeepsInv(atStop, Stop);
    var stopped := Apply(atStop, Stop);
    StoppedStaysStopped(stopped, post);
    RunKeepsInv(stopped, post);
    assert Run(stopped, post).grabbed == [];
    NothingBetween(Run(stopped, post));
  }

  lemma NothingBetween(s: State)
    requires Inv(s) && s.grabbed == []
    ensures s.submitted == s.executed + s.queue
  {
    assert s.executed + [] == s.executed;
  }

  /** Such a run: a quit, then a submission, then the stop. */
  lemma QuitCanStrand()
    ensures exists pre :: Legal(INIT, pre) && Enabled(Run(INIT, pre), Stop) && Run(INIT, pre).queue != []
  {
    var pre := [Start, Quit, Submit(7)];
    var s0 := Apply(INIT, Start);
    var s1 := Apply(s0, Quit);
    var s2 := Apply(s1, Submit(7));
    assert pre[1..] == [Quit, Submit(7)] && [Quit, Submit(7)][1..] == [Submit(7)] && [Submit(7)][1..] == [];
    assert Legal(s2, []) && Run(s2, []) == s2;
    assert Legal(s1, [Submit(7)]) && Run(s1, [Submit(7)]) == s2;
    assert Legal(s0, pre[1..]) && Run(s0, pre[1..]) == s2;
    assert Legal(INIT, pre) && Run(INIT, pre) == s2;
  }

  // ---------------------------------------------------------------- loop_run_inloop

  /** `all` is a merge of a and b: each request went to exactly one of them, in order. */
  ghost predicate Merge(all: seq<Task>, a: seq<Task>, b: seq<Task>)
    decreases |all|
  {
    if all == [] then a == [] && b == []
    else
      var n := |all| - 1;
      || (a != [] && a[|a| - 1] == all[n] && Merge(all[..n], a[..|a| - 1], b))
      || (b != [] && b[|b| - 1] == all[n] && Merge(all[..n], a, b[..|b| - 1]))
  }

  lemma MergeLeft(all: seq<Task>, a: seq<Task>, b: seq<Task>, x: Task)
    requires Merge(all, a, b)
    ensures Merge(all + [x], a + [x], b)
  {
    assert (all + [x])[..|all|] == all && (a + [x])[..|a|] == a;
  }

  lemma MergeRight(all: seq<Task>, a: seq<Task>, b: seq<Task>, x: Task)
    requires Merge(all, a, b)
    ensures Merge(all + [x], a, b + [x])
  {
    assert (all + [x])[..|all|] == all && (b + [x])[..|b|] == b;
  }

  lemma {:induction false} RunMerges(s: State, steps: seq<Step>)
    requires Legal(s, steps) && Merge(s.requests, s.inlined, s.submitted)
    ensures var s' := Run(s, steps); Merge(s'.requests, s'.inlined, s'.submitted)
    decreases |steps|
  {
    if steps != [] {
      match steps[0] {
        case Submit(task) => MergeRight(s.requests, s.inlined, s.submitted, task);
        case RunInloop(task, onLoopThread) =>
          MergeRight(s.requests, s.inlined, s.submitted, task);
          MergeLeft(s.requests, s.inlined, s.submitted, task);
        case _ =>
      }
      RunMerges(Apply(s, steps[0]), steps[1..]);
    }
  }

  /** Every request, by loop_async or loop_run_inloop, is either run in place or submitted, once. */
  lemma RequestsSplit(s: State)
    requires Reachable(s)
    ensures Merge(s.requests, s.inlined, s.submitted)
  {
    var steps :| Legal(INIT, steps) && Run(INIT, steps) == s;
    RunMerges(INIT, steps);
  }

  // Which of the two, read off the steps alone

  /** loop_run_inloop after the steps `before` runs its task in the calling thread: the loop has not
      started, the caller is the loop's own thread, or the loop was told to quit. */
  predicate InPlace(before: seq<Step>, onLoopThread: bool) {
    Start !in before || onLoopThread || Quit in before
  }

  /** The tasks that were run in the calling thread, in order. */
  function RunInPlace(steps: seq<Step>): seq<Task> {
    if steps == [] then []
    else
      var before, e := steps[..|steps| - 1], steps[|steps| - 1];
      RunInPlace(before) + if e.RunInloop? && InPlace(before, e.onLoopThread) then [e.task] else []
  }

  /** The tasks that went to the loop's queue: those of loop_async, and those of loop_run_inloop that
      were not run in place. */
  function SentToLoop(steps: seq<Step>): seq<Task> {
    if steps == [] then []
    else
      var before, e := steps[..|steps| - 1], steps[|steps| - 1];
      SentToLoop(before) +
        if e.Submit? || (e.RunInloop? && !InPlace(before, e.onLoopThread)) then [e.task] else []
  }

  lemma {:induction false} RunLast(s: State, steps: seq<Step>)
    requires steps != [] && Legal(s, steps)
    ensures var n := |steps| - 1;
      && Legal(s, steps[..n]) && Enabled(Run(s, steps[..n]), steps[n])
      && Run(s, steps) == Apply(Run(s, steps[..n]), steps[n])
    decreases |steps|
  {
    if |steps| == 1 {
      assert steps[1..] == [] && steps[..0] == [];
    } else {
      var n := |steps| - 1;
      RunLast(Apply(s, steps[0]), steps[1..]);
      assert steps[..n][1..] == steps[1..][..n - 1];
    }
  }

  /** One call more. */
  lemma PlacedNext(before: seq<Step>, e: Step)
    ensures RunInPlace(before + [e]) ==
            RunInPlace(before) + if e.RunInloop? && InPlace(before, e.onLoopThread) then [e.task] else []
    ensures SentToLoop(before + [e]) ==
            SentToLoop(before) +
            if e.Submit? || (e.RunInloop? && !InPlace(before, e.onLoopThread)) then [e.task] else []
  {
    assert (before + [e])[..|before|] == before;
  }

  /** What a step does with its task. */
  lemma StepPlaces(s: State, e: Step)
    requires Enabled(s, e)
    ensures var s', now := Apply(s, e), e.RunInloop? && (!s.started || e.onLoopThread || s.quited);
      && s'.inlined == s.inlined + (if now then [e.task] else [])
      && s'.submitted == s.submitted + (if e.Submit? || (e.RunInloop? && !now) then [e.task] else [])
      && (s'.started <==> s.started || e == Start) && (s'.quited <==> s.quited || e == Quit)
  {
  }

  /** The state agrees with the steps that led to it. */
  predicate Placed(s: State, steps: seq<Step>) {
    && s.inlined == RunInPlace(steps) && s.submitted == SentToLoop(steps)
    && (s.started <==> Start in steps) && (s.quited <==> Quit in steps)
  }

  lemma PlacedStep(s: State, before: seq<Step>, e: Step, steps: seq<Step>)
    requires Enabled(s, e) && Placed(s, before) && steps == before + [e]
    ensures Placed(Apply(s, e), steps)
  {
    PlacedNext(before, e);
    StepPlaces(s, e);
  }

  lemma LastSplit(steps: seq<Step>)
    requires steps != []
    ensures steps == steps[..|steps| - 1] + [steps[|steps| - 1]]
  {
  }

  /** In every run the tasks run in place are exactly those of loop_run_inloop called before the loop
      started, on its own thread, or after the quit; all others of loop_run_inloop, and those of
      loop_async, were submitted; each in the order of the calls. */
  lemma {:induction false} RequestsPlaced(start: State, steps: seq<Step>)
    requires start == INIT && Legal(start, steps)
    ensures Placed(Run(start, steps), steps)
    decreases |steps|
  {
    if steps != [] {
      var before, e := steps[..|steps| - 1], steps[|steps| - 1];
      RunLast(start, steps);
      RequestsPlaced(start, before);
      LastSplit(steps);
      PlacedStep(Run(start, before), before, e, steps);
    }
  }
}
