/** The plain countdown the time wheel should agree with: every timer carries the number of
    time_wheel_step calls it still waits for. */
module WheelModel {
  import opened Memory

  const INT_MAX: nat := 0x7fff_ffff
  const U32: nat := 0x1_0000_0000

  type Unsigned = n: nat | n < 0x1_0000_0000

  /** `due` is the number of the call on which the timer fires next; `start` and `fires` record when
      it was submitted or refreshed and how often it fired since. */
  datatype Timer = Timer(remaining: nat, steps: Unsigned, due: nat, start: nat, fires: nat)

  datatype Fired = Fired(id: Addr, call: nat)

  datatype State = State(
    max: nat,
    index: nat,               // the current slot
    live: map<Addr, Timer>,
    next: Addr,
    firing: seq<Addr>,        // the timers of the current call whose callbacks have not run yet
    calls: nat,
    log: seq<Fired>)

  datatype Action =
    | Submit(steps: Unsigned)
    | Cancel(id: Addr)
    | Refresh(id: Addr)
    | BeginCall(order: seq<Addr>)
    | Fire(again: bool)

  function Init(max: nat): State {
    State(max, if max == 0 then 0 else max - 1, map[], 1, [], 0, [])
  }

  // ---------------------------------------------------------------- slots and waits

  /** An unsigned 32-bit difference stored in an int. */
  function AsInt(n: int): int {
    if n < -0x8000_0000 then n + U32 else n
  }

  /** index - steps, plus one round if negative: where refresh and re-arming put a bucket. */
  function Back(max: nat, index: nat, steps: Unsigned): int {
    var i := AsInt(index - steps);
    if i < 0 then i + max else i
  }

  /** That is a slot of the wheel. */
  predicate Fits(max: nat, index: nat, steps: Unsigned) {
    0 <= Back(max, index, steps) < max
  }

  /** Refresh stays inside the wheel exactly for steps up to a round beyond the current slot, and for
      steps so close to 2^32 that the difference wraps to a slot ahead. */
  lemma RefreshFitsExactly(max: nat, index: nat, steps: Unsigned)
    requires index < max <= INT_MAX
    ensures Fits(max, index, steps) <==> steps <= index + max || U32 - steps < max - index
  {
  }

  /** Re-arming does so one slot further on; steps 0 leaves the wheel when it stands at the last slot. */
  lemma RearmFitsExactly(max: nat, index: nat, steps: Unsigned)
    requires index < max <= INT_MAX
    ensures Fits(max, index + 1, steps) <==>
      ((steps != 0 || index + 1 < max) && steps <= index + 1 + max) || U32 - steps < max - (index + 1)
  {
  }

  /** How many calls until the slot b is reached when the wheel stands at index. */
  function Distance(max: nat, index: nat, b: nat): nat
    requires index < max && b < max
  {
    if b <= index then index - b + 1 else index + max - b + 1
  }

  /** How long a timer waits after submit.  The code's slot arithmetic yields steps + 1 only below
      max; at max it hits the current slot, above it falls back to a full round. */
  function First(max: nat, steps: nat): nat {
    if steps < max then steps + 1 else if steps == max then 1 else max
  }

  lemma FirstExact(max: nat, steps: nat)
    requires max > 0
    ensures First(max, steps) == steps + 1 <==> steps < max
    ensures 1 <= First(max, steps) <= max
  {
  }

  /** ... after refresh, which does not fall back. */
  function RefreshWait(max: nat, index: nat, steps: Unsigned): nat
    requires index < max <= INT_MAX && Fits(max, index, steps)
  {
    if steps <= max then First(max, steps)
    else if steps <= index + max then steps - max + 1
    else RefreshFitsExactly(max, index, steps); max + 1 - (U32 - steps)
  }

  /** ... and after a firing. */
  function AgainWait(max: nat, index: nat, steps: Unsigned): nat
    requires index < max <= INT_MAX && Fits(max, index + 1, steps)
  {
    if steps == 0 then max
    else if steps <= max then steps
    else if steps <= index + 1 + max then steps - max
    else RearmFitsExactly(max, index, steps); max - (U32 - steps)
  }

  /** The arithmetic of the slots is the countdown. */
  lemma BackIsWait(max: nat, index: nat, steps: Unsigned)
    requires index < max <= INT_MAX && Fits(max, index, steps)
    ensures Distance(max, index, Back(max, index, steps)) == RefreshWait(max, index, steps)
  {
  }

  /** The slot for more steps than the wheel has: one ahead, a full round away. */
  lemma AheadIsFirst(max: nat, index: nat, steps: nat)
    requires index < max && steps > max
    ensures Distance(max, index, if index + 1 >= max then 0 else index + 1) == First(max, steps)
  {
  }

  /** A bucket put back from the call that left the wheel at index waits for `steps` calls, if the
      wheel has that many. */
  lemma AgainIsWait(max: nat, index: nat, steps: Unsigned)
    requires index < max <= INT_MAX && Fits(max, index + 1, steps)
    ensures Distance(max, index, Back(max, index + 1, steps)) == AgainWait(max, index, steps)
    ensures 1 <= steps <= max ==> AgainWait(max, index, steps) == steps
  {
  }

  /** Moving the wheel one slot back brings every other slot one call closer. */
  lemma TurnLowers(max: nat, index: nat, b: nat)
    requires index < max && b < max && b != index
    ensures Distance(max, if index == 0 then max - 1 else index - 1, b) == Distance(max, index, b) - 1
    ensures Distance(max, index, b) > 1
  {
  }

  // ---------------------------------------------------------------- steps

  /** The timers whose time has come. */
  ghost predicate IsOrder(s: State, order: seq<Addr>) {
    && Distinct(order)
    && forall id :: id in order <==> id in s.live && s.live[id].remaining == 1
  }

  /** Callbacks may submit; cancel and refresh happen between calls only.  A timer is put back, by
      its callback or by refresh, only where that stays inside the wheel. */
  ghost predicate Enabled(s: State, a: Action) {
    s.index < s.max <= INT_MAX &&
    match a
    case Submit(_) => true
    case Cancel(id) => s.firing == [] && id in s.live
    case Refresh(id) => s.firing == [] && id in s.live && Fits(s.max, s.index, s.live[id].steps)
    case BeginCall(order) => s.firing == [] && IsOrder(s, order)
    case Fire(again) =>
      && s.firing != [] && s.firing[0] in s.live
      && (again ==> Fits(s.max, s.index + 1, s.live[s.firing[0]].steps))
  }

  function Fresh(s: State, steps: Unsigned, wait: nat): Timer {
    Timer(wait, steps, s.calls + wait, s.calls, 0)
  }

  function Tick(live: map<Addr, Timer>): map<Addr, Timer> {
    map id | id in live :: Lower(live[id])
  }

  function Lower(t: Timer): Timer {
    t.(remaining := if t.remaining == 0 then 0 else t.remaining - 1)
  }

  function Again(t: Timer, wait: nat): Timer {
    t.(remaining := wait, due := t.due + wait, fires := t.fires + 1)
  }

  function DoSubmit(s: State, steps: Unsigned): State {
    s.(live := s.live[s.next := Fresh(s, steps, First(s.max, steps))], next := s.next + 1)
  }

  function DoRefresh(s: State, id: Addr): State
    requires s.index < s.max <= INT_MAX && id in s.live && Fits(s.max, s.index, s.live[id].steps)
  {
    var steps := s.live[id].steps;
    s.(live := s.live[id := Fresh(s, steps, RefreshWait(s.max, s.index, steps))])
  }

  function DoBegin(s: State, order: seq<Addr>): State
    requires s.max > 0
  {
    s.(index := if s.index == 0 then s.max - 1 else s.index - 1,
       live := Tick(s.live), firing := order, calls := s.calls + 1)
  }

  function DoFire(s: State, again: bool): State
    requires s.firing != [] && s.firing[0] in s.live
    requires again ==> s.index < s.max <= INT_MAX && Fits(s.max, s.index + 1, s.live[s.firing[0]].steps)
  {
    var id := s.firing[0];
    var s1 := s.(firing := s.firing[1..], log := s.log + [Fired(id, s.calls)]);
    if again then s1.(live := s.live[id := Again(s.live[id], AgainWait(s.max, s.index, s.live[id].steps))])
    else s1.(live := s.live - {id})
  }

  ghost function Apply(s: State, a: Action): State
    requires Enabled(s, a)
  {
    match a
    case Submit(steps) => DoSubmit(s, steps)
    case Cancel(id) => s.(live := s.live - {id})
    case Refresh(id) => DoRefresh(s, id)
    case BeginCall(order) => DoBegin(s, order)
    case Fire(again) => DoFire(s, again)
  }

  /** How many calls apart the firings of a looping timer are. */
  function Period(max: nat, steps: nat): nat {
    if steps == 0 then max else steps
  }

  /** The call on which a timer started at call `start` fires for the (k+1)-th time. */
  function NthCall(max: nat, start: nat, steps: nat, k: nat): nat {
    if k == 0 then start + First(max, steps) else NthCall(max, start, steps, k - 1) + Period(max, steps)
  }

  lemma {:induction false} NthCallIs(max: nat, start: nat, steps: nat, k: nat)
    ensures NthCall(max, start, steps, k) == start + First(max, steps) + k * Period(max, steps)
  {
    if k > 0 { NthCallIs(max, start, steps, k - 1); }
  }

  ghost predicate TimerOk(s: State, id: Addr) {
    && (id in s.firing ==> id in s.live)
    && (id in s.live ==>
      var t := s.live[id];
      && 0 < id < s.next
      && (t.remaining == 0 <==> id in s.firing)
      && s.calls + t.remaining == t.due
      && (t.steps <= s.max ==> t.due == NthCall(s.max, t.start, t.steps, t.fires)))
  }

  ghost predicate Inv(s: State) {
    && s.index < s.max <= INT_MAX && s.next > 0
    && Distinct(s.firing)
    && forall id :: TimerOk(s, id)
  }

  lemma StepKeepsInv(s: State, a: Action)
    requires Inv(s) && Enabled(s, a)
    ensures Inv(Apply(s, a))
  {
    var s' := Apply(s, a);
    if a.Fire? { assert s.firing == [s.firing[0]] + s.firing[1..]; }
    forall id ensures TimerOk(s', id) {
      assert TimerOk(s, id);
      if a.Fire? { assert TimerOk(s, s.firing[0]); }
    }
  }

  ghost predicate Legal(s: State, actions: seq<Action>)
    decreases |actions|
  {
    actions == [] || (Enabled(s, actions[0]) && Legal(Apply(s, actions[0]), actions[1..]))
  }

  ghost function Run(s: State, actions: seq<Action>): State
    requires Legal(s, actions)
    decreases |actions|
  {
    if actions == [] then s else Run(Apply(s, actions[0]), actions[1..])
  }

  /** Some legal run leads from s to s'. */
  ghost predicate Leads(s: State, s': State) {
    exists actions :: Legal(s, actions) && Run(s, actions) == s'
  }

  lemma {:induction false} RunAppend(s: State, a: seq<Action>, b: seq<Action>)
    requires Legal(s, a) && Legal(Run(s, a), b)
    ensures Legal(s, a + b) && Run(s, a + b) == Run(Run(s, a), b)
    decreases |a|
  {
    if a == [] {
      assert a + b == b;
    } else {
      assert (a + b)[0] == a[0] && (a + b)[1..] == a[1..] + b;
      RunAppend(Apply(s, a[0]), a[1..], b);
    }
  }

  lemma LeadsSame(s: State)
    ensures Leads(s, s)
  {
    assert Legal(s, []) && Run(s, []) == s;
  }

  lemma LeadsStep(s: State, a: Action)
    requires Enabled(s, a)
    ensures Leads(s, Apply(s, a))
  {
    var s' := Apply(s, a);
    assert [a][1..] == [];
    assert Legal(s', []) && Run(s', []) == s';
    assert Legal(s, [a]) && Run(s, [a]) == s';
  }

  lemma LeadsTrans(s: State, s': State, s'': State)
    requires Leads(s, s') && Leads(s', s'')
    ensures Leads(s, s'')
  {
    var a :| Legal(s, a) && Run(s, a) == s';
    var b :| Legal(s', b) && Run(s', b) == s'';
    RunAppend(s, a, b);
  }

  lemma {:induction false} RunKeepsInv(s: State, actions: seq<Action>)
    requires Inv(s) && Legal(s, actions)
    ensures Inv(Run(s, actions))
    decreases |actions|
  {
    if actions != [] {
      StepKeepsInv(s, actions[0]);
      RunKeepsInv(Apply(s, actions[0]), actions[1..]);
    }
  }

  /** In every run, a timer that fires now is one whose wait is over: it was submitted or refreshed at
      call `start` with steps < max, and this is call start + (steps + 1) + k * steps for the k firings
      it had since (a round for each firing if steps is 0).  Every other live timer is still ahead of
      its call. */
  lemma DueOnSchedule(max: nat, actions: seq<Action>, id: Addr)
    requires 0 < max <= INT_MAX && Legal(Init(max), actions)
    ensures var s := Run(Init(max), actions);
      id in s.live && s.live[id].steps < max ==>
        var t := s.live[id];
        var call := t.start + (t.steps + 1) + t.fires * Period(max, t.steps);
        if id in s.firing then s.calls == call else s.calls < call
  {
    RunKeepsInv(Init(max), actions);
    RunMax(Init(max), actions);
    var s := Run(Init(max), actions);
    assert TimerOk(s, id);
    if id in s.live && s.live[id].steps < max {
      NthCallIs(max, s.live[id].start, s.live[id].steps, s.live[id].fires);
    }
  }

  lemma {:induction false} RunMax(s: State, actions: seq<Action>)
    requires Legal(s, actions)
    ensures Run(s, actions).max == s.max
    decreases |actions|
  {
    if actions != [] { RunMax(Apply(s, actions[0]), actions[1..]); }
  }

  /** The calls on which timer id fired, in order. */
  function Firings(log: seq<Fired>, id: Addr): seq<nat> {
    if log == [] then []
    else
      var e := log[|log| - 1];
      Firings(log[..|log| - 1], id) + if e.id == id then [e.call] else []
  }

  lemma FiringsAppend(log: seq<Fired>, e: Fired, id: Addr)
    ensures Firings(log + [e], id) == Firings(log, id) + if e.id == id then [e.call] else []
  {
    assert (log + [e])[..|log|] == log;
  }

  /** The firings of timer id so far are the first of its schedule. */
  ghost predicate OnSchedule(s: State, id: Addr, start: nat, steps: Unsigned) {
    var calls := Firings(s.log, id);
    && id < s.next
    && (forall k :: 0 <= k < |calls| ==> calls[k] == NthCall(s.max, start, steps, k))
    && (id in s.live ==> s.live[id].start == start && s.live[id].steps == steps && s.live[id].fires == |calls|)
  }

  lemma ScheduleStep(s: State, a: Action, id: Addr, start: nat, steps: Unsigned)
    requires Inv(s) && Enabled(s, a) && a != Refresh(id) && steps <= s.max
    requires OnSchedule(s, id, start, steps)
    ensures OnSchedule(Apply(s, a), id, start, steps)
  {
    if a.Fire? {
      assert TimerOk(s, s.firing[0]);
      FiringsAppend(s.log, Fired(s.firing[0], s.calls), id);
    }
  }

  lemma {:induction false} ScheduleRun(s: State, actions: seq<Action>, id: Addr, start: nat, steps: Unsigned)
    requires Inv(s) && Legal(s, actions) && Refresh(id) !in actions && steps <= s.max
    requires OnSchedule(s, id, start, steps)
    ensures OnSchedule(Run(s, actions), id, start, steps)
    decreases |actions|
  {
    if actions != [] {
      assert actions[0] in actions;
      StepKeepsInv(s, actions[0]);
      ScheduleStep(s, actions[0], id, start, steps);
      ScheduleRun(Apply(s, actions[0]), actions[1..], id, start, steps);
    }
  }

  /** No timer fired before it was submitted. */
  ghost predicate LogOld(s: State) {
    forall e :: e in s.log ==> e.id < s.next
  }

  lemma {:induction false} RunLogOld(s: State, actions: seq<Action>)
    requires Inv(s) && Legal(s, actions) && LogOld(s)
    ensures LogOld(Run(s, actions))
    decreases |actions|
  {
    if actions != [] {
      StepKeepsInv(s, actions[0]);
      if actions[0].Fire? { assert TimerOk(s, s.firing[0]); }
      RunLogOld(Apply(s, actions[0]), actions[1..]);
    }
  }

  lemma {:induction false} NoFirings(log: seq<Fired>, id: Addr)
    requires forall e :: e in log ==> e.id != id
    ensures Firings(log, id) == []
    decreases |log|
  {
    if log != [] {
      assert log[|log| - 1] in log;
      NoFirings(log[..|log| - 1], id);
    }
  }

  /** In every run, a timer that is submitted with steps <= max after `start` calls and never refreshed
      fires for the (k+1)-th time on call start + First + k * Period, steps + 1 and steps below max;
      and as long as it is neither cancelled nor declined it has missed none of these calls. */
  lemma FiresOnSchedule(max: nat, before: seq<Action>, steps: Unsigned, after: seq<Action>)
    requires 0 < max <= INT_MAX && steps <= max && Legal(Init(max), before)
    requires var s0 := Run(Init(max), before);
      && Enabled(s0, Submit(steps)) && Legal(Apply(s0, Submit(steps)), after)
      && Refresh(s0.next) !in after
    ensures var s0 := Run(Init(max), before);
      var s, id := Run(Apply(s0, Submit(steps)), after), s0.next;
      var calls := Firings(s.log, id);
      && (forall k :: 0 <= k < |calls| ==> calls[k] == s0.calls + First(max, steps) + k * Period(max, steps))
      && (id in s.live && id !in s.firing ==>
          s.calls < s0.calls + First(max, steps) + |calls| * Period(max, steps))
  {
    var s0 := Run(Init(max), before);
    var s1, id := Apply(s0, Submit(steps)), s0.next;
    RunKeepsInv(Init(max), before);
    RunMax(Init(max), before);
    RunLogOld(Init(max), before);
    StepKeepsInv(s0, Submit(steps));
    NoFirings(s0.log, id);
    assert OnSchedule(s1, id, s0.calls, steps);
    ScheduleRun(s1, after, id, s0.calls, steps);
    RunKeepsInv(s1, after);
    RunMax(s1, after);
    var s := Run(s1, after);
    var calls := Firings(s.log, id);
    forall k | 0 <= k <= |calls|
      ensures NthCall(max, s0.calls, steps, k) == s0.calls + First(max, steps) + k * Period(max, steps)
    {
      NthCallIs(max, s0.calls, steps, k);
    }
    assert TimerOk(s, id);
  }

  // ---------------------------------------------------------------- one call

  function Ids(log: seq<Fired>): seq<Addr> {
    seq(|log|, i requires 0 <= i < |log| => log[i].id)
  }

  /** Since the call that began in s0 with the timers `order`. */
  ghost predicate InCall(s0: State, order: seq<Addr>, s: State) {
    && s.calls == s0.calls + 1
    && s0.log <= s.log
    && Ids(s.log[|s0.log|..]) + s.firing == order
    && forall e :: e in s.log[|s0.log|..] ==> e.call == s.calls
  }

  lemma InCallFire(s0: State, order: seq<Addr>, s: State, s': State)
    requires InCall(s0, order, s) && s.firing != []
    requires s'.log == s.log + [Fired(s.firing[0], s.calls)] && s'.firing == s.firing[1..] && s'.calls == s.calls
    ensures InCall(s0, order, s')
  {
    var e := Fired(s.firing[0], s.calls);
    var part := s.log[|s0.log|..];
    assert s'.log[|s0.log|..] == part + [e];
    assert Ids(part + [e]) == Ids(part) + [e.id];
    assert s.firing == [s.firing[0]] + s'.firing;
  }

  lemma InCallStep(s0: State, order: seq<Addr>, s: State, a: Action)
    requires InCall(s0, order, s) && Enabled(s, a) && (a.Submit? || a.Fire?)
    ensures InCall(s0, order, Apply(s, a))
  {
    if a.Fire? { InCallFire(s0, order, s, Apply(s, a)); }
  }

  lemma {:induction false} InCallRun(s0: State, order: seq<Addr>, s: State, actions: seq<Action>)
    requires InCall(s0, order, s) && Legal(s, actions)
    requires forall a :: a in actions ==> a.Submit? || a.Fire?
    ensures InCall(s0, order, Run(s, actions))
    decreases |actions|
  {
    if actions != [] {
      assert actions[0] in actions;
      InCallStep(s0, order, s, actions[0]);
      InCallRun(s0, order, Apply(s, actions[0]), actions[1..]);
    }
  }

  /** A complete call, whatever its callbacks submit, fires exactly the timers at remaining 1, each
      once; no timer submitted meanwhile fires in it. */
  lemma CallFiresExactly(s0: State, order: seq<Addr>, actions: seq<Action>)
    requires Enabled(s0, BeginCall(order)) && Legal(Apply(s0, BeginCall(order)), actions)
    requires forall a :: a in actions ==> a.Submit? || a.Fire?
    requires Run(Apply(s0, BeginCall(order)), actions).firing == []
    ensures var s := Run(Apply(s0, BeginCall(order)), actions);
      && s0.log <= s.log
      && Ids(s.log[|s0.log|..]) == order
      && Distinct(order)
      && forall id :: id in order <==> id in s0.live && s0.live[id].remaining == 1
  {
    var s1 := Apply(s0, BeginCall(order));
    assert s1.log[|s0.log|..] == [];
    InCallRun(s0, order, s1, actions);
  }

  // ---------------------------------------------------------------- callbacks

  /** What a bucket's callback returns, and the timers it submits.  Asking for another round counts
      only where the bucket then stays inside the wheel (RearmFitsExactly). */
  datatype Callback = Callback(again: bool, submits: seq<Unsigned>)

  function SubmitMany(s: State, submits: seq<Unsigned>): (s': State)
    ensures s'.firing == s.firing && s'.log == s.log && s'.calls == s.calls && s'.max == s.max && s'.index == s.index
    decreases |submits|
  {
    if submits == [] then s else SubmitMany(DoSubmit(s, submits[0]), submits[1..])
  }

  function FireWith(s: State, cb: Callback): (s': State)
    requires s.firing != [] && s.index < s.max <= INT_MAX
    ensures s'.index == s.index && s'.max == s.max && s'.firing == s.firing[1..]
  {
    var s1 := SubmitMany(s, cb.submits);
    var id := s.firing[0];
    if id !in s1.live then s1.(firing := s.firing[1..])
    else DoFire(s1, cb.again && Fits(s.max, s.index + 1, s1.live[id].steps))
  }

  function FirstOf(cbs: seq<Callback>): Callback {
    if cbs == [] then Callback(false, []) else cbs[0]
  }

  function Rest(cbs: seq<Callback>): seq<Callback> {
    if cbs == [] then [] else cbs[1..]
  }

  /** All callbacks of a call, in order. */
  function FireAll(s: State, cbs: seq<Callback>): State
    requires s.index < s.max <= INT_MAX
    decreases |s.firing|
  {
    if s.firing == [] then s
    else FireAll(FireWith(s, FirstOf(cbs)), Rest(cbs))
  }

  lemma {:induction false} SubmitManyKeeps(s: State, submits: seq<Unsigned>)
    requires Inv(s)
    ensures Inv(SubmitMany(s, submits))
    ensures forall id :: id in s.live ==>
              id in SubmitMany(s, submits).live && SubmitMany(s, submits).live[id] == s.live[id]
    decreases |submits|
  {
    if submits != [] {
      StepKeepsInv(s, Submit(submits[0]));
      assert TimerOk(s, s.next);
      SubmitManyKeeps(DoSubmit(s, submits[0]), submits[1..]);
    }
  }

  lemma FireWithKeeps(s: State, cb: Callback)
    requires Inv(s) && s.firing != []
    ensures var s' := FireWith(s, cb);
      && Inv(s') && s.firing[0] in s.live
      && s'.firing == s.firing[1..] && s'.calls == s.calls && s'.log == s.log + [Fired(s.firing[0], s.calls)]
  {
    var s1 := SubmitMany(s, cb.submits);
    SubmitManyKeeps(s, cb.submits);
    assert TimerOk(s, s.firing[0]);
    StepKeepsInv(s1, Fire(cb.again && Fits(s.max, s.index + 1, s1.live[s.firing[0]].steps)));
  }

  /** Whatever the callbacks do, the call fires exactly its timers, and ends. */
  lemma {:induction false} FireAllFires(s0: State, order: seq<Addr>, s: State, cbs: seq<Callback>)
    requires InCall(s0, order, s) && Inv(s)
    ensures var s' := FireAll(s, cbs); InCall(s0, order, s') && Inv(s') && s'.firing == []
    decreases |s.firing|
  {
    if s.firing != [] {
      var s1 := FireWith(s, FirstOf(cbs));
      FireWithKeeps(s, FirstOf(cbs));
      InCallFire(s0, order, s, s1);
      FireAllFires(s0, order, s1, Rest(cbs));
    }
  }

  // The same callbacks as legal runs

  lemma {:induction false} SubmitManyLeads(s: State, submits: seq<Unsigned>)
    requires s.index < s.max <= INT_MAX
    ensures Leads(s, SubmitMany(s, submits))
    decreases |submits|
  {
    if submits == [] {
      LeadsSame(s);
    } else {
      var s' := DoSubmit(s, submits[0]);
      LeadsStep(s, Submit(submits[0]));
      SubmitManyLeads(s', submits[1..]);
      LeadsTrans(s, s', SubmitMany(s', submits[1..]));
    }
  }

  lemma FireWithLeads(s: State, cb: Callback)
    requires Inv(s) && s.firing != []
    ensures Leads(s, FireWith(s, cb))
  {
    var s1 := SubmitMany(s, cb.submits);
    SubmitManyKeeps(s, cb.submits);
    SubmitManyLeads(s, cb.submits);
    assert TimerOk(s, s.firing[0]);
    LeadsStep(s1, Fire(cb.again && Fits(s.max, s.index + 1, s1.live[s.firing[0]].steps)));
    LeadsTrans(s, s1, FireWith(s, cb));
  }

  lemma {:induction false} FireAllLeads(s: State, cbs: seq<Callback>)
    requires Inv(s)
    ensures Leads(s, FireAll(s, cbs))
    decreases |s.firing|
  {
    if s.firing == [] {
      LeadsSame(s);
    } else {
      var s1 := FireWith(s, FirstOf(cbs));
      FireWithKeeps(s, FirstOf(cbs));
      FireWithLeads(s, FirstOf(cbs));
      FireAllLeads(s1, Rest(cbs));
      LeadsTrans(s, s1, FireAll(s1, Rest(cbs)));
    }
  }

  /** A whole call is a legal run of the actions. */
  lemma StepLeads(s: State, order: seq<Addr>, cbs: seq<Callback>)
    requires Inv(s) && Enabled(s, BeginCall(order))
    ensures Leads(s, FireAll(DoBegin(s, order), cbs))
  {
    var s' := DoBegin(s, order);
    StepKeepsInv(s, BeginCall(order));
    LeadsStep(s, BeginCall(order));
    FireAllLeads(s', cbs);
    LeadsTrans(s, s', FireAll(s', cbs));
  }
}
