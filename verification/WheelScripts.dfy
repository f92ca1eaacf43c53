/** What the callbacks of one call of the wheel answer and submit, against what becomes of the timers;
    and how often a timer that is always put back has fired. */
module WheelScripts {
  import opened Memory
  import opened WheelModel

  /** The i-th callback of a call. */
  function CallbackAt(cbs: seq<Callback>, i: nat): Callback {
    if i < |cbs| then cbs[i] else Callback(false, [])
  }

  /** What the first n callbacks submit, in order. */
  function Submits(cbs: seq<Callback>, n: nat): seq<Unsigned> {
    if n == 0 then [] else FirstOf(cbs).submits + Submits(Rest(cbs), n - 1)
  }

  /** Timer id was submitted in the present call. */
  ghost predicate Waits(s: State, id: Addr, steps: Unsigned) {
    var wait := First(s.max, steps);
    id in s.live && s.live[id] == Timer(wait, steps, s.calls + wait, s.calls, 0)
  }

  /** The timers `subs` were submitted, in order, since s. */
  ghost predicate Submitted(s: State, subs: seq<Unsigned>, s': State) {
    && s'.next == s.next + |subs| && s'.calls == s.calls && s'.max == s.max
    && forall j :: 0 <= j < |subs| ==> Waits(s', s.next + j, subs[j])
  }

  /** A timer whose callback answered is live exactly if it is to go on and stays inside the wheel; it
      then waits for its next call, and has one firing more. */
  ghost predicate Settled(s: State, id: Addr, cb: Callback, s': State)
    requires id in s.live && s.index < s.max <= INT_MAX
  {
    var t := s.live[id];
    if cb.again && Fits(s.max, s.index + 1, t.steps) then
      var wait := AgainWait(s.max, s.index, t.steps);
      id in s'.live && s'.live[id] == Timer(wait, t.steps, t.due + wait, t.start, t.fires + 1)
    else id !in s'.live
  }

  /** Timer id is as it was. */
  ghost predicate Same(s: State, s': State, id: Addr) {
    (id in s'.live <==> id in s.live) && (id in s.live && id in s'.live ==> s'.live[id] == s.live[id])
  }

  /** Every timer submitted before stays as it was, those of `touched` excepted. */
  ghost predicate Others(s: State, touched: seq<Addr>, s': State) {
    forall id: Addr :: id < s.next && id !in touched ==> Same(s, s', id)
  }

  lemma WaitsOn(s1: State, s': State, id: Addr, steps: Unsigned)
    requires Waits(s1, id, steps) && Same(s1, s', id) && s'.max == s1.max && s'.calls == s1.calls
    ensures Waits(s', id, steps)
  {
  }

  lemma JoinSubmitted(s: State, a: seq<Unsigned>, s1: State, b: seq<Unsigned>, s': State, touched: seq<Addr>)
    requires Submitted(s, a, s1) && Submitted(s1, b, s') && Others(s1, touched, s')
    requires forall id :: id in touched ==> id < s.next
    ensures Submitted(s, a + b, s')
  {
    forall j | 0 <= j < |a + b| ensures Waits(s', s.next + j, (a + b)[j]) {
      if j < |a| {
        assert Waits(s1, s.next + j, a[j]) && Same(s1, s', s.next + j);
        WaitsOn(s1, s', s.next + j, a[j]);
      } else {
        assert Waits(s', s1.next + (j - |a|), b[j - |a|]);
      }
    }
  }

  lemma SubmitDoes(s: State, steps: Unsigned)
    ensures Submitted(s, [steps], DoSubmit(s, steps)) && Others(s, [], DoSubmit(s, steps))
  {
  }

  lemma {:induction false} SubmitManyDoes(s: State, subs: seq<Unsigned>)
    ensures Submitted(s, subs, SubmitMany(s, subs)) && Others(s, [], SubmitMany(s, subs))
    decreases |subs|
  {
    if subs != [] {
      var s1 := DoSubmit(s, subs[0]);
      var s' := SubmitMany(s1, subs[1..]);
      SubmitDoes(s, subs[0]);
      SubmitManyDoes(s1, subs[1..]);
      JoinSubmitted(s, [subs[0]], s1, subs[1..], s', []);
      assert [subs[0]] + subs[1..] == subs;
      OthersTrans(s, [], s1, [], s');
    }
  }

  lemma OthersTrans(s: State, a: seq<Addr>, s1: State, b: seq<Addr>, s': State)
    requires Others(s, a, s1) && Others(s1, b, s') && s.next <= s1.next
    ensures Others(s, a + b, s')
  {
    forall id: Addr | id < s.next && id !in a + b ensures Same(s, s', id) {
      assert Same(s, s1, id) && Same(s1, s', id);
    }
  }

  lemma FireWithDoes(s: State, cb: Callback)
    requires Inv(s) && s.firing != []
    ensures var s' := FireWith(s, cb);
      && s.firing[0] in s.live && Settled(s, s.firing[0], cb, s') && Submitted(s, cb.submits, s')
      && Others(s, [s.firing[0]], s')
  {
    var s1, s', id0 := SubmitMany(s, cb.submits), FireWith(s, cb), s.firing[0];
    assert TimerOk(s, id0);
    SubmitManyDoes(s, cb.submits);
    assert Same(s, s1, id0);
    forall j | 0 <= j < |cb.submits| ensures Waits(s', s.next + j, cb.submits[j]) {
      assert Waits(s1, s.next + j, cb.submits[j]);
    }
    forall id: Addr | id < s.next && id !in [id0] ensures Same(s, s', id) { assert Same(s, s1, id); }
  }

  /** What all callbacks of the rest of a call do. */
  ghost predicate Does(s: State, cbs: seq<Callback>, s': State)
    requires s.index < s.max <= INT_MAX
  {
    && Submitted(s, Submits(cbs, |s.firing|), s')
    && (forall i :: 0 <= i < |s.firing| ==>
      s.firing[i] in s.live && Settled(s, s.firing[i], CallbackAt(cbs, i), s'))
    && Others(s, s.firing, s')
  }

  lemma SettledLater(s: State, s1: State, id: Addr, cb: Callback, s': State)
    requires id in s.live && s.index < s.max <= INT_MAX && s1.index == s.index && s1.max == s.max
    requires (Same(s, s1, id) && id in s1.live && Settled(s1, id, cb, s'))
             || (Settled(s, id, cb, s1) && Same(s1, s', id))
    ensures Settled(s, id, cb, s')
  {
  }

  lemma {:induction false} FireAllDoes(s: State, cbs: seq<Callback>)
    requires Inv(s)
    ensures Does(s, cbs, FireAll(s, cbs))
    decreases |s.firing|
  {
    if s.firing != [] {
      var s1 := FireWith(s, FirstOf(cbs));
      FireWithKeeps(s, FirstOf(cbs));
      FireWithDoes(s, FirstOf(cbs));
      FireAllDoes(s1, Rest(cbs));
      FiringOld(s);
      DoesMore(s, cbs, s1, FireAll(s1, Rest(cbs)));
    }
  }

  lemma DoesMore(s: State, cbs: seq<Callback>, s1: State, s': State)
    requires s.firing != [] && Distinct(s.firing) && s1.firing == s.firing[1..] && s.index < s.max <= INT_MAX
    requires s1.index == s.index && s1.max == s.max
    requires forall id :: id in s.firing ==> id in s.live && id < s.next
    requires Settled(s, s.firing[0], FirstOf(cbs), s1) && Submitted(s, FirstOf(cbs).submits, s1)
    requires Others(s, [s.firing[0]], s1) && Does(s1, Rest(cbs), s')
    ensures Does(s, cbs, s')
  {
    assert s.firing == [s.firing[0]] + s1.firing;
    forall id | id in s1.firing ensures id < s.next { assert id in s.firing; }
    JoinSubmitted(s, FirstOf(cbs).submits, s1, Submits(Rest(cbs), |s1.firing|), s', s1.firing);
    OthersTrans(s, [s.firing[0]], s1, s1.firing, s');
    forall i | 0 <= i < |s.firing| ensures s.firing[i] in s.live && Settled(s, s.firing[i], CallbackAt(cbs, i), s') {
      SettledAll(s, cbs, s1, s', i);
    }
  }

  lemma SettledAll(s: State, cbs: seq<Callback>, s1: State, s': State, i: nat)
    requires i < |s.firing| && Distinct(s.firing) && s1.firing == s.firing[1..] && s.index < s.max <= INT_MAX
    requires s1.index == s.index && s1.max == s.max && s.next <= s1.next
    requires s.firing[i] in s.live && s.firing[i] < s.next
    requires i == 0 ==> Settled(s, s.firing[0], FirstOf(cbs), s1)
    requires Others(s, [s.firing[0]], s1) && Does(s1, Rest(cbs), s')
    ensures Settled(s, s.firing[i], CallbackAt(cbs, i), s')
  {
    var id := s.firing[i];
    if i == 0 {
      forall k | 0 <= k < |s1.firing| ensures s1.firing[k] != id { assert s.firing[k + 1] != id; }
      assert Same(s1, s', id);
    } else {
      assert s1.firing[i - 1] == id && CallbackAt(Rest(cbs), i - 1) == CallbackAt(cbs, i);
      assert id !in [s.firing[0]] && Same(s, s1, id);
    }
    SettledLater(s, s1, id, CallbackAt(cbs, i), s');
  }

  lemma FiringOld(s: State)
    requires Inv(s)
    ensures forall id :: id in s.firing ==> id in s.live && id < s.next
  {
    forall id | id in s.firing ensures id in s.live && id < s.next { assert TimerOk(s, id); }
  }

  /** The call that began in s0 with the timers `order` has ended in s. */
  ghost predicate CallFollows(s0: State, order: seq<Addr>, cbs: seq<Callback>, s: State)
    requires s0.index < s0.max <= INT_MAX
  {
    && IsOrder(s0, order) && InCall(s0, order, s) && s.firing == [] && s.max == s0.max
    && s.index == (if s0.index == 0 then s0.max - 1 else s0.index - 1)
    && s.next == s0.next + |Submits(cbs, |order|)|
    && (forall i :: 0 <= i < |order| ==> order[i] in s0.live && Answered(s0, order[i], CallbackAt(cbs, i), s))
    && (forall id: Addr :: id < s0.next && id !in order ==> Lowered(s0, s, id))
    && forall j :: 0 <= j < |Submits(cbs, |order|)| ==> Waits(s, s0.next + j, Submits(cbs, |order|)[j])
  }

  /** Timer id fired, and its callback answered: it is live exactly if it goes on and its next slot is in
      the wheel, and then waits for it. */
  ghost predicate Answered(s0: State, id: Addr, cb: Callback, s: State)
    requires id in s0.live
  {
    var t := s0.live[id];
    && s.index < s.max <= INT_MAX
    && (id in s.live <==> cb.again && Fits(s.max, s.index + 1, t.steps))
    && (id in s.live ==>
      var wait := AgainWait(s.max, s.index, t.steps);
      s.live[id] == Timer(wait, t.steps, t.due + wait, t.start, t.fires + 1))
  }

  /** Timer id is one call closer to its firing, or as absent as before. */
  ghost predicate Lowered(s0: State, s: State, id: Addr) {
    && (id in s.live <==> id in s0.live)
    && (id in s.live ==>
      var t := s0.live[id];
      && s.live[id] == t.(remaining := s.live[id].remaining)
      && s.live[id].remaining == if t.remaining == 0 then 0 else t.remaining - 1)
  }

  lemma BeginAnswers(s0: State, order: seq<Addr>, id: Addr, cb: Callback, s: State)
    requires s0.max > 0 && id in s0.live && s0.index < s0.max <= INT_MAX
    requires var s1 := DoBegin(s0, order); id in s1.live && Settled(s1, id, cb, s)
    requires s.index == DoBegin(s0, order).index && s.max == s0.max
    ensures Answered(s0, id, cb, s)
  {
  }

  lemma {:induction false} FireAllWhere(s: State, cbs: seq<Callback>)
    requires s.index < s.max <= INT_MAX
    ensures FireAll(s, cbs).index == s.index && FireAll(s, cbs).max == s.max
    decreases |s.firing|
  {
    if s.firing != [] { FireAllWhere(FireWith(s, FirstOf(cbs)), Rest(cbs)); }
  }

  /** Every call ends so, whatever its callbacks answer and submit. */
  lemma CallEnds(s0: State, order: seq<Addr>, cbs: seq<Callback>)
    requires Inv(s0) && Enabled(s0, BeginCall(order))
    ensures CallFollows(s0, order, cbs, FireAll(DoBegin(s0, order), cbs))
  {
    var s1 := DoBegin(s0, order);
    var s := FireAll(s1, cbs);
    StepKeepsInv(s0, BeginCall(order));
    assert s1.log[|s0.log|..] == [];
    FireAllFires(s0, order, s1, cbs);
    FireAllDoes(s1, cbs);
    FireAllWhere(s1, cbs);
    CallIs(s0, order, cbs, s);
  }

  lemma CallIs(s0: State, order: seq<Addr>, cbs: seq<Callback>, s: State)
    requires s0.index < s0.max <= INT_MAX && IsOrder(s0, order) && InCall(s0, order, s) && s.firing == []
    requires s.max == s0.max && s.index == DoBegin(s0, order).index && Does(DoBegin(s0, order), cbs, s)
    ensures CallFollows(s0, order, cbs, s)
  {
    var s1 := DoBegin(s0, order);
    forall i | 0 <= i < |order| ensures order[i] in s0.live && Answered(s0, order[i], CallbackAt(cbs, i), s) {
      assert s1.firing[i] == order[i];
      BeginAnswers(s0, order, order[i], CallbackAt(cbs, i), s);
    }
    forall id: Addr | id < s0.next && id !in order ensures Lowered(s0, s, id) { assert Same(s1, s, id); }
  }

  /** What a client does to the timers between calls: cancel removes one timer, and refresh lets one
      count anew, for steps + 1 calls if the wheel has more; all others are as they were. */
  lemma ClientEffects(s: State, a: Action, id: Addr)
    requires Inv(s) && Enabled(s, a)
    ensures a == Cancel(id) ==> id !in Apply(s, a).live
    ensures a == Refresh(id) ==>
      var t', steps := Apply(s, a).live[id], s.live[id].steps;
      && t'.start == s.calls && t'.fires == 0 && t'.steps == steps && t'.due == s.calls + t'.remaining
      && t'.remaining == Distance(s.max, s.index, Back(s.max, s.index, steps))
      && (steps < s.max ==> t'.remaining == steps + 1)
    ensures (a.Cancel? || a.Refresh?) && a.id != id ==> Same(s, Apply(s, a), id)
  {
    if a == Refresh(id) { BackIsWait(s.max, s.index, s.live[id].steps); }
  }

  // ---------------------------------------------------------------- a timer that is always put back

  /** The run neither cancels nor refreshes timer id, and its callback always asks for another round. */
  ghost predicate GoesOn(s: State, actions: seq<Action>, id: Addr)
    requires Legal(s, actions)
    decreases |actions|
  {
    actions == [] || (
      && actions[0] != Cancel(id) && actions[0] != Refresh(id)
      && (actions[0] == Fire(false) ==> s.firing[0] != id)
      && GoesOn(Apply(s, actions[0]), actions[1..], id))
  }

  lemma StaysLive(s: State, a: Action, id: Addr)
    requires Inv(s) && Enabled(s, a) && id in s.live && a != Cancel(id) && (a == Fire(false) ==> s.firing[0] != id)
    ensures id in Apply(s, a).live
  {
  }

  lemma {:induction false} RunGoesOn(s: State, actions: seq<Action>, id: Addr, start: nat, steps: Unsigned)
    requires Inv(s) && Legal(s, actions) && GoesOn(s, actions, id) && steps <= s.max
    requires id in s.live && OnSchedule(s, id, start, steps) && LogPast(s)
    ensures var s' := Run(s, actions);
      Inv(s') && id in s'.live && OnSchedule(s', id, start, steps) && LogPast(s') && s.calls <= s'.calls
    decreases |actions|
  {
    if actions != [] {
      StepKeepsInv(s, actions[0]);
      ScheduleStep(s, actions[0], id, start, steps);
      StaysLive(s, actions[0], id);
      StepPast(s, actions[0]);
      RunGoesOn(Apply(s, actions[0]), actions[1..], id, start, steps);
    }
  }

  /** No firing lies ahead. */
  ghost predicate LogPast(s: State) {
    forall e :: e in s.log ==> e.call <= s.calls
  }

  lemma StepPast(s: State, a: Action)
    requires Enabled(s, a) && LogPast(s)
    ensures LogPast(Apply(s, a)) && s.calls <= Apply(s, a).calls
  {
  }

  lemma {:induction false} RunPast(s: State, actions: seq<Action>)
    requires Legal(s, actions) && LogPast(s)
    ensures LogPast(Run(s, actions))
    decreases |actions|
  {
    if actions != [] {
      StepPast(s, actions[0]);
      RunPast(Apply(s, actions[0]), actions[1..]);
    }
  }

  lemma {:induction false} FiringsPast(log: seq<Fired>, id: Addr, now: nat)
    requires forall e :: e in log ==> e.call <= now
    ensures forall c :: c in Firings(log, id) ==> c <= now
    decreases |log|
  {
    if log != [] {
      assert log[|log| - 1] in log;
      FiringsPast(log[..|log| - 1], id, now);
    }
  }

  /** How many calls of a schedule that starts at `first` and repeats every `period` are not later than
      `now`. */
  function CallsUntil(first: nat, period: nat, now: nat): nat
    requires period > 0
  {
    if now < first then 0 else (now - first) / period + 1
  }

  lemma CallsUntilIs(first: nat, period: nat, now: nat, n: nat)
    requires period > 0 && now < first + n * period && (n > 0 ==> first + (n - 1) * period <= now)
    ensures CallsUntil(first, period, now) == n
  {
    if n > 0 {
      Minus(n, 1, period);
      DivIs(now - first, period, n - 1, now - first - (n - 1) * period);
    }
  }

  lemma Minus(a: int, b: int, d: int)
    ensures (a - b) * d == a * d - b * d
  {
  }

  lemma {:induction false} AtLeastOnce(k: nat, d: nat)
    requires k > 0
    ensures k * d >= d
  {
    if k > 1 {
      AtLeastOnce(k - 1, d);
      Minus(k, 1, d);
    }
  }

  lemma DivIs(a: nat, d: nat, q: nat, r: nat)
    requires r < d && a == q * d + r
    ensures a / d == q
  {
    Quotients(d, a / d, a % d, q, r);
  }

  lemma Quotients(d: nat, q: nat, r: nat, q': nat, r': nat)
    requires r < d && r' < d && q * d + r == q' * d + r'
    ensures q == q'
  {
    if q < q' {
      Minus(q', q, d);
      AtLeastOnce(q' - q, d);
    } else if q' < q {
      Minus(q, q', d);
      AtLeastOnce(q - q', d);
    }
  }

  /** In every run, a timer submitted with steps <= max, neither cancelled nor refreshed since and always
      put back by its callback, is live, and has fired on every call of its schedule up to now, the
      current one excepted while its callback has still to run. */
  lemma FiresEveryTime(max: nat, before: seq<Action>, steps: Unsigned, after: seq<Action>)
    requires 0 < max <= INT_MAX && steps <= max && Legal(Init(max), before)
    requires var s0 := Run(Init(max), before);
      && Enabled(s0, Submit(steps)) && Legal(Apply(s0, Submit(steps)), after)
      && GoesOn(Apply(s0, Submit(steps)), after, s0.next)
    ensures var s0 := Run(Init(max), before);
      var s, id := Run(Apply(s0, Submit(steps)), after), s0.next;
      && id in s.live
      && |Firings(s.log, id)| + (if id in s.firing then 1 else 0)
         == CallsUntil(s0.calls + First(max, steps), Period(max, steps), s.calls)
  {
    var s0 := Run(Init(max), before);
    var s1, id := Apply(s0, Submit(steps)), s0.next;
    RunKeepsInv(Init(max), before);
    RunMax(Init(max), before);
    RunLogOld(Init(max), before);
    RunPast(Init(max), before);
    StepKeepsInv(s0, Submit(steps));
    NoFirings(s0.log, id);
    RunGoesOn(s1, after, id, s0.calls, steps);
    RunMax(s1, after);
    CountsFirings(max, Run(s1, after), id, s0.calls, steps);
  }

  lemma CountsFirings(max: nat, s: State, id: Addr, start: nat, steps: Unsigned)
    requires Inv(s) && s.max == max && steps <= max && id in s.live && LogPast(s) && OnSchedule(s, id, start, steps)
    ensures |Firings(s.log, id)| + (if id in s.firing then 1 else 0)
            == CallsUntil(start + First(max, steps), Period(max, steps), s.calls)
  {
    var calls := Firings(s.log, id);
    var n := |calls|;
    assert TimerOk(s, id);
    if n > 0 {
      FiringsPast(s.log, id, s.calls);
      assert calls[n - 1] in calls;
    }
    Counted(max, start, steps, s.calls, n, id in s.firing);
  }

  lemma Counted(max: nat, start: nat, steps: nat, now: nat, n: nat, firing: bool)
    requires max > 0
    requires if firing then now == NthCall(max, start, steps, n) else now < NthCall(max, start, steps, n)
    requires n > 0 ==> NthCall(max, start, steps, n - 1) <= now
    ensures CallsUntil(start + First(max, steps), Period(max, steps), now) == if firing then n + 1 else n
  {
    NthCallIs(max, start, steps, n);
    if n > 0 { NthCallIs(max, start, steps, n - 1); }
    if firing {
      Minus(n + 1, 1, Period(max, steps));
      CallsUntilIs(start + First(max, steps), Period(max, steps), now, n + 1);
    } else {
      CallsUntilIs(start + First(max, steps), Period(max, steps), now, n);
    }
  }

  /** For steps from 1 to max - 1 and between calls: one firing for every `steps` calls behind the first. */
  lemma FiresEverySteps(max: nat, before: seq<Action>, steps: Unsigned, after: seq<Action>)
    requires 1 <= steps < max <= INT_MAX && Legal(Init(max), before)
    requires var s0 := Run(Init(max), before);
      && Enabled(s0, Submit(steps)) && Legal(Apply(s0, Submit(steps)), after)
      && GoesOn(Apply(s0, Submit(steps)), after, s0.next)
      && Run(Apply(s0, Submit(steps)), after).firing == []
    ensures var s0 := Run(Init(max), before);
      var s := Run(Apply(s0, Submit(steps)), after);
      && s0.next in s.live && s0.calls <= s.calls
      && |Firings(s.log, s0.next)| == if s.calls == s0.calls then 0 else (s.calls - s0.calls - 1) / steps
  {
    var s0 := Run(Init(max), before);
    FiresEveryTime(max, before, steps, after);
    RunCalls(Apply(s0, Submit(steps)), after);
    CountFromSteps(steps, s0.calls, Run(Apply(s0, Submit(steps)), after).calls);
  }

  lemma {:induction false} RunCalls(s: State, actions: seq<Action>)
    requires Legal(s, actions)
    ensures s.calls <= Run(s, actions).calls
    decreases |actions|
  {
    if actions != [] { RunCalls(Apply(s, actions[0]), actions[1..]); }
  }

  lemma CountFromSteps(steps: nat, start: nat, now: nat)
    requires steps > 0 && start <= now
    ensures CallsUntil(start + steps + 1, steps, now) == if now == start then 0 else (now - start - 1) / steps
  {
    if now > start + steps { DivIsOneMore(now - start - steps - 1, steps); }
    if start < now <= start + steps { DivIs(now - start - 1, steps, 0, now - start - 1); }
  }

  lemma DivIsOneMore(a: nat, d: nat)
    requires d > 0
    ensures (a + d) / d == a / d + 1
  {
    Minus(a / d + 1, 1, d);
    DivIs(a + d, d, a / d + 1, a % d);
  }
}
