/** What the callbacks of one pass ask for, against what the pass does: nothing else is added,
    cancelled or changed, nothing they ask for is left out, and every other timer has the outcome its
    record promises. */
module TimerScripts {
  import opened Memory
  import opened Sequences
  import opened TimerModel
  import opened TimerTheorems

  /** What the k-th callback that runs asks for. */
  function ScriptAt(script: seq<seq<Step>>, k: int): seq<Step> {
    if 0 <= k < |script| then script[k] else []
  }

  /** Some operation is on timer id. */
  predicate Names(ops: seq<Step>, id: Addr) {
    InsertTask(id) in ops || Cancel(id) in ops || exists e :: e in ops && e.Refresh? && e.id == id
  }

  /** What happened is no turn, and some operation asks for it. */
  predicate AskedBy(e: Event, ops: seq<Step>) {
    match e
    case Added(_, ts, interval) => Add(ts, interval) in ops || AddDeferred(ts, interval) in ops
    case Inserted(id) => InsertTask(id) in ops || exists x :: x in ops && x.Add?
    case Cancelled(id) => Cancel(id) in ops
    case Refreshed(id, ts) => Refresh(id, ts) in ops
    case Freed(id) => InsertTask(id) in ops || Cancel(id) in ops
    case _ => false
  }

  /** The timers a list of operations adds, in order. */
  function AddsIn(ops: seq<Step>): seq<(nat, nat)> {
    if ops == [] then []
    else
      var e := ops[0];
      (if (e.Add? || e.AddDeferred?) && e.ts < U64 then [(e.ts, e.interval)] else []) + AddsIn(ops[1..])
  }

  /** The timers that were added, in order. */
  function AddsOf(log: seq<Event>): seq<(nat, nat)> {
    if log == [] then []
    else
      var e := log[|log| - 1];
      AddsOf(log[..|log| - 1]) + if e.Added? then [(e.ts, e.interval)] else []
  }

  lemma {:induction false} AddsAppend(log: seq<Event>, out: seq<Event>)
    ensures AddsOf(log + out) == AddsOf(log) + AddsOf(out)
    decreases |out|
  {
    if out == [] {
      assert log + out == log;
    } else {
      var n := |out| - 1;
      assert log + out == log + out[..n] + [out[n]];
      assert (log + out)[..|log| + n] == log + out[..n];
      AddsAppend(log, out[..n]);
    }
  }

  lemma {:induction false} NoAdds(log: seq<Event>)
    requires forall x :: x in log ==> !x.Added?
    ensures AddsOf(log) == []
    decreases |log|
  {
    if log != [] {
      assert log[|log| - 1] in log;
      NoAdds(log[..|log| - 1]);
    }
  }

  /** Timer id has the record it had. */
  predicate Kept(s: State, s': State, id: Addr) {
    id in s.mem && id in s'.mem && s'.mem[id] == s.mem[id]
  }

  /** A cancelled timer is freed, or only waits to be freed. */
  predicate Dead(s: State, id: Addr) {
    id !in s.mem || !s.mem[id].alive
  }

  // ---------------------------------------------------------------- one operation

  /** What each operation makes of the timers: a new timer is live, with its time and interval, queued
      or waiting for its insertion; insertion queues a live timer and frees a cancelled one; cancel frees
      a queued timer and kills any other; refresh gives a queued periodic timer its new time. */
  lemma ClientEffects(s: State, e: Step)
    requires Inv(s) && Client(e) && Enabled(s, e)
    ensures var s' := Apply(s, e);
      match e
      case Add(ts, interval) => s'.mem == s.mem[s.next := Timer(ts, interval, true, Queued, s.stamp)]
      case AddDeferred(ts, interval) => s'.mem == s.mem[s.next := Timer(ts, interval, true, Pending, 0)]
      case InsertTask(id) =>
        s'.mem == if s.mem[id].alive then s.mem[id := s.mem[id].(place := Queued, stamp := s.stamp)] else s.mem - {id}
      case Cancel(id) =>
        s'.mem == if s.mem[id].place.Queued? then s.mem - {id} else s.mem[id := s.mem[id].(alive := false)]
      case Refresh(id, ts) =>
        s'.mem == if s.mem[id].interval == 0 then s.mem else s.mem[id := s.mem[id].(ts := ts, stamp := s.stamp)]
      case _ => true
  {
    match e
    case Add(ts, interval) => assert PlaceOk(s, s.next);
    case _ =>
  }

  lemma ClientKeeps(s: State, e: Step, id: Addr)
    requires Inv(s) && Client(e) && Enabled(s, e) && id in s.mem && !Names([e], id)
    ensures Kept(s, Apply(s, e), id)
  {
    ClientEffects(s, e);
    assert e in [e];
    assert PlaceOk(s, s.next);
  }

  lemma ClientEmits(s: State, e: Step)
    requires Client(e) && Enabled(s, e)
    ensures forall x :: x in Emitted(s, e) ==> AskedBy(x, [e])
    ensures AddsOf(Emitted(s, e)) == AddsIn([e])
  {
    assert e in [e];
    var out := Emitted(s, e);
    if e.Add? {
      assert out[..1] == [out[0]] && out[..1][..0] == [];
      assert AddsOf(out[..1]) == [(e.ts, e.interval)];
    } else if e.AddDeferred? {
      assert out[..0] == [];
    } else {
      NoAdds(out);
    }
  }

  /** Callbacks do what they ask for and nothing else. */
  ghost predicate Does(s: State, ops: seq<Step>, s': State) {
    && s.next <= s'.next && s.log <= s'.log
    && (forall x :: x in s'.log[|s.log|..] ==> AskedBy(x, ops))
    && AddsOf(s'.log[|s.log|..]) == AddsIn(ops)
    && (forall id :: id in s.mem && !Names(ops, id) ==> Kept(s, s', id))
    && (forall id :: id in s.mem && Cancel(id) in ops ==> Dead(s', id))
    && (forall id :: id !in s.mem && id < s.next ==> id !in s'.mem)
  }

  lemma ClientLogs(s: State, e: Step)
    requires Client(e) && Enabled(s, e)
    ensures var s' := Apply(s, e);
      && s.log <= s'.log && (forall x :: x in s'.log[|s.log|..] ==> AskedBy(x, [e]))
      && AddsOf(s'.log[|s.log|..]) == AddsIn([e])
  {
    StepLog(s, e);
    ClientEmits(s, e);
    assert (s.log + Emitted(s, e))[|s.log|..] == Emitted(s, e);
  }

  lemma ClientKills(s: State, e: Step, id: Addr)
    requires Inv(s) && Client(e) && Enabled(s, e) && e == Cancel(id)
    ensures Dead(Apply(s, e), id)
  {
    ClientEffects(s, e);
  }

  lemma ClientNext(s: State, e: Step)
    requires Client(e) && Enabled(s, e)
    ensures s.next <= Apply(s, e).next
  {
  }

  lemma TryDoes(s: State, e: Step)
    requires Inv(s)
    ensures Does(s, [e], TryClient(s, e)) && Inv(TryClient(s, e))
  {
    if Client(e) && Enabled(s, e) {
      StepKeepsInv(s, e);
      ClientLogs(s, e);
      ClientNext(s, e);
      forall id | id in s.mem && !Names([e], id) ensures Kept(s, Apply(s, e), id) { ClientKeeps(s, e, id); }
      forall id | id in s.mem && Cancel(id) in [e] ensures Dead(Apply(s, e), id) { ClientKills(s, e, id); }
      forall id | id !in s.mem && id < s.next ensures id !in Apply(s, e).mem { ClientEffects(s, e); }
    } else {
      assert s.log[|s.log|..] == [];
    }
  }

  // ---------------------------------------------------------------- one callback

  lemma NamesSplit(ops: seq<Step>, id: Addr)
    requires ops != []
    ensures Names(ops, id) <==> Names([ops[0]], id) || Names(ops[1..], id)
  {
    assert ops == [ops[0]] + ops[1..];
    if Names([ops[0]], id) { assert ops[0] in ops; }
    if x :| x in ops[1..] && x.Refresh? && x.id == id { assert x in ops; }
  }

  lemma AskedMore(e: Event, ops: seq<Step>)
    requires ops != [] && (AskedBy(e, [ops[0]]) || AskedBy(e, ops[1..]))
    ensures AskedBy(e, ops)
  {
    assert ops == [ops[0]] + ops[1..];
    if AskedBy(e, [ops[0]]) { assert ops[0] in ops; }
    if e.Inserted? {
      if x :| x in ops[1..] && x.Add? { assert x in ops; }
    }
  }

  /** A cancelled timer stays dead. */
  lemma {:induction false} DeadStays(s: State, ops: seq<Step>, id: Addr)
    requires Inv(s) && Dead(s, id) && id < s.next
    ensures Dead(RunClient(s, ops), id)
    decreases |ops|
  {
    if ops != [] {
      DeadTry(s, ops[0], id);
      TryDoes(s, ops[0]);
      DeadStays(TryClient(s, ops[0]), ops[1..], id);
    }
  }

  lemma DeadTry(s: State, e: Step, id: Addr)
    requires Inv(s) && Dead(s, id) && id < s.next
    ensures Dead(TryClient(s, e), id)
  {
    if Client(e) && Enabled(s, e) { ClientEffects(s, e); }
  }

  lemma DoesLog(s: State, ops: seq<Step>, s1: State, s': State)
    requires ops != [] && Does(s, [ops[0]], s1) && Does(s1, ops[1..], s')
    ensures s.log <= s'.log && (forall x :: x in s'.log[|s.log|..] ==> AskedBy(x, ops))
    ensures AddsOf(s'.log[|s.log|..]) == AddsIn(ops)
  {
    var a, b := s1.log[|s.log|..], s'.log[|s1.log|..];
    assert s'.log[|s.log|..] == a + b;
    forall x | x in a + b ensures AskedBy(x, ops) { AskedMore(x, ops); }
    AddsAppend(a, b);
    AddsFirst(ops);
  }

  lemma AddsFirst(ops: seq<Step>)
    requires ops != []
    ensures AddsIn(ops) == AddsIn([ops[0]]) + AddsIn(ops[1..])
  {
    assert [ops[0]][1..] == [];
  }

  lemma {:induction false} CallbackDoes(s: State, ops: seq<Step>)
    requires Inv(s)
    ensures Does(s, ops, RunClient(s, ops)) && Inv(RunClient(s, ops))
    decreases |ops|
  {
    if ops == [] {
      assert s.log[|s.log|..] == [];
    } else {
      var s1, s' := TryClient(s, ops[0]), RunClient(s, ops);
      TryDoes(s, ops[0]);
      CallbackDoes(s1, ops[1..]);
      DoesLog(s, ops, s1, s');
      forall id | id in s.mem && !Names(ops, id) ensures Kept(s, s', id) {
        NamesSplit(ops, id);
      }
      forall id | id in s.mem && Cancel(id) in ops ensures Dead(s', id) {
        CancelLater(s, ops, id);
      }
    }
  }

  lemma CancelLater(s: State, ops: seq<Step>, id: Addr)
    requires Inv(s) && ops != [] && id in s.mem && Cancel(id) in ops
    requires Does(TryClient(s, ops[0]), ops[1..], RunClient(s, ops))
    ensures Dead(RunClient(s, ops), id)
  {
    var s1 := TryClient(s, ops[0]);
    assert ops == [ops[0]] + ops[1..] && PlaceOk(s, id);
    TryDoes(s, ops[0]);
    if ops[0] == Cancel(id) || id !in s1.mem {
      DeadStays(s1, ops[1..], id);
    }
  }

  lemma {:induction false} RunSplits(s: State, a: seq<Step>, b: seq<Step>)
    ensures RunClient(s, a + b) == RunClient(RunClient(s, a), b)
    decreases |a|
  {
    if a == [] {
      assert a + b == b;
    } else {
      assert (a + b)[0] == a[0] && (a + b)[1..] == a[1..] + b;
      RunSplits(TryClient(s, a[0]), a[1..], b);
    }
  }

  lemma RunOne(s: State, e: Step)
    ensures RunClient(s, [e]) == TryClient(s, e)
  {
    assert [e][1..] == [];
  }

  /** A refresh that finds its timer queued and periodic stands if nothing behind it names the timer, and
      so does an insertion that finds its timer waiting. */
  lemma LastWordStands(s: State, before: seq<Step>, e: Step, after: seq<Step>)
    requires Inv(s) && (e.Refresh? || e.InsertTask?) && !Names(after, e.id)
    ensures var s1, s' := RunClient(s, before), RunClient(s, before + [e] + after);
      e.id in s1.mem ==>
        var t := s1.mem[e.id];
        && (e.Refresh? && t.place.Queued? && t.interval != 0 && e.ts < U64 ==>
          e.id in s'.mem && s'.mem[e.id] == t.(ts := e.ts, stamp := s1.stamp))
        && (e.InsertTask? && t.place.Pending? ==>
          if t.alive then e.id in s'.mem && s'.mem[e.id] == t.(place := Queued, stamp := s1.stamp)
          else e.id !in s'.mem)
  {
    var s1 := RunClient(s, before);
    var s2 := TryClient(s1, e);
    CallbackDoes(s, before);
    TryDoes(s1, e);
    CallbackDoes(s2, after);
    RunSplits(s, before + [e], after);
    RunSplits(s, before, [e]);
    RunOne(s1, e);
    if e.id in s1.mem {
      assert PlaceOk(s1, e.id);
      if Enabled(s1, e) { ClientEffects(s1, e); }
    }
  }

  // ---------------------------------------------------------------- one turn

  /** The callback of a live due timer, between the start and the end of its turn. */
  lemma FiredMiddle(s: State, ops: seq<Step>)
    requires Inv(s) && s.due != [] && s.running.None? && s.due[0] in s.mem && s.mem[s.due[0]].alive
    ensures var id, s1 := s.due[0], DoTurn(s);
      var s2 := RunClient(s1, ops);
      && Inv(s1) && Inv(s2) && Does(s1, ops, s2)
      && s1.mem == s.mem[id := s.mem[id].(place := Running)] && s1.next == s.next
      && s2.running == Some(id) && id in s2.mem && TurnResult(s, ops) == DoReturn(s2)
  {
    StepKeepsInv(s, Turn);
    assert DoTurn(s) == Apply(s, Turn);
    CallbackDoes(DoTurn(s), ops);
    RunClientKeeps(DoTurn(s), ops);
    assert PlaceOk(RunClient(DoTurn(s), ops), s.due[0]);
  }

  lemma ReturnEffects(s: State)
    requires s.running.Some? && s.running.value in s.mem
    ensures var id, s' := s.running.value, DoReturn(s);
      var t := s.mem[id];
      && s'.next == s.next
      && s'.mem == if t.alive && t.interval != 0
         then s.mem[id := t.(ts := Wrap(t.ts + t.interval), place := Queued, stamp := s.stamp)]
         else s.mem - {id}
  {
  }

  /** What becomes of the timer whose callback returned. */
  function Outgoing(s: State, id: Addr): seq<Event> {
    if id !in s.mem || !s.mem[id].alive || s.mem[id].interval == 0 then [Freed(id)] else [Rearmed(id)]
  }

  /** What a turn adds to the log behind its first entry. */
  function Tail(s: State, ops: seq<Step>): seq<Event>
    requires s.due != [] && s.due[0] in s.mem
  {
    var id := s.due[0];
    if !s.mem[id].alive then [Freed(id)]
    else
      var s1 := DoTurn(s);
      var s2 := RunClient(s1, ops);
      (if s1.log <= s2.log then s2.log[|s1.log|..] else []) + Outgoing(s2, id)
  }

  /** The entries behind a turn's first: the callback's, and what becomes of the timer. */
  predicate TailOk(tail: seq<Event>, ops: seq<Step>, id: Addr) {
    forall x :: x in tail ==> AskedBy(x, ops) || x == Freed(id) || x == Rearmed(id)
  }

  function Head(s: State): Event
    requires s.due != [] && s.due[0] in s.mem
  {
    var id := s.due[0];
    if s.mem[id].alive then Fired(id, s.mem[id].ts, s.passNow) else Skipped(id)
  }

  lemma ReturnLog(s: State)
    requires s.running.Some? && s.running.value in s.mem
    ensures DoReturn(s).log == s.log + Outgoing(s, s.running.value)
  {
  }

  lemma JoinLogs(a: seq<Event>, head: Event, c: seq<Event>, last: seq<Event>)
    requires a + [head] <= c
    ensures c + last == a + [head] + (c[|a| + 1..] + last)
  {
    assert c == a + [head] + c[|a| + 1..];
    Associates(a + [head], c[|a| + 1..], last);
  }

  lemma StartLog(s: State)
    requires s.due != [] && s.due[0] in s.mem && s.mem[s.due[0]].alive
    ensures DoTurn(s).log == s.log + [Head(s)]
  {
  }

  /** The callback's entries. */
  function Middle(s: State, ops: seq<Step>): seq<Event>
    requires s.due != [] && s.due[0] in s.mem && DoTurn(s).log <= RunClient(DoTurn(s), ops).log
  {
    RunClient(DoTurn(s), ops).log[|DoTurn(s).log|..]
  }

  lemma FiredMiddleLog(s: State, ops: seq<Step>)
    requires Inv(s) && s.due != [] && s.running.None? && s.due[0] in s.mem && s.mem[s.due[0]].alive
    ensures DoTurn(s).log == s.log + [Head(s)] <= RunClient(DoTurn(s), ops).log
    ensures TurnResult(s, ops).log == RunClient(DoTurn(s), ops).log + Outgoing(RunClient(DoTurn(s), ops), s.due[0])
    ensures (forall x :: x in Middle(s, ops) ==> AskedBy(x, ops)) && AddsOf(Middle(s, ops)) == AddsIn(ops)
  {
    StartLog(s);
    FiredMiddle(s, ops);
    ReturnLog(RunClient(DoTurn(s), ops));
  }

  lemma FiredLog(s: State, ops: seq<Step>)
    requires Inv(s) && s.due != [] && s.running.None? && s.due[0] in s.mem && s.mem[s.due[0]].alive
    ensures TurnResult(s, ops).log == s.log + [Head(s)] + Tail(s, ops)
    ensures TailOk(Tail(s, ops), ops, s.due[0]) && AddsOf(Tail(s, ops)) == AddsIn(ops)
  {
    FiredMiddleLog(s, ops);
    var last := Outgoing(RunClient(DoTurn(s), ops), s.due[0]);
    assert Tail(s, ops) == Middle(s, ops) + last;
    JoinLogs(s.log, Head(s), RunClient(DoTurn(s), ops).log, last);
    AddsAppend(Middle(s, ops), last);
    NoAdds(last);
  }

  lemma TurnLog(s: State, ops: seq<Step>)
    requires Inv(s) && s.due != [] && s.running.None? && s.due[0] in s.mem
    ensures TurnResult(s, ops).log == s.log + [Head(s)] + Tail(s, ops)
    ensures TailOk(Tail(s, ops), ops, s.due[0])
    ensures AddsOf(Tail(s, ops)) == if s.mem[s.due[0]].alive then AddsIn(ops) else []
  {
    if s.mem[s.due[0]].alive {
      FiredLog(s, ops);
    } else {
      NoAdds([Freed(s.due[0])]);
      assert DoTurn(s).log == s.log + [Skipped(s.due[0])] + [Freed(s.due[0])];
    }
  }

  /** A timer that is neither the one whose turn it is nor named by its callback keeps its record. */
  lemma TurnKeeps(s: State, ops: seq<Step>, id: Addr)
    requires Inv(s) && s.due != [] && s.running.None? && s.due[0] in s.mem
    requires id in s.mem && id != s.due[0] && !Names(ops, id)
    ensures Kept(s, TurnResult(s, ops), id)
  {
    if s.mem[s.due[0]].alive {
      FiredMiddle(s, ops);
      ReturnEffects(RunClient(DoTurn(s), ops));
    }
  }

  lemma RunningKept(s: State, ops: seq<Step>)
    requires Inv(s) && s.due != [] && s.running.None? && s.due[0] in s.mem && s.mem[s.due[0]].alive
    requires !Names(ops, s.due[0])
    ensures var id, s2 := s.due[0], RunClient(DoTurn(s), ops);
      && s2.running == Some(id) && id in s2.mem && s2.mem[id] == s.mem[id].(place := Running)
      && TurnResult(s, ops) == DoReturn(s2)
  {
    FiredMiddle(s, ops);
  }

  /** Timer t has become t': it waits for one interval more. */
  predicate Postponed(t: Timer, t': Timer) {
    t' == t.(ts := Wrap(t.ts + t.interval), place := Queued, stamp := t'.stamp)
  }

  lemma ReturnSettles(s: State, t: Timer)
    requires s.running.Some? && s.running.value in s.mem && s.mem[s.running.value] == t.(place := Running) && t.alive
    ensures var id, s' := s.running.value, DoReturn(s);
      if t.interval != 0 then id in s'.mem && Postponed(t, s'.mem[id]) else id !in s'.mem
  {
  }

  /** The timer whose turn it is, unless its own callback names it: a live periodic one is queued for one
      interval later, any other is freed. */
  lemma TurnSettles(s: State, ops: seq<Step>)
    requires Inv(s) && s.due != [] && s.running.None? && s.due[0] in s.mem && !Names(ops, s.due[0])
    ensures var id, s' := s.due[0], TurnResult(s, ops);
      if s.mem[id].alive && s.mem[id].interval != 0 then id in s'.mem && Postponed(s.mem[id], s'.mem[id])
      else id !in s'.mem
  {
    if s.mem[s.due[0]].alive {
      RunningKept(s, ops);
      ReturnSettles(RunClient(DoTurn(s), ops), s.mem[s.due[0]]);
    }
  }

  lemma TurnKills(s: State, ops: seq<Step>, id: Addr)
    requires Inv(s) && s.due != [] && s.running.None? && s.due[0] in s.mem && s.mem[s.due[0]].alive
    requires id < s.next && (Dead(s, id) || (id in s.mem && Cancel(id) in ops))
    ensures Dead(TurnResult(s, ops), id)
  {
    FiredMiddle(s, ops);
    if Dead(s, id) { DeadStays(DoTurn(s), ops, id); }
    ReturnEffects(RunClient(DoTurn(s), ops));
  }

  lemma DeadTurn(s: State, ops: seq<Step>, id: Addr)
    requires Inv(s) && s.due != [] && s.running.None? && s.due[0] in s.mem && id < s.next && Dead(s, id)
    ensures Dead(TurnResult(s, ops), id)
  {
    if s.mem[s.due[0]].alive { TurnKills(s, ops, id); }
  }

  lemma TurnNext(s: State, ops: seq<Step>)
    requires Inv(s) && s.due != [] && s.running.None? && s.due[0] in s.mem
    ensures s.next <= TurnResult(s, ops).next
  {
    if s.mem[s.due[0]].alive {
      FiredMiddle(s, ops);
      ReturnEffects(RunClient(DoTurn(s), ops));
    }
  }

  // ---------------------------------------------------------------- one pass

  /** How many callbacks have run. */
  function Fires(log: seq<Event>): nat {
    if log == [] then 0
    else Fires(log[..|log| - 1]) + if log[|log| - 1].Fired? then 1 else 0
  }

  lemma FiresOne(log: seq<Event>, e: Event)
    ensures Fires(log + [e]) == Fires(log) + if e.Fired? then 1 else 0
  {
    assert (log + [e])[..|log|] == log;
  }

  lemma {:induction false} FiresNoise(log: seq<Event>, out: seq<Event>)
    requires forall e :: e in out ==> !e.Fired? && !e.Skipped?
    ensures Fires(log + out) == Fires(log) && Turns(log + out) == Turns(log)
    decreases |out|
  {
    if out == [] {
      assert log + out == log;
    } else {
      var n := |out| - 1;
      assert out[n] in out;
      assert log + out == log + out[..n] + [out[n]];
      FiresNoise(log, out[..n]);
      FiresOne(log + out[..n], out[n]);
      TurnsAppend(log + out[..n], out[n]);
    }
  }

  /** The entry, if it adds, inserts, cancels or refreshes a timer, is asked for by the callback that is
      running, the last one that fired. */
  ghost predicate BelongsAt(part: seq<Event>, script: seq<seq<Step>>, j: nat)
    requires j < |part|
  {
    var e := part[j];
    ByClient(e) ==> AskedBy(e, ScriptAt(script, Fires(part[..j]) - 1))
  }

  ghost predicate Scripted(part: seq<Event>, script: seq<seq<Step>>) {
    forall j :: 0 <= j < |part| ==> BelongsAt(part, script, j)
  }

  /** A turn and what is behind it in the log. */
  lemma ScriptedTurn(part: seq<Event>, script: seq<seq<Step>>, head: Event, tail: seq<Event>, id: Addr)
    requires Scripted(part, script) && (head.Fired? || head.Skipped?)
    requires TailOk(tail, if head.Fired? then ScriptAt(script, Fires(part)) else [], id)
    ensures Scripted(part + [head] + tail, script)
    ensures Fires(part + [head] + tail) == Fires(part) + if head.Fired? then 1 else 0
    ensures Turns(part + [head] + tail) == Turns(part) + [head.id]
  {
    var all := part + [head] + tail;
    FiresOne(part, head);
    TurnsAppend(part, head);
    FiresNoise(part + [head], tail);
    forall j | 0 <= j < |all| ensures BelongsAt(all, script, j) {
      if j < |part| {
        assert all[..j] == part[..j] && all[j] == part[j] && BelongsAt(part, script, j);
      } else if j > |part| {
        TailBelongs(part, script, head, tail, id, j);
      }
    }
  }

  predicate ByClient(e: Event) {
    e.Added? || e.Inserted? || e.Cancelled? || e.Refreshed?
  }

  lemma TailAsked(tail: seq<Event>, ops: seq<Step>, id: Addr, x: Event)
    requires TailOk(tail, ops, id) && x in tail && ByClient(x)
    ensures AskedBy(x, ops) && ops != []
  {
  }

  lemma TailFires(part: seq<Event>, head: Event, tail: seq<Event>, ops: seq<Step>, id: Addr, j: nat)
    requires (head.Fired? || head.Skipped?) && |part| < j < |part| + 1 + |tail| && TailOk(tail, ops, id)
    ensures Fires((part + [head] + tail)[..j]) == Fires(part) + if head.Fired? then 1 else 0
  {
    SliceTurn(part, head, tail, j);
    FiresOne(part, head);
    var front := tail[..j - |part| - 1];
    forall e | e in front ensures e in tail {}
    FiresNoise(part + [head], front);
  }

  lemma TailBelongs(part: seq<Event>, script: seq<seq<Step>>, head: Event, tail: seq<Event>, id: Addr, j: nat)
    requires (head.Fired? || head.Skipped?) && |part| < j < |part| + 1 + |tail|
    requires TailOk(tail, if head.Fired? then ScriptAt(script, Fires(part)) else [], id)
    ensures BelongsAt(part + [head] + tail, script, j)
  {
    var ops := if head.Fired? then ScriptAt(script, Fires(part)) else [];
    var x := tail[j - |part| - 1];
    SliceTurn(part, head, tail, j);
    TailFires(part, head, tail, ops, id, j);
    if ByClient(x) { TailAsked(tail, ops, id, x); }
  }

  lemma SliceTurn(part: seq<Event>, head: Event, tail: seq<Event>, j: nat)
    requires |part| < j < |part| + 1 + |tail|
    ensures var all := part + [head] + tail;
      all[..j] == part + [head] + tail[..j - |part| - 1] && all[j] == tail[j - |part| - 1]
  {
  }

  /** Some callback of the first n names the timer. */
  ghost predicate NamedBy(script: seq<seq<Step>>, n: nat, id: Addr) {
    exists k :: 0 <= k < n && Names(ScriptAt(script, k), id)
  }

  lemma NamedMore(script: seq<seq<Step>>, n: nat, id: Addr)
    ensures NamedBy(script, n + 1, id) <==> NamedBy(script, n, id) || Names(ScriptAt(script, n), id)
  {
  }

  ghost predicate CancelledBy(script: seq<seq<Step>>, n: nat, id: Addr) {
    exists k :: 0 <= k < n && Cancel(id) in ScriptAt(script, k)
  }

  lemma CancelledMore(script: seq<seq<Step>>, n: nat, id: Addr)
    ensures CancelledBy(script, n + 1, id) <==> CancelledBy(script, n, id) || Cancel(id) in ScriptAt(script, n)
  {
  }

  /** What the first n callbacks add, in order. */
  function AddsTo(script: seq<seq<Step>>, n: nat): seq<(nat, nat)> {
    if n == 0 then [] else AddsTo(script, n - 1) + AddsIn(ScriptAt(script, n - 1))
  }

  /** A timer that no callback names, since the pass began in s1: one that is not due, or still waits for
      its turn, has its record; one that had its turn has fired, and is queued for one interval later if
      it is periodic and freed if it is not; and one that was cancelled before is freed. */
  ghost predicate Outcome(s1: State, part: seq<Event>, s: State, id: Addr)
    requires id in s1.mem
  {
    var t := s1.mem[id];
    if !t.place.Due? || id in s.due then Kept(s1, s, id) && id !in Turns(part)
    else if !t.alive then id !in s.mem && Skipped(id) in part
    else
      && Fired(id, t.ts, s1.passNow) in part
      && if t.interval != 0 then id in s.mem && Postponed(t, s.mem[id]) else id !in s.mem
  }

  /** The pass that began in s1 has led to s, its callbacks having asked for `script`. */
  ghost predicate Follows(s1: State, script: seq<seq<Step>>, s: State) {
    && s1.log <= s.log && s1.next <= s.next && s.passNow == s1.passNow
    && var part := s.log[|s1.log|..];
    && Scripted(part, script)
    && AddsOf(part) == AddsTo(script, Fires(part))
    && (forall id :: id in s1.mem && !NamedBy(script, Fires(part), id) ==> Outcome(s1, part, s, id))
    && (forall id :: id in s1.mem && CancelledBy(script, Fires(part), id) ==> Dead(s, id))
  }

  lemma TurnGone(s: State, ops: seq<Step>, id: Addr)
    requires Inv(s) && s.due != [] && s.running.None? && s.due[0] in s.mem && id !in s.mem && id < s.next
    ensures id !in TurnResult(s, ops).mem
  {
    if s.mem[s.due[0]].alive {
      FiredMiddle(s, ops);
      ReturnEffects(RunClient(DoTurn(s), ops));
    }
  }

  lemma OutcomeOfOther(s1: State, part: seq<Event>, s: State, ops: seq<Step>, part': seq<Event>, id: Addr)
    requires Inv(s1) && Inv(s) && s1.next <= s.next && id in s1.mem && Outcome(s1, part, s, id)
    requires s.due != [] && s.running.None? && s.due[0] in s.mem && id != s.due[0] && !Names(ops, id)
    requires part <= part' && Turns(part') == Turns(part) + [s.due[0]]
    requires TurnResult(s, ops).due == s.due[1..]
    ensures Outcome(s1, part', TurnResult(s, ops), id)
  {
    assert s.due == [s.due[0]] + s.due[1..] && PlaceOk(s1, id);
    if id in s.mem {
      TurnKeeps(s, ops, id);
    } else {
      TurnGone(s, ops, id);
    }
  }

  lemma OutcomeOfTurn(s1: State, part: seq<Event>, s: State, ops: seq<Step>, part': seq<Event>)
    requires Inv(s) && s.due != [] && s.running.None? && s.due[0] in s.mem && s.passNow == s1.passNow
    requires s.due[0] in s1.mem && Outcome(s1, part, s, s.due[0]) && !Names(ops, s.due[0])
    requires Head(s) in part' && TurnResult(s, ops).due == s.due[1..]
    ensures Outcome(s1, part', TurnResult(s, ops), s.due[0])
  {
    assert PlaceOk(s, s.due[0]);
    SortedDistinct(s.mem, s.due);
    TurnSettles(s, ops);
  }

  /** One more turn. */
  lemma FollowsOutcome(s1: State, script: seq<seq<Step>>, s: State, part': seq<Event>, id: Addr)
    requires Inv(s1) && Inv(s) && Follows(s1, script, s)
    requires s.due != [] && s.running.None? && s.due[0] in s.mem
    requires var part := s.log[|s1.log|..];
      var ops := ScriptAt(script, Fires(part));
      && part <= part' && Head(s) in part' && Turns(part') == Turns(part) + [s.due[0]]
      && TurnResult(s, ops).due == s.due[1..]
      && Fires(part') == Fires(part) + (if s.mem[s.due[0]].alive then 1 else 0)
    requires id in s1.mem && !NamedBy(script, Fires(part'), id)
    ensures Outcome(s1, part', TurnResult(s, ScriptAt(script, Fires(s.log[|s1.log|..]))), id)
  {
    var part := s.log[|s1.log|..];
    var ops := ScriptAt(script, Fires(part));
    NamedMore(script, Fires(part), id);
    if s.mem[s.due[0]].alive {
      if id == s.due[0] {
        OutcomeOfTurn(s1, part, s, ops, part');
      } else {
        OutcomeOfOther(s1, part, s, ops, part', id);
      }
    } else {
      assert TurnResult(s, ops) == TurnResult(s, []);
      if id == s.due[0] { OutcomeOfTurn(s1, part, s, [], part'); } else { OutcomeOfOther(s1, part, s, [], part', id); }
    }
  }

  lemma FollowsDead(s1: State, script: seq<seq<Step>>, s: State, n: nat, id: Addr)
    requires Inv(s1) && Inv(s) && Follows(s1, script, s)
    requires s.due != [] && s.running.None? && s.due[0] in s.mem
    requires n == Fires(s.log[|s1.log|..]) + if s.mem[s.due[0]].alive then 1 else 0
    requires id in s1.mem && CancelledBy(script, n, id)
    ensures Dead(TurnResult(s, ScriptAt(script, Fires(s.log[|s1.log|..]))), id)
  {
    var m := Fires(s.log[|s1.log|..]);
    CancelledMore(script, m, id);
    assert PlaceOk(s1, id);
    if CancelledBy(script, m, id) {
      DeadTurn(s, ScriptAt(script, m), id);
    } else {
      TurnKills(s, ScriptAt(script, m), id);
    }
  }

  /** A turn appended to the part of the log that a pass has written. */
  lemma PartMore(before: seq<Event>, script: seq<seq<Step>>, head: Event, tail: seq<Event>, id: Addr, ops: seq<Step>)
    requires (head.Fired? || head.Skipped?) && ops == if head.Fired? then ScriptAt(script, Fires(before)) else []
    requires Scripted(before, script) && AddsOf(before) == AddsTo(script, Fires(before))
    requires TailOk(tail, ops, id) && AddsOf(tail) == AddsIn(ops)
    ensures var part := before + [head] + tail;
      && before <= part && head in part && Turns(part) == Turns(before) + [head.id]
      && Fires(part) == Fires(before) + (if head.Fired? then 1 else 0) && Scripted(part, script)
      && AddsOf(part) == AddsTo(script, Fires(part))
  {
    ScriptedTurn(before, script, head, tail, id);
    TurnAdds(before, head, tail);
    HeadIn(before, head, tail);
    AddsToMore(script, Fires(before), head, ops);
  }

  lemma AddsToMore(script: seq<seq<Step>>, n: nat, head: Event, ops: seq<Step>)
    requires ops == if head.Fired? then ScriptAt(script, n) else []
    ensures AddsTo(script, n + if head.Fired? then 1 else 0) == AddsTo(script, n) + AddsIn(ops)
  {
    if !head.Fired? { assert AddsTo(script, n) + [] == AddsTo(script, n); }
  }

  lemma HeadIn(before: seq<Event>, head: Event, tail: seq<Event>)
    ensures head in before + [head] + tail && before <= before + [head] + tail
  {
    assert (before + [head] + tail)[|before|] == head;
  }

  /** The log of one more turn, since the pass began. */
  lemma TurnPart(log1: seq<Event>, script: seq<seq<Step>>, s: State, before: seq<Event>, ops: seq<Step>)
    returns (part: seq<Event>)
    requires Inv(s) && s.due != [] && s.running.None? && s.due[0] in s.mem
    requires log1 <= s.log && before == s.log[|log1|..] && ops == ScriptAt(script, Fires(before))
    requires Scripted(before, script) && AddsOf(before) == AddsTo(script, Fires(before))
    ensures var s', fires := TurnResult(s, ops), if s.mem[s.due[0]].alive then 1 else 0;
      && log1 <= s'.log && part == s'.log[|log1|..]
      && before <= part && Head(s) in part && Turns(part) == Turns(before) + [s.due[0]]
      && Fires(part) == Fires(before) + fires && Scripted(part, script)
      && AddsOf(part) == AddsTo(script, Fires(part))
  {
    TurnLog(s, ops);
    TurnTail(s, ops);
    SuffixTurn(s.log, Head(s), Tail(s, ops), |log1|);
    PartMore(before, script, Head(s), Tail(s, ops), s.due[0], if Head(s).Fired? then ops else []);
    part := TurnResult(s, ops).log[|log1|..];
  }

  lemma TurnTail(s: State, ops: seq<Step>)
    requires s.due != [] && s.due[0] in s.mem && TailOk(Tail(s, ops), ops, s.due[0])
    ensures !s.mem[s.due[0]].alive ==> TailOk(Tail(s, ops), [], s.due[0])
  {
  }

  lemma TurnAdds(before: seq<Event>, head: Event, tail: seq<Event>)
    requires !head.Added?
    ensures AddsOf(before + [head] + tail) == AddsOf(before) + AddsOf(tail)
  {
    AddsAppend(before, [head]);
    AddsAppend(before + [head], tail);
    NoAdds([head]);
  }

  lemma SuffixTurn(log: seq<Event>, head: Event, tail: seq<Event>, n: nat)
    requires n <= |log|
    ensures (log + [head] + tail)[n..] == log[n..] + [head] + tail
    ensures (log + [head] + tail)[..n] == log[..n]
  {
  }

  lemma FollowsTurn(s1: State, script: seq<seq<Step>>, s: State)
    requires Inv(s1) && Inv(s) && Follows(s1, script, s)
    requires s.due != [] && s.running.None? && s.due[0] in s.mem
    ensures var part := s.log[|s1.log|..];
      var s' := TurnResult(s, ScriptAt(script, Fires(part)));
      && Follows(s1, script, s')
      && Fires(s'.log[|s1.log|..]) == Fires(part) + if s.mem[s.due[0]].alive then 1 else 0
  {
    var ops := ScriptAt(script, Fires(s.log[|s1.log|..]));
    var s' := TurnResult(s, ops);
    var part := TurnPart(s1.log, script, s, s.log[|s1.log|..], ops);
    TurnResultKeeps(s, ops);
    TurnNext(s, ops);
    TurnNow(s, ops);
    forall id | id in s1.mem && !NamedBy(script, Fires(part), id) ensures Outcome(s1, part, s', id) {
      FollowsOutcome(s1, script, s, part, id);
    }
    forall id | id in s1.mem && CancelledBy(script, Fires(part), id) ensures Dead(s', id) {
      FollowsDead(s1, script, s, Fires(part), id);
    }
  }

  lemma ReturnNow(s: State)
    ensures Finish(s).passNow == s.passNow
  {
  }

  lemma TurnNow(s: State, ops: seq<Step>)
    requires s.due != [] && s.due[0] in s.mem
    ensures TurnResult(s, ops).passNow == s.passNow
  {
    if s.mem[s.due[0]].alive {
      ClientNow(DoTurn(s), ops);
      ReturnNow(RunClient(DoTurn(s), ops));
    }
  }

  lemma {:induction false} ClientNow(s: State, ops: seq<Step>)
    ensures RunClient(s, ops).passNow == s.passNow
    decreases |ops|
  {
    if ops != [] { ClientNow(TryClient(s, ops[0]), ops[1..]); }
  }

  lemma FollowsNone(s1: State, script: seq<seq<Step>>)
    requires Inv(s1) && s1.running.None?
    ensures Follows(s1, script, s1)
  {
    assert s1.log[|s1.log|..] == [];
    forall id | id in s1.mem ensures Outcome(s1, [], s1, id) { assert PlaceOk(s1, id); }
  }

  // ---------------------------------------------------------------- theorems

  /** The pass that began in s0 at `now` is over, its callbacks having asked for `script`. */
  ghost predicate PassFollows(s0: State, now: nat, script: seq<seq<Step>>, s: State) {
    && Inv(s0) && Inv(s) && Pass(s0, now, s) && Idle(s)
    && Follows(DoBegin(s0, now), script, s)
  }

  /** Due in the pass that begins at `now`. */
  predicate IsDue(s0: State, now: nat, id: Addr) {
    id in s0.mem && s0.mem[id].place.Queued? && s0.mem[id].ts <= now
  }

  lemma BeginMarks(s0: State, now: nat, id: Addr)
    requires Inv(s0) && Idle(s0) && id in s0.mem
    ensures var s1, k := DoBegin(s0, now), DueCount(s0.mem, s0.list, now);
      && id in s1.mem && (IsDue(s0, now, id) <==> id in s0.list[..k])
      && s1.mem[id] == (if IsDue(s0, now, id) then s0.mem[id].(place := Due) else s0.mem[id])
      && !s0.mem[id].place.Due?
  {
    ListAllocated(s0);
    DueCountSplits(s0.mem, s0.list, now);
    assert PlaceOk(s0, id);
  }

  lemma PassParts(s0: State, now: nat, script: seq<seq<Step>>, s: State)
    requires PassFollows(s0, now, script, s)
    ensures s0.log <= s.log && Sorted(s0.mem, s0.list[..DueCount(s0.mem, s0.list, now)])
    ensures var part := s.log[|s0.log|..];
      && Turns(part) == s0.list[..DueCount(s0.mem, s0.list, now)] && Scripted(part, script)
      && AddsOf(part) == AddsTo(script, Fires(part))
  {
    PassTheorem(s0, now, s);
  }

  /** Whatever is added, inserted, cancelled or refreshed during the pass, the callback then running asks
      for it. */
  lemma NothingUnasked(s0: State, now: nat, script: seq<seq<Step>>, s: State, j: nat)
    requires PassFollows(s0, now, script, s) && |s0.log| <= j < |s.log| && ByClient(s.log[j])
    ensures AskedBy(s.log[j], ScriptAt(script, Fires(s.log[|s0.log|..j]) - 1))
  {
    PassParts(s0, now, script, s);
    UnaskedAt(s0.log, s.log, script, j);
  }

  lemma UnaskedAt(log0: seq<Event>, log: seq<Event>, script: seq<seq<Step>>, j: nat)
    requires log0 <= log && Scripted(log[|log0|..], script) && |log0| <= j < |log| && ByClient(log[j])
    ensures AskedBy(log[j], ScriptAt(script, Fires(log[|log0|..j]) - 1))
  {
    SliceAt(log, |log0|, j);
    assert BelongsAt(log[|log0|..], script, j - |log0|);
  }

  lemma SliceAt(log: seq<Event>, n: nat, j: nat)
    requires n <= j < |log|
    ensures log[n..][..j - n] == log[n..j] && log[n..][j - n] == log[j]
  {
  }

  /** What the callbacks that run ask to add is added, in their order and with their times. */
  lemma EverythingAdded(s0: State, now: nat, script: seq<seq<Step>>, s: State)
    requires PassFollows(s0, now, script, s)
    ensures s0.log <= s.log
    ensures var part := s.log[|s0.log|..]; AddsOf(part) == AddsTo(script, Fires(part))
  {
    PassParts(s0, now, script, s);
  }

  /** What they ask to cancel is cancelled. */
  lemma EverythingCancelled(s0: State, now: nat, script: seq<seq<Step>>, s: State, id: Addr)
    requires PassFollows(s0, now, script, s) && id in s0.mem
    requires s0.log <= s.log && CancelledBy(script, Fires(s.log[|s0.log|..]), id)
    ensures Dead(s, id)
  {
    BeginMarks(s0, now, id);
  }

  /** A timer that no callback of the pass names keeps its record if it is not due.  If it is due and
      alive it fires, for its deadline, and is then queued for one interval later or, without interval,
      freed.  If it was cancelled before it is freed. */
  lemma UnnamedOutcome(s0: State, now: nat, script: seq<seq<Step>>, s: State, id: Addr)
    requires PassFollows(s0, now, script, s) && id in s0.mem && s0.log <= s.log
    requires !NamedBy(script, Fires(s.log[|s0.log|..]), id)
    ensures var t, part := s0.mem[id], s.log[|s0.log|..];
      if !IsDue(s0, now, id) then Kept(s0, s, id)
      else if !t.alive then id !in s.mem
      else
        && Fired(id, t.ts, now) in part
        && if t.interval != 0 then id in s.mem && Postponed(t, s.mem[id]) else id !in s.mem
  {
    BeginMarks(s0, now, id);
    FollowsGives(DoBegin(s0, now), script, s, id);
    OutcomeFromBegin(s0, now, s.log[|s0.log|..], s, id);
  }

  lemma FollowsGives(s1: State, script: seq<seq<Step>>, s: State, id: Addr)
    requires Follows(s1, script, s) && id in s1.mem && !NamedBy(script, Fires(s.log[|s1.log|..]), id)
    ensures Outcome(s1, s.log[|s1.log|..], s, id)
  {
  }

  lemma OutcomeFromBegin(s0: State, now: nat, part: seq<Event>, s: State, id: Addr)
    requires id in s0.mem && id in DoBegin(s0, now).mem && Outcome(DoBegin(s0, now), part, s, id) && s.due == []
    requires !s0.mem[id].place.Due?
    requires DoBegin(s0, now).mem[id] == if IsDue(s0, now, id) then s0.mem[id].(place := Due) else s0.mem[id]
    ensures var t := s0.mem[id];
      if !IsDue(s0, now, id) then Kept(s0, s, id)
      else if !t.alive then id !in s.mem
      else
        && Fired(id, t.ts, now) in part
        && if t.interval != 0 then id in s.mem && Postponed(t, s.mem[id]) else id !in s.mem
  {
  }

  /** A due timer that is alive when the pass begins, and that no callback of it cancels, fires once, for
      its deadline, and is not skipped. */
  lemma DueTimerFires(s0: State, now: nat, script: seq<seq<Step>>, s: State, id: Addr)
    requires PassFollows(s0, now, script, s) && IsDue(s0, now, id) && s0.mem[id].alive && s0.log <= s.log
    requires !CancelledBy(script, Fires(s.log[|s0.log|..]), id)
    ensures var part := s.log[|s0.log|..];
      Fired(id, s0.mem[id].ts, now) in part && Skipped(id) !in part && FireCount(part, id) == 1
  {
    var part := s.log[|s0.log|..];
    PassParts(s0, now, script, s);
    BeginMarks(s0, now, id);
    NotCancelledYet(s0, id);
    if Skipped(id) in part {
      SkippedWasAsked(s0.log, s.log, script, id);
      assert false;
    }
    TurnInLog(part, id);
    SortedDistinct(s0.mem, Turns(part));
    FiresAtMostOnce(part, id);
    FiredFor(s0, now, s, id);
  }

  lemma NotCancelledYet(s0: State, id: Addr)
    requires Inv(s0) && id in s0.mem && s0.mem[id].alive
    ensures Cancelled(id) !in s0.log
  {
  }

  lemma {:induction false} TurnInLog(part: seq<Event>, id: Addr)
    requires id in Turns(part)
    ensures FireCount(part, id) > 0 || Skipped(id) in part
    decreases |part|
  {
    if part != [] {
      var n := |part| - 1;
      if id in Turns(part[..n]) { TurnInLog(part[..n], id); }
    }
  }

  lemma {:induction false} FiresAtMostOnce(part: seq<Event>, id: Addr)
    requires Distinct(Turns(part))
    ensures FireCount(part, id) <= 1 && (FireCount(part, id) == 1 ==> id in Turns(part))
    decreases |part|
  {
    if part != [] {
      var n := |part| - 1;
      var e := part[n];
      assert Turns(part) == Turns(part[..n]) + if e.Fired? || e.Skipped? then [e.id] else [];
      DistinctFront(Turns(part[..n]), if e.Fired? || e.Skipped? then [e.id] else []);
      FiresAtMostOnce(part[..n], id);
    }
  }

  lemma DistinctFront(a: seq<Addr>, b: seq<Addr>)
    requires Distinct(a + b)
    ensures Distinct(a) && forall x :: x in b ==> x !in a
  {
    forall i, j | 0 <= i < j < |a| ensures a[i] != a[j] {
      assert (a + b)[i] == a[i] && (a + b)[j] == a[j];
    }
    forall x | x in b ensures x !in a {
      var j :| 0 <= j < |b| && b[j] == x;
      assert (a + b)[|a| + j] == x;
      forall i | 0 <= i < |a| ensures a[i] != x { assert (a + b)[i] == a[i]; }
    }
  }

  lemma {:induction false} FireCountIn(part: seq<Event>, id: Addr) returns (e: Event)
    requires FireCount(part, id) > 0
    ensures e in part && e.Fired? && e.id == id
    decreases |part|
  {
    var n := |part| - 1;
    if part[n].Fired? && part[n].id == id {
      e := part[n];
    } else {
      e := FireCountIn(part[..n], id);
    }
  }

  lemma FiredFor(s0: State, now: nat, s: State, id: Addr)
    requires Inv(s0) && Pass(s0, now, s) && s.due == [] && s0.log <= s.log && id in s0.mem
    requires FireCount(s.log[|s0.log|..], id) > 0
    ensures Fired(id, s0.mem[id].ts, now) in s.log[|s0.log|..]
  {
    PassTheorem(s0, now, s);
    var e := FireCountIn(s.log[|s0.log|..], id);
    assert FiresRight(s0, now, s0.list[..DueCount(s0.mem, s0.list, now)], e);
  }

  /** A timer loses its turn only to a callback that ran before it and cancels it. */
  lemma SkippedWasAsked(log0: seq<Event>, log: seq<Event>, script: seq<seq<Step>>, id: Addr)
    requires GoodLog(log) && log0 <= log && Scripted(log[|log0|..], script)
    requires Skipped(id) in log[|log0|..] && Cancelled(id) !in log0
    ensures CancelledBy(script, Fires(log[|log0|..]), id)
  {
    var part := log[|log0|..];
    var j: nat :| j < |part| && part[j] == Skipped(id);
    var d := CancelledEarlier(log0, log, |log0| + j, id);
    CancelledAt(part, script, d, id);
  }

  lemma CancelledEarlier(log0: seq<Event>, log: seq<Event>, n: nat, id: Addr) returns (d: nat)
    requires GoodLog(log) && log0 <= log && n < |log| && log[n] == Skipped(id) && Cancelled(id) !in log0
    ensures |log0| + d < |log| && log[|log0| + d] == Cancelled(id)
  {
    GoodLogAt(log, n);
    var i :| 0 <= i < n && log[..n][i] == Cancelled(id);
    assert log[i] == Cancelled(id);
    if i < |log0| { assert log0[i] == Cancelled(id); }
    d := i - |log0|;
  }

  lemma CancelledAt(part: seq<Event>, script: seq<seq<Step>>, d: nat, id: Addr)
    requires d < |part| && part[d] == Cancelled(id) && Scripted(part, script)
    ensures CancelledBy(script, Fires(part), id)
  {
    assert BelongsAt(part, script, d);
    FiresGrow(part, d);
    assert Cancel(id) in ScriptAt(script, Fires(part[..d]) - 1);
  }

  lemma {:induction false} FiresGrow(part: seq<Event>, i: nat)
    requires i <= |part|
    ensures Fires(part[..i]) <= Fires(part)
    decreases |part|
  {
    if i < |part| {
      var n := |part| - 1;
      FiresGrow(part[..n], i);
      assert part[..n][..i] == part[..i];
    } else {
      assert part[..i] == part;
    }
  }
}
