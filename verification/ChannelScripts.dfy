/** What the callbacks of one batch ask for, against what the batch does: nothing else is created,
    destroyed or changed, and nothing they ask for is left out. */
module ChannelScripts {
  import opened Memory
  import opened ChannelModel
  import opened Sequences

  /** What the callback of the k-th reported channel asks for. */
  function ScriptAt(scripts: seq<seq<Step>>, k: int): seq<Step> {
    if 0 <= k < |scripts| then scripts[k] else []
  }

  /** Some operation is on channel id. */
  predicate Names(ops: seq<Step>, id: Addr) {
    exists e :: e in ops && Client(e) && !e.New? && e.id == id
  }

  /** The entry is nobody's turn, and if it creates or destroys a channel, one of the operations does. */
  predicate AskedBy(e: LogEntry, ops: seq<Step>) {
    && !e.Called? && !e.Skipped?
    && (e.Created? ==> New in ops)
    && (e.Destroyed? ==> Destroy(e.id) in ops)
  }

  /** Channel id keeps its mask, attachment and liveness, and its place in the kernel. */
  predicate Kept(s1: State, s: State, id: Addr) {
    id in s1.mem && id in s.mem && s.mem[id] == s1.mem[id] && (id in s.registered <==> id in s1.registered)
  }

  function Count(ops: seq<Step>): nat {
    if ops == [] then 0 else (if ops[0].New? then 1 else 0) + Count(ops[1..])
  }

  // ---------------------------------------------------------------- one operation

  /** Each operation changes its own channel only. */
  lemma OthersStay(s: State, e: Step, id: Addr)
    requires Inv(s) && Client(e) && Enabled(s, e) && id in s.mem && (e.New? || e.id != id)
    ensures Kept(s, Apply(s, e), id)
  {
    assert ChanOk(s, id) && ChanOk(s, s.next);
  }

  /** The bits of a mask are those set and not cleared, whether or not the channel is attached. */
  lemma MaskFollows(s: State, id: Addr, event: Mask)
    requires id in s.mem
    ensures Enabled(s, SetEvent(id, event)) ==>
      id in Apply(s, SetEvent(id, event)).mem
      && Apply(s, SetEvent(id, event)).mem[id].event == s.mem[id].event + event
    ensures Enabled(s, ClearEvent(id, event)) ==>
      id in Apply(s, ClearEvent(id, event)).mem
      && Apply(s, ClearEvent(id, event)).mem[id].event == s.mem[id].event - event
    ensures Enabled(s, Detach(id)) ==>
      var c := Apply(s, Detach(id)).mem; id in c && c[id].event == s.mem[id].event
    ensures Enabled(s, Attach(id)) ==>
      var c := Apply(s, Attach(id)).mem; id in c && c[id].event == s.mem[id].event && c[id].attached
  {
  }

  /** Detach leaves the kernel, attach enters it with the mask it has; the other two follow the mask
      of an attached channel. */
  lemma WatchFollows(s: State, e: Step)
    requires Inv(s) && Enabled(s, e) && (e.SetEvent? || e.ClearEvent? || e.Detach? || e.Attach?)
    ensures var s' := Apply(s, e);
      e.id in s'.mem && (e.id in s'.registered <==> s'.mem[e.id].attached && s'.mem[e.id].event != {})
    ensures e.Detach? ==> e.id !in Apply(s, e).registered
    ensures e.SetEvent? || e.ClearEvent? ==>
      e.id in Apply(s, e).mem && Apply(s, e).mem[e.id].attached == s.mem[e.id].attached
  {
    assert ChanOk(s, e.id);
    StepKeepsInv(s, e);
    assert ChanOk(Apply(s, e), e.id);
  }

  /** Destroy frees a channel at once, unless it waits for its turn or runs: that one dies. */
  lemma DestroyEnds(s: State, id: Addr)
    requires Inv(s) && Enabled(s, Destroy(id))
    ensures var s' := Apply(s, Destroy(id));
      && (id in s.todo ==> id in s'.mem && s'.mem[id] == s.mem[id].(alive := false))
      && (id !in s.todo ==> id !in s'.mem && id in s'.freed)
      && Destroyed(id) in s'.log
  {
  }

  lemma TryAsks(s: State, e: Step)
    requires Inv(s)
    ensures var s' := Try(s, e);
      && s.log <= s'.log && (forall x :: x in s'.log[|s.log|..] ==> AskedBy(x, [e]))
      && s'.next == s.next + Count([e])
      && (forall id :: id in s.mem && !Names([e], id) ==> Kept(s, s', id))
      && (forall id :: id in s.mem && e == Destroy(id) ==> Destroyed(id) in s'.log)
  {
    var s' := Try(s, e);
    if Client(e) && Enabled(s, e) {
      assert e in [e] && s'.log[|s.log|..] == Added(s, e);
      forall id | id in s.mem && !Names([e], id) ensures Kept(s, s', id) {
        OthersStay(s, e, id);
      }
    } else if e.Destroy? && e.id in s.mem {
      assert LogOk(s.log, s.mem, s.freed, s.next, e.id);
    }
  }

  /** The entries of a client step. */
  ghost function Added(s: State, e: Step): (out: seq<LogEntry>)
    requires Client(e) && Enabled(s, e)
    ensures Apply(s, e).log == s.log + out
    ensures forall x :: x in out ==> AskedBy(x, [e])
  {
    assert e in [e];
    match e
    case New => [Created(s.next)]
    case Destroy(id) => if id in s.todo then [Destroyed(id)] else [Destroyed(id), Freed(id)]
    case _ => []
  }

  // ---------------------------------------------------------------- one callback

  lemma NamesSplit(ops: seq<Step>, id: Addr)
    requires ops != []
    ensures Names(ops, id) <==> Names([ops[0]], id) || Names(ops[1..], id)
  {
    assert ops == [ops[0]] + ops[1..];
    if Names([ops[0]], id) {
      assert ops[0] in ops;
    }
  }

  lemma AskedMore(e: LogEntry, ops: seq<Step>)
    requires ops != [] && (AskedBy(e, [ops[0]]) || AskedBy(e, ops[1..]))
    ensures AskedBy(e, ops)
  {
    assert ops == [ops[0]] + ops[1..];
  }

  /** A callback does what it asks for and nothing else. */
  ghost predicate Does(s: State, ops: seq<Step>, s': State) {
    && s.log <= s'.log && (forall x :: x in s'.log[|s.log|..] ==> AskedBy(x, ops))
    && s'.next == s.next + Count(ops)
    && (forall id :: id in s.mem && !Names(ops, id) ==> Kept(s, s', id))
    && (forall id :: id in s.mem && Destroy(id) in ops ==> Destroyed(id) in s'.log)
  }

  lemma DoesOne(s: State, ops: seq<Step>, s1: State, s': State)
    requires ops != [] && Inv(s) && s1 == Try(s, ops[0]) && Inv(s1) && Does(s1, ops[1..], s')
    ensures Does(s, ops, s')
  {
    TryAsks(s, ops[0]);
    assert s'.log[|s.log|..] == s1.log[|s.log|..] + s'.log[|s1.log|..];
    forall x | x in s'.log[|s.log|..] ensures AskedBy(x, ops) { AskedMore(x, ops); }
    forall id | id in s.mem && !Names(ops, id) ensures Kept(s, s', id) {
      NamesSplit(ops, id);
      TryKeepsOthers(s, ops[0], id);
    }
    forall id | id in s.mem && Destroy(id) in ops ensures Destroyed(id) in s'.log {
      DestroyLater(s, ops, s1, s', id);
    }
  }

  lemma TryKeepsOthers(s: State, e: Step, id: Addr)
    requires Inv(s) && id in s.mem && !Names([e], id)
    ensures Kept(s, Try(s, e), id)
  {
    TryAsks(s, e);
  }

  lemma DestroyLater(s: State, ops: seq<Step>, s1: State, s': State, id: Addr)
    requires ops != [] && Inv(s) && s1 == Try(s, ops[0]) && Inv(s1) && Does(s1, ops[1..], s')
    requires id in s.mem && Destroy(id) in ops
    ensures Destroyed(id) in s'.log
  {
    TryAsks(s, ops[0]);
    assert ops == [ops[0]] + ops[1..];
    if ops[0] == Destroy(id) {
      assert Destroyed(id) in s1.log;
    } else {
      assert id in s1.mem;
    }
  }

  lemma FreedWasDestroyed(s: State, id: Addr)
    requires Inv(s) && Freed(id) in s.log
    ensures Destroyed(id) in s.log
  {
    var j :| 0 <= j < |s.log| && s.log[j] == Freed(id);
    GoodLogAt(s.log, j);
    assert Destroyed(id) in s.log[..j];
  }

  lemma {:induction false} CallbackDoes(s: State, ops: seq<Step>)
    requires Inv(s)
    ensures Does(s, ops, RunClient(s, ops)) && Inv(RunClient(s, ops))
    decreases |ops|
  {
    if ops == [] {
      assert s.log[|s.log|..] == [];
    } else {
      var s1 := Try(s, ops[0]);
      if Client(ops[0]) && Enabled(s, ops[0]) { StepKeepsInv(s, ops[0]); }
      CallbackDoes(s1, ops[1..]);
      DoesOne(s, ops, s1, RunClient(s1, ops[1..]));
    }
  }

  // ---------------------------------------------------------------- one batch

  /** Every entry of the batch that creates or destroys a channel is asked for by the callback of the
      channel whose turn it is. */
  ghost predicate Scripted(part: seq<LogEntry>, scripts: seq<seq<Step>>) {
    forall j :: 0 <= j < |part| ==> BelongsAt(part, scripts, j)
  }

  ghost predicate BelongsAt(part: seq<LogEntry>, scripts: seq<seq<Step>>, j: nat)
    requires j < |part|
  {
    var ops := ScriptAt(scripts, |Turns(part[..j])| - 1);
    (part[j].Created? ==> New in ops) && (part[j].Destroyed? ==> Destroy(part[j].id) in ops)
  }

  /** Some callback of the first n turns names the channel. */
  ghost predicate NamedBy(scripts: seq<seq<Step>>, n: nat, id: Addr) {
    exists k :: 0 <= k < n && Names(ScriptAt(scripts, k), id)
  }

  /** The callback of the k-th turn ran, and destroys channel x. */
  ghost predicate DestroyAsked(part: seq<LogEntry>, scripts: seq<seq<Step>>, k: nat, x: Addr) {
    k < |Turns(part)| && Called(Turns(part)[k]) in part && Destroy(x) in ScriptAt(scripts, k)
  }

  /** Since the batch began in s1, n turns of it have led to s. */
  ghost predicate Follows(s1: State, scripts: seq<seq<Step>>, n: nat, s: State) {
    var part := if |s1.log| <= |s.log| then s.log[|s1.log|..] else [];
    && s1.log <= s.log
    && |Turns(part)| == n
    && Scripted(part, scripts)
    && (forall id :: id in s1.mem && s1.mem[id].alive && !NamedBy(scripts, n, id) ==> Kept(s1, s, id))
    && (forall k: nat, x :: DestroyAsked(part, scripts, k, x) && x in s1.mem ==> Destroyed(x) in s.log)
  }

  /** A turn and what its callback adds. */
  lemma ScriptedTurn(part: seq<LogEntry>, scripts: seq<seq<Step>>, head: LogEntry, tail: seq<LogEntry>)
    requires Scripted(part, scripts) && (head.Called? || head.Skipped?)
    requires forall x :: x in tail ==> AskedBy(x, ScriptAt(scripts, |Turns(part)|))
    ensures Scripted(part + [head] + tail, scripts)
    ensures Turns(part + [head] + tail) == Turns(part) + [head.id]
  {
    var all := part + [head] + tail;
    TurnsAppend(part, head);
    TurnsNoise(part + [head], tail);
    forall j | 0 <= j < |all| ensures BelongsAt(all, scripts, j) {
      if j < |part| {
        assert all[..j] == part[..j] && all[j] == part[j] && BelongsAt(part, scripts, j);
      } else if j > |part| {
        var front := tail[..j - |part| - 1];
        var x := tail[j - |part| - 1];
        assert all[..j] == part + [head] + front && all[j] == x && x in tail;
        TurnsNoise(part + [head], front);
      }
    }
  }

  lemma FinishLog(s: State)
    requires s.todo != [] && s.todo[0] in s.mem
    ensures Finish(s).log == s.log + if s.mem[s.todo[0]].alive then [] else [Freed(s.todo[0])]
  {
    assert s.log + [] == s.log;
  }

  /** What a turn adds to the log behind its first entry. */
  ghost function Tail(s: State, ops: seq<Step>): seq<LogEntry>
    requires s.todo != [] && s.todo[0] in s.mem
  {
    if !s.mem[s.todo[0]].alive then [Freed(s.todo[0])]
    else
      var s1 := DoTurn(s);
      var s2 := RunClient(s1, ops);
      (if s1.log <= s2.log then s2.log[|s1.log|..] else [])
        + if s2.todo != [] && s2.todo[0] in s2.mem && !s2.mem[s2.todo[0]].alive then [Freed(s2.todo[0])] else []
  }

  lemma CalledLog(s: State, ops: seq<Step>)
    requires Inv(s) && s.todo != [] && !s.running && s.todo[0] in s.mem && s.mem[s.todo[0]].alive
    ensures TurnResult(s, ops).log == s.log + [Called(s.todo[0])] + Tail(s, ops)
    ensures forall x :: x in Tail(s, ops) ==> AskedBy(x, ops)
  {
    var s1 := DoTurn(s);
    StepKeepsInv(s, Turn);
    assert s1 == Apply(s, Turn) && s1.log == s.log + [Called(s.todo[0])];
    CallbackDoes(s1, ops);
    InBatchSelf(s1);
    RunClientKeeps(s1, ops, s1, Waiting(s1));
    var s2 := RunClient(s1, ops);
    assert ChanOk(s2, s.todo[0]);
    FinishLog(s2);
    assert s2.log == s1.log + s2.log[|s1.log|..];
    Associates(s1.log, s2.log[|s1.log|..], if s2.mem[s.todo[0]].alive then [] else [Freed(s.todo[0])]);
  }

  lemma InBatchSelf(s: State)
    ensures InBatch(s, Waiting(s), s)
  {
    assert s.log[|s.log|..] == [];
  }

  /** The log of a turn. */
  lemma TurnLog(s: State, ops: seq<Step>)
    requires Inv(s) && s.todo != [] && !s.running
    ensures s.todo[0] in s.mem
    ensures var id := s.todo[0];
      var head := if s.mem[id].alive then Called(id) else Skipped(id);
      && TurnResult(s, ops).log == s.log + [head] + Tail(s, ops)
      && forall x :: x in Tail(s, ops) ==> AskedBy(x, ops)
  {
    assert ChanOk(s, s.todo[0]);
    if s.mem[s.todo[0]].alive {
      CalledLog(s, ops);
    } else {
      assert DoTurn(s).log == s.log + [Skipped(s.todo[0])] + [Freed(s.todo[0])];
    }
  }

  /** What a turn does to the channels. */
  lemma TurnKeeps(s: State, ops: seq<Step>, id: Addr)
    requires Inv(s) && s.todo != [] && !s.running && id in s.mem && s.mem[id].alive && !Names(ops, id)
    ensures Kept(s, TurnResult(s, ops), id)
  {
    assert ChanOk(s, s.todo[0]);
    if s.mem[s.todo[0]].alive {
      StepKeepsInv(s, Turn);
      assert DoTurn(s) == Apply(s, Turn);
      CallbackDoes(DoTurn(s), ops);
    }
  }

  lemma TurnDestroys(s: State, ops: seq<Step>, x: Addr)
    requires Inv(s) && s.todo != [] && !s.running && s.todo[0] in s.mem && s.mem[s.todo[0]].alive
    requires x in s.mem && Destroy(x) in ops
    ensures Destroyed(x) in TurnResult(s, ops).log
  {
    StepKeepsInv(s, Turn);
    assert DoTurn(s) == Apply(s, Turn);
    CallbackDoes(DoTurn(s), ops);
  }

  lemma TurnNext(s: State, ops: seq<Step>)
    requires Inv(s) && s.todo != [] && !s.running && s.todo[0] in s.mem
    ensures s.next <= TurnResult(s, ops).next
  {
    if s.mem[s.todo[0]].alive {
      StepKeepsInv(s, Turn);
      assert DoTurn(s) == Apply(s, Turn);
      CallbackDoes(DoTurn(s), ops);
    }
  }

  lemma GoneWasDestroyed(s1: State, s: State, x: Addr)
    requires Inv(s1) && Inv(s) && s1.log <= s.log && x in s1.mem && x !in s.mem && s1.next <= s.next
    ensures Destroyed(x) in s.log
  {
    assert ChanOk(s1, x) && ChanOk(s, x) && LogOk(s.log, s.mem, s.freed, s.next, x);
    FreedWasDestroyed(s, x);
  }

  lemma NamedMore(scripts: seq<seq<Step>>, n: nat, id: Addr)
    ensures NamedBy(scripts, n + 1, id) <==> NamedBy(scripts, n, id) || Names(ScriptAt(scripts, n), id)
  {
  }

  lemma FollowsKept(s1: State, scripts: seq<seq<Step>>, n: nat, s: State, id: Addr)
    requires Inv(s) && Follows(s1, scripts, n, s) && s.todo != [] && !s.running
    requires id in s1.mem && s1.mem[id].alive && !NamedBy(scripts, n + 1, id)
    ensures Kept(s1, TurnResult(s, ScriptAt(scripts, n)), id)
  {
    NamedMore(scripts, n, id);
    TurnKeeps(s, ScriptAt(scripts, n), id);
  }

  lemma FollowsDestroyed(s1: State, scripts: seq<seq<Step>>, n: nat, s: State, head: LogEntry, k: nat, x: Addr)
    requires Inv(s1) && Inv(s) && Follows(s1, scripts, n, s) && s.todo != [] && !s.running && s1.next <= s.next
    requires s.todo[0] in s.mem && s.todo[0] !in Turns(s.log[|s1.log|..])
    requires head == if s.mem[s.todo[0]].alive then Called(s.todo[0]) else Skipped(s.todo[0])
    requires TurnResult(s, ScriptAt(scripts, n)).log == s.log + [head] + Tail(s, ScriptAt(scripts, n))
    requires forall x :: x in Tail(s, ScriptAt(scripts, n)) ==> !x.Called?
    requires var part := s.log[|s1.log|..];
      var part' := part + [head] + Tail(s, ScriptAt(scripts, n));
      Turns(part') == Turns(part) + [head.id] && DestroyAsked(part', scripts, k, x)
    requires x in s1.mem
    ensures Destroyed(x) in TurnResult(s, ScriptAt(scripts, n)).log
  {
    var ops, part := ScriptAt(scripts, n), s.log[|s1.log|..];
    AskedSplit(part, head, Tail(s, ops), scripts, k, x);
    if k < n {
      FollowsDestroys(s1, scripts, n, s, part, k, x);
    } else {
      LastDestroys(s1, s, ops, x);
    }
  }

  /** The callback that destroys x ran in an earlier turn or in this one. */
  lemma AskedSplit(part: seq<LogEntry>, head: LogEntry, tail: seq<LogEntry>, scripts: seq<seq<Step>>, k: nat, x: Addr)
    requires head.id !in Turns(part) && Turns(part + [head] + tail) == Turns(part) + [head.id]
    requires (forall e :: e in tail ==> !e.Called?) && DestroyAsked(part + [head] + tail, scripts, k, x)
    ensures if k < |Turns(part)| then DestroyAsked(part, scripts, k, x)
            else k == |Turns(part)| && head.Called? && Destroy(x) in ScriptAt(scripts, k)
  {
    if k < |Turns(part)| {
      CalledBefore(part, head, tail, Turns(part)[k]);
    } else {
      NotCalledYet(part, head, tail);
    }
  }

  lemma LastDestroys(s1: State, s: State, ops: seq<Step>, x: Addr)
    requires Inv(s1) && Inv(s) && s1.log <= s.log && s1.next <= s.next && x in s1.mem
    requires s.todo != [] && !s.running && s.todo[0] in s.mem && s.mem[s.todo[0]].alive && Destroy(x) in ops
    requires s.log <= TurnResult(s, ops).log
    ensures Destroyed(x) in TurnResult(s, ops).log
  {
    if x in s.mem {
      TurnDestroys(s, ops, x);
    } else {
      GoneWasDestroyed(s1, s, x);
    }
  }

  /** The log of one more turn, since the batch began. */
  lemma TurnPart(s1: State, scripts: seq<seq<Step>>, n: nat, s: State) returns (head: LogEntry, part: seq<LogEntry>)
    requires Inv(s) && Follows(s1, scripts, n, s) && s.todo != [] && !s.running
    ensures s.todo[0] in s.mem && head == if s.mem[s.todo[0]].alive then Called(s.todo[0]) else Skipped(s.todo[0])
    ensures var s', tail := TurnResult(s, ScriptAt(scripts, n)), Tail(s, ScriptAt(scripts, n));
      && s'.log == s.log + [head] + tail && (forall x :: x in tail ==> !x.Called?)
      && s1.log <= s'.log && part == s'.log[|s1.log|..] == s.log[|s1.log|..] + [head] + tail
      && Scripted(part, scripts) && Turns(part) == Turns(s.log[|s1.log|..]) + [head.id]
  {
    var ops := ScriptAt(scripts, n);
    TurnLog(s, ops);
    head := if s.mem[s.todo[0]].alive then Called(s.todo[0]) else Skipped(s.todo[0]);
    SuffixTurn(s.log, head, Tail(s, ops), |s1.log|);
    ScriptedTurn(s.log[|s1.log|..], scripts, head, Tail(s, ops));
    part := s.log[|s1.log|..] + [head] + Tail(s, ops);
  }

  /** One more turn. */
  lemma FollowsTurn(s1: State, scripts: seq<seq<Step>>, n: nat, s: State)
    requires Inv(s1) && Inv(s) && Follows(s1, scripts, n, s) && s.todo != [] && !s.running && s1.next <= s.next
    requires s.todo[0] !in Turns(s.log[|s1.log|..])
    ensures Follows(s1, scripts, n + 1, TurnResult(s, ScriptAt(scripts, n)))
  {
    var s' := TurnResult(s, ScriptAt(scripts, n));
    var head, part := TurnPart(s1, scripts, n, s);
    forall id | id in s1.mem && s1.mem[id].alive && !NamedBy(scripts, n + 1, id) ensures Kept(s1, s', id) {
      FollowsKept(s1, scripts, n, s, id);
    }
    forall k: nat, x | DestroyAsked(part, scripts, k, x) && x in s1.mem ensures Destroyed(x) in s'.log {
      FollowsDestroyed(s1, scripts, n, s, head, k, x);
    }
    FollowsIs(s1, scripts, n + 1, s', part);
  }

  lemma FollowsIs(s1: State, scripts: seq<seq<Step>>, n: nat, s: State, part: seq<LogEntry>)
    requires s1.log <= s.log && part == s.log[|s1.log|..] && |Turns(part)| == n && Scripted(part, scripts)
    requires forall id :: id in s1.mem && s1.mem[id].alive && !NamedBy(scripts, n, id) ==> Kept(s1, s, id)
    requires forall k: nat, x :: DestroyAsked(part, scripts, k, x) && x in s1.mem ==> Destroyed(x) in s.log
    ensures Follows(s1, scripts, n, s)
  {
  }

  lemma SuffixTurn(log: seq<LogEntry>, head: LogEntry, tail: seq<LogEntry>, n: nat)
    requires n <= |log|
    ensures (log + [head] + tail)[n..] == log[n..] + [head] + tail
    ensures (log + [head] + tail)[..n] == log[..n]
  {
  }

  lemma CalledBefore(part: seq<LogEntry>, head: LogEntry, tail: seq<LogEntry>, id: Addr)
    requires id in Turns(part) && head.id !in Turns(part) && Called(id) in part + [head] + tail
    requires forall x :: x in tail ==> !x.Called?
    ensures Called(id) in part
  {
  }

  lemma NotCalledYet(part: seq<LogEntry>, head: LogEntry, tail: seq<LogEntry>)
    requires head.id !in Turns(part) && Called(head.id) in part + [head] + tail
    requires forall x :: x in tail ==> !x.Called?
    ensures head == Called(head.id)
  {
    if Called(head.id) in part { CalledIsTurn(part, head.id); }
  }

  lemma {:induction false} CalledIsTurn(part: seq<LogEntry>, id: Addr)
    requires Called(id) in part
    ensures id in Turns(part)
    decreases |part|
  {
    var n := |part| - 1;
    if part[n] != Called(id) {
      assert Called(id) in part[..n];
      CalledIsTurn(part[..n], id);
    }
  }

  lemma FollowsNone(s1: State, scripts: seq<seq<Step>>)
    ensures Follows(s1, scripts, 0, s1)
  {
    assert s1.log[|s1.log|..] == [];
    FollowsIs(s1, scripts, 0, s1, []);
  }

  /** The batch that began in s0 has come to s, after its first i turns. */
  ghost predicate BatchAt(s0: State, batch: seq<Addr>, scripts: seq<seq<Step>>, i: nat, s: State) {
    && Inv(s0) && Inv(s) && Enabled(s0, Begin(batch)) && i <= |batch|
    && InBatch(s0, batch, s) && !s.running && s.todo == batch[i..] && s0.next <= s.next
    && Follows(Apply(s0, Begin(batch)), scripts, i, s) && Leads(s0, s)
  }

  lemma BatchStarts(s0: State, batch: seq<Addr>, scripts: seq<seq<Step>>)
    requires Inv(s0) && !s0.running && Enabled(s0, Begin(batch))
    ensures BatchAt(s0, batch, scripts, 0, Apply(s0, Begin(batch)))
  {
    LeadsStep(s0, Begin(batch));
    StepKeepsInv(s0, Begin(batch));
    FollowsNone(Apply(s0, Begin(batch)), scripts);
    assert s0.log[|s0.log|..] == [];
  }

  /** One more turn of the batch. */
  lemma NextTurn(s0: State, batch: seq<Addr>, scripts: seq<seq<Step>>, s: State, i: nat)
    requires BatchAt(s0, batch, scripts, i, s) && i < |batch|
    ensures BatchAt(s0, batch, scripts, i + 1, TurnResult(s, ScriptAt(scripts, i)))
  {
    var ops := ScriptAt(scripts, i);
    TurnLeads(s, ops);
    LeadsTrans(s0, s, TurnResult(s, ops));
    TurnResultKeeps(s, ops, s0, batch);
    TurnNext(s, ops);
    StepKeepsInv(s0, Begin(batch));
    NotYet(s.log[|s0.log|..], batch, i);
    FollowsTurn(Apply(s0, Begin(batch)), scripts, i, s);
  }

  lemma NotYet(part: seq<LogEntry>, batch: seq<Addr>, i: nat)
    requires Distinct(batch) && i < |batch| && Turns(part) + batch[i..] == batch
    ensures batch[i] !in Turns(part)
  {
    assert |Turns(part)| == i && Turns(part) == batch[..i];
  }

  // ---------------------------------------------------------------- theorems

  /** The batch that began in s0 with `batch` is over, its callbacks having asked for `scripts`. */
  ghost predicate BatchFollows(s0: State, batch: seq<Addr>, scripts: seq<seq<Step>>, s: State) {
    && Inv(s0) && Inv(s) && Enabled(s0, Begin(batch))
    && InBatch(s0, batch, s) && s.todo == []
    && Follows(Apply(s0, Begin(batch)), scripts, |batch|, s)
  }

  lemma BatchParts(s0: State, batch: seq<Addr>, scripts: seq<seq<Step>>, s: State)
    requires BatchFollows(s0, batch, scripts, s)
    ensures s0.log <= s.log && Distinct(batch)
    ensures var part := s.log[|s0.log|..]; Turns(part) == batch && Scripted(part, scripts)
  {
    assert batch + [] == batch;
  }

  /** A reported channel that no callback of an earlier turn destroys is called and not skipped. */
  lemma ReportedIsCalled(s0: State, batch: seq<Addr>, scripts: seq<seq<Step>>, s: State, k: nat)
    requires BatchFollows(s0, batch, scripts, s) && k < |batch|
    requires forall i :: 0 <= i < k ==> Destroy(batch[k]) !in ScriptAt(scripts, i)
    ensures s0.log <= s.log
    ensures var part := s.log[|s0.log|..]; Called(batch[k]) in part && Skipped(batch[k]) !in part
  {
    BatchParts(s0, batch, scripts, s);
    AliveAtBegin(s0, batch, k);
    if Skipped(batch[k]) in s.log[|s0.log|..] {
      SkippedWasAsked(s0.log, s.log, batch, scripts, k);
      assert false;
    }
    TurnInLog(s.log[|s0.log|..], batch[k]);
  }

  lemma AliveAtBegin(s0: State, batch: seq<Addr>, k: nat)
    requires Inv(s0) && Enabled(s0, Begin(batch)) && k < |batch|
    ensures Destroyed(batch[k]) !in s0.log
  {
    assert batch[k] in batch;
    assert ChanOk(s0, batch[k]) && LogOk(s0.log, s0.mem, s0.freed, s0.next, batch[k]);
  }

  lemma {:induction false} TurnInLog(part: seq<LogEntry>, id: Addr)
    requires id in Turns(part)
    ensures Called(id) in part || Skipped(id) in part
    decreases |part|
  {
    if part != [] {
      var n := |part| - 1;
      if id in Turns(part[..n]) { TurnInLog(part[..n], id); }
    }
  }

  /** How many turns come before entry j. */
  lemma {:induction false} TurnAt(part: seq<LogEntry>, j: nat)
    requires j < |part| && (part[j].Called? || part[j].Skipped?)
    ensures var k := |Turns(part[..j])|; k < |Turns(part)| && Turns(part)[k] == part[j].id
    decreases |part|
  {
    var n := |part| - 1;
    if j < n {
      TurnAt(part[..n], j);
      assert part[..n][..j] == part[..j];
    }
  }

  lemma {:induction false} TurnsGrow(part: seq<LogEntry>, i: nat, j: nat)
    requires i <= j <= |part|
    ensures |Turns(part[..i])| <= |Turns(part[..j])|
    decreases j
  {
    if i < j {
      TurnsGrow(part, i, j - 1);
      assert part[..j] == part[..j - 1] + [part[j - 1]];
      TurnsAppend(part[..j - 1], part[j - 1]);
    }
  }

  lemma DestroyedInBatch(log0: seq<LogEntry>, log: seq<LogEntry>, j: nat, id: Addr) returns (d: nat)
    requires GoodLog(log) && log0 <= log && |log0| + j < |log| && log[|log0| + j] == Skipped(id)
    requires Destroyed(id) !in log0
    ensures d < j && log[|log0|..][d] == Destroyed(id)
  {
    var n := |log0| + j;
    GoodLogAt(log, n);
    var i :| 0 <= i < n && log[..n][i] == Destroyed(id);
    assert log[i] == Destroyed(id);
    d := i - |log0|;
  }

  lemma AskedEarlier(part: seq<LogEntry>, scripts: seq<seq<Step>>, d: nat, j: nat, id: Addr, k: nat)
    requires d < j < |part| && part[d] == Destroyed(id) && part[j] == Skipped(id) && Scripted(part, scripts)
    requires Distinct(Turns(part)) && k < |Turns(part)| && Turns(part)[k] == id
    ensures exists i :: 0 <= i < k && Destroy(id) in ScriptAt(scripts, i)
  {
    assert BelongsAt(part, scripts, d);
    TurnAt(part, j);
    TurnsGrow(part, d, j);
    DistinctTurn(Turns(part), |Turns(part[..j])|, k);
    assert Destroy(id) in ScriptAt(scripts, |Turns(part[..d])| - 1);
  }

  lemma SkippedWasAsked(log0: seq<LogEntry>, log: seq<LogEntry>, batch: seq<Addr>, scripts: seq<seq<Step>>, k: nat)
    requires GoodLog(log) && log0 <= log && Turns(log[|log0|..]) == batch && Distinct(batch) && k < |batch|
    requires Scripted(log[|log0|..], scripts)
    requires Skipped(batch[k]) in log[|log0|..] && Destroyed(batch[k]) !in log0
    ensures exists i :: 0 <= i < k && Destroy(batch[k]) in ScriptAt(scripts, i)
  {
    var part, id := log[|log0|..], batch[k];
    var j: nat :| j < |part| && part[j] == Skipped(id);
    var d := DestroyedInBatch(log0, log, j, id);
    AskedEarlier(part, scripts, d, j, id, k);
  }

  lemma DistinctTurn(batch: seq<Addr>, i: nat, k: nat)
    requires Distinct(batch) && i < |batch| && k < |batch| && batch[i] == batch[k]
    ensures i == k
  {
  }

  /** A channel that no callback names keeps its mask, its attachment, its liveness and its place in the
      kernel. */
  lemma BatchKeeps(s0: State, batch: seq<Addr>, scripts: seq<seq<Step>>, s: State, id: Addr)
    requires BatchFollows(s0, batch, scripts, s) && id in s0.mem && !NamedBy(scripts, |batch|, id)
    ensures Kept(s0, s, id)
  {
    assert ChanOk(s0, id);
  }

  /** A channel that a callback destroys is destroyed. */
  lemma BatchDestroys(s0: State, batch: seq<Addr>, scripts: seq<seq<Step>>, s: State, id: Addr, k: nat)
    requires BatchFollows(s0, batch, scripts, s) && id in s0.mem && k < |batch|
    requires Called(batch[k]) in s.log[|s0.log|..] && Destroy(id) in ScriptAt(scripts, k)
    ensures Destroyed(id) in s.log
  {
    BatchParts(s0, batch, scripts, s);
    assert DestroyAsked(s.log[|s0.log|..], scripts, k, id);
    FollowsDestroys(Apply(s0, Begin(batch)), scripts, |batch|, s, s.log[|s0.log|..], k, id);
  }

  lemma FollowsDestroys(s1: State, scripts: seq<seq<Step>>, n: nat, s: State, part: seq<LogEntry>, k: nat, x: Addr)
    requires Follows(s1, scripts, n, s) && part == s.log[|s1.log|..] && DestroyAsked(part, scripts, k, x) && x in s1.mem
    ensures Destroyed(x) in s.log
  {
  }

  /** Nothing is created or destroyed that the callback then running does not ask for. */
  lemma NothingUnasked(s0: State, batch: seq<Addr>, scripts: seq<seq<Step>>, s: State, j: nat)
    requires BatchFollows(s0, batch, scripts, s) && |s0.log| <= j < |s.log|
    requires s.log[j].Created? || s.log[j].Destroyed?
    ensures var k := |Turns(s.log[|s0.log|..j])| - 1;
      && 0 <= k < |batch|
      && if s.log[j].Created? then New in ScriptAt(scripts, k) else Destroy(s.log[j].id) in ScriptAt(scripts, k)
  {
    BatchParts(s0, batch, scripts, s);
    UnaskedIn(s0.log, s.log, scripts, j);
  }

  lemma UnaskedIn(log0: seq<LogEntry>, log: seq<LogEntry>, scripts: seq<seq<Step>>, j: nat)
    requires log0 <= log && Scripted(log[|log0|..], scripts)
    requires |log0| <= j < |log| && (log[j].Created? || log[j].Destroyed?)
    ensures var k := |Turns(log[|log0|..j])| - 1;
      && 0 <= k < |Turns(log[|log0|..])|
      && if log[j].Created? then New in ScriptAt(scripts, k) else Destroy(log[j].id) in ScriptAt(scripts, k)
  {
    SliceAt(log, |log0|, j);
    UnaskedAt(log[|log0|..], scripts, j - |log0|);
  }

  lemma SliceAt(log: seq<LogEntry>, n: nat, j: nat)
    requires n <= j < |log|
    ensures log[n..][..j - n] == log[n..j] && log[n..][j - n] == log[j]
  {
  }

  lemma UnaskedAt(part: seq<LogEntry>, scripts: seq<seq<Step>>, i: nat)
    requires Scripted(part, scripts) && i < |part| && (part[i].Created? || part[i].Destroyed?)
    ensures var k := |Turns(part[..i])| - 1;
      && 0 <= k < |Turns(part)|
      && if part[i].Created? then New in ScriptAt(scripts, k) else Destroy(part[i].id) in ScriptAt(scripts, k)
  {
    assert BelongsAt(part, scripts, i) && part[..|part|] == part;
    TurnsGrow(part, i, |part|);
  }
}
