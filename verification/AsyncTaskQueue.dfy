/** async_task_queue.c: the singly linked task list and its eventfd.  Each method is one atomic
    step (a lock section, an eventfd call, one round of the drain loop), so any interleaving of
    calls is an interleaving of the C threads. */
module AsyncTaskQueue {
  import opened Memory
  import opened AsyncModel

  /** `nodes` is a list that carries the given tasks. */
  ghost predicate Holds(mem: Heap<Task>, nodes: seq<Addr>, tasks: seq<Task>) {
    && Chain(mem, nodes) && |nodes| == |tasks|
    && forall i :: 0 <= i < |nodes| ==> nodes[i] in mem && mem[nodes[i]].val == tasks[i]
  }

  lemma HoldsFrame(h: Heap<Task>, h': Heap<Task>, nodes: seq<Addr>, tasks: seq<Task>)
    requires Holds(h, nodes, tasks)
    requires forall a :: a in nodes && a in h ==> a in h' && h'[a] == h[a]
    ensures Holds(h', nodes, tasks)
  {
    ChainFrame(h, h', nodes);
  }

  /** The heap after node t was appended to a list. */
  function Appended(h: Heap<Task>, end: Addr, t: Addr, task: Task): Heap<Task> {
    SetNext(h[t := Node(0, 0, task)], end, t)
  }

  lemma HoldsAppend(h: Heap<Task>, nodes: seq<Addr>, tasks: seq<Task>, t: Addr, task: Task)
    requires Holds(h, nodes, tasks) && t !in h && t != 0 && 0 !in h
    ensures Holds(Appended(h, At(nodes, |nodes| - 1), t, task), nodes + [t], tasks + [task])
  {
    var h' := Appended(h, At(nodes, |nodes| - 1), t, task);
    var r := nodes + [t];
    forall i | 0 <= i < |nodes| ensures NextOk(h, nodes, i) {}
    forall i | 0 <= i < |r| ensures NextOk(h', r, i) {
      if i < |nodes| { assert NextOk(h, nodes, i) && r[i] == nodes[i]; }
    }
  }

  lemma HoldsTail(h: Heap<Task>, nodes: seq<Addr>, tasks: seq<Task>)
    requires Holds(h, nodes, tasks) && nodes != []
    ensures nodes[0] != 0 && nodes[0] in h && h[nodes[0]].next == At(nodes[1..], 0) && h[nodes[0]].val == tasks[0]
    ensures nodes[0] !in nodes[1..]
    ensures Holds(h, nodes[1..], tasks[1..])
  {
    var r := nodes[1..];
    assert NextOk(h, nodes, 0);
    forall i | 0 <= i < |r| ensures NextOk(h, r, i) { assert NextOk(h, nodes, i + 1); }
  }

  ghost predicate NodeOk(mem: Heap<Task>, brk: Addr, queued: seq<Addr>, taken: seq<Addr>, a: Addr) {
    && (a in mem <==> a in queued || a in taken)
    && !(a in queued && a in taken)
    && (a in mem ==> 0 < a < brk)
  }

  /** The allocated nodes are those of the two lists, which carry the two task sequences. */
  ghost predicate Lists(mem: Heap<Task>, brk: Addr, queued: seq<Addr>, queue: seq<Task>,
                        taken: seq<Addr>, grabbed: seq<Task>)
  {
    && Holds(mem, queued, queue)
    && Holds(mem, taken, grabbed)
    && forall a :: NodeOk(mem, brk, queued, taken, a)
  }

  lemma ListsAppend(h: Heap<Task>, brk: Addr, queued: seq<Addr>, queue: seq<Task>,
                    taken: seq<Addr>, grabbed: seq<Task>, task: Task)
    requires Lists(h, brk, queued, queue, taken, grabbed) && brk > 0
    ensures Lists(Appended(h, At(queued, |queued| - 1), brk, task), brk + 1, queued + [brk], queue + [task],
                  taken, grabbed)
  {
    var h' := Appended(h, At(queued, |queued| - 1), brk, task);
    assert NodeOk(h, brk, queued, taken, brk) && NodeOk(h, brk, queued, taken, 0);
    if queued != [] { assert NodeOk(h, brk, queued, taken, queued[|queued| - 1]); }
    HoldsAppend(h, queued, queue, brk, task);
    HoldsFrame(h, h', taken, grabbed);
    var brk', queued' := brk + 1, queued + [brk];
    forall a ensures NodeOk(h', brk', queued', taken, a) { assert NodeOk(h, brk, queued, taken, a); }
  }

  lemma ListsTake(h: Heap<Task>, brk: Addr, queued: seq<Addr>, queue: seq<Task>, taken: seq<Addr>, grabbed: seq<Task>)
    requires Lists(h, brk, queued, queue, taken, grabbed) && taken != []
    ensures taken[0] in h && h[taken[0]].next == At(taken[1..], 0) && h[taken[0]].val == grabbed[0]
    ensures Lists(h - {taken[0]}, brk, queued, queue, taken[1..], grabbed[1..])
  {
    var h' := h - {taken[0]};
    HoldsTail(h, taken, grabbed);
    assert taken == [taken[0]] + taken[1..];
    assert NodeOk(h, brk, queued, taken, taken[0]);
    HoldsFrame(h, h', taken[1..], grabbed[1..]);
    HoldsFrame(h, h', queued, queue);
    forall a ensures NodeOk(h', brk, queued, taken[1..], a) { assert NodeOk(h, brk, queued, taken, a); }
  }

  class AsyncTaskQueue {
    var mem: Heap<Task>
    var brk: Addr
    var asyncTask: Addr
    var asyncTaskEnd: Addr
    var counter: nat            // the eventfd
    var started: bool           // of the loop
    var quited: bool
    var task: Addr              // async_task_queue_process's local list
    ghost var queued: seq<Addr>
    ghost var taken: seq<Addr>
    ghost var g: State

    ghost predicate Valid()
      reads this
    {
      && Inv(g)
      && brk > 0 && Lists(mem, brk, queued, g.queue, taken, g.grabbed)
      && asyncTask == At(queued, 0) && asyncTaskEnd == At(queued, |queued| - 1)
      && task == At(taken, 0)
      && counter == g.counter && started == g.started && quited == g.quited
    }

    constructor ()
      ensures Valid() && g == INIT
    {
      mem, brk, asyncTask, asyncTaskEnd, counter, task := map[], 1, 0, 0, 0, 0;
      started, quited := false, false;
      queued, taken, g := [], [], INIT;
    }

    /** The lock section of async_task_queue_submit. */
    method Submit(callback: Task)
      requires Valid()
      modifies this
      ensures Valid() && g == Apply(old(g), Step.Submit(callback))
    {
      StepKeepsInv(g, Step.Submit(callback));
      ListsAppend(mem, brk, queued, g.queue, taken, g.grabbed, callback);
      var t := Link(callback);
      queued := queued + [t];
      g := DoSubmit(g, callback);
    }

    /** loop_run_inloop: `ran` says that the task was run at once, in the calling thread. */
    method RunInloop(callback: Task, onLoopThread: bool) returns (ran: bool)
      requires Valid()
      modifies this
      ensures Valid() && g == Apply(old(g), Step.RunInloop(callback, onLoopThread))
      ensures ran <==> !old(g.started) || onLoopThread || old(g.quited)
      ensures ran ==> g.inlined == old(g.inlined) + [callback] && g.queue == old(g.queue)
      ensures !ran ==> g.inlined == old(g.inlined) && g.queue == old(g.queue) + [callback]
    {
      ghost var e := Step.RunInloop(callback, onLoopThread);
      StepKeepsInv(g, e);
      if !started || onLoopThread || quited {
        g := Apply(g, e);
        return true;
      }
      Submit(callback);
      return false;
    }

    /** A new node behind the last one. */
    method Link(callback: Task) returns (t: Addr)
      requires brk > 0 && Lists(mem, brk, queued, g.queue, taken, g.grabbed)
      requires asyncTask == At(queued, 0) && asyncTaskEnd == At(queued, |queued| - 1)
      modifies `mem, `brk, `asyncTask, `asyncTaskEnd
      ensures t == old(brk) && brk == t + 1 && asyncTaskEnd == t
      ensures asyncTask == At(queued + [t], 0)
      ensures mem == Appended(old(mem), At(queued, |queued| - 1), t, callback)
    {
      t := brk;
      NullEnds(mem, queued, 0);
      assert NodeOk(mem, brk, queued, taken, asyncTaskEnd) && NodeOk(mem, brk, queued, taken, 0);
      brk := brk + 1;
      mem := mem[t := Node(0, 0, callback)];
      if asyncTask == 0 {
        asyncTask := t;
      } else {
        mem := mem[asyncTaskEnd := mem[asyncTaskEnd].(next := t)];
      }
      asyncTaskEnd := t;
    }

    /** eventfd_write(fd, 1): a full counter refuses the write, and the result is ignored. */
    method Signal()
      requires Valid() && Enabled(g, Step.Signal)
      modifies `counter, `g
      ensures Valid() && g == Apply(old(g), Step.Signal)
    {
      StepKeepsInv(g, Step.Signal);
      if counter < COUNTER_MAX { counter := counter + 1; }
      g := Apply(g, Step.Signal);
    }

    /** eventfd_read, after epoll_wait reported the eventfd readable. */
    method Wake()
      requires Valid() && Enabled(g, Step.Wake)
      modifies `counter, `g
      ensures Valid() && g == Apply(old(g), Step.Wake)
    {
      StepKeepsInv(g, Step.Wake);
      counter := 0;
      g := Apply(g, Step.Wake);
    }

    /** The lock section of async_task_queue_process. */
    method Grab()
      requires Valid() && Enabled(g, Step.Grab)
      modifies this
      ensures Valid() && g == Apply(old(g), Step.Grab)
    {
      StepKeepsInv(g, Step.Grab);
      forall a ensures NodeOk(mem, brk, [], queued, a) { assert NodeOk(mem, brk, queued, taken, a); }
      task := asyncTask;
      asyncTask := 0;
      asyncTaskEnd := 0;
      taken, queued := queued, [];
      g := Apply(g, Step.Grab);
    }

    /** One round of the drain loop: the first taken task runs and its node is freed. */
    method RunNext() returns (callback: Task)
      requires Valid() && Enabled(g, Step.RunTask)
      modifies this
      ensures Valid() && g == Apply(old(g), Step.RunTask) && callback == old(g.grabbed[0])
    {
      StepKeepsInv(g, Step.RunTask);
      ListsTake(mem, brk, queued, g.queue, taken, g.grabbed);
      var tIter := mem[task].next;
      callback := mem[task].val;
      mem := mem - {task};
      task := tIter;
      taken := taken[1..];
      g := Apply(g, Step.RunTask);
    }

    /** async_task_event without the read: takes the list and runs it to the end; posted[i] are
        the submissions, by the i-th task or by other threads, that come in while it runs, and make
        up the queue afterwards. */
    method Process(posted: seq<seq<Task>>)
      requires Valid() && g.pc.Awake?
      modifies this
      ensures Valid() && g.pc.Polling? && g.grabbed == []
      ensures g.executed == old(g.executed) + old(g.queue)
      ensures g.queue == Posted(posted, |old(g.queue)|)
      ensures Leads(old(g), g)
    {
      ghost var done := g.executed + g.queue;
      LeadsStep(g, Step.Grab);
      Grab();
      var i: nat := 0;
      NullEnds(mem, taken, 0);
      while task != 0
        invariant Valid() && g.pc.Draining? && (task != 0 <==> g.grabbed != [])
        invariant g.executed + g.grabbed == done && i + |g.grabbed| == |old(g.queue)|
        invariant g.queue == Posted(posted, i)
        invariant Leads(old(g), g)
        decreases |g.grabbed|
      {
        ghost var before := g;
        ProcessOne(if i < |posted| then posted[i] else []);
        LeadsTrans(old(g), before, g);
        i := i + 1;
      }
      ghost var last := g;
      Leave();
      LeadsTrans(old(g), last, g);
    }

    /** The list is empty: back to epoll_wait. */
    ghost method Leave()
      requires Valid() && Enabled(g, Step.Return)
      modifies `g
      ensures Valid() && g == Apply(old(g), Step.Return) && Leads(old(g), g)
    {
      StepKeepsInv(g, Step.Return);
      LeadsStep(g, Step.Return);
      g := Apply(g, Step.Return);
    }

    method ProcessOne(posted: seq<Task>)
      requires Valid() && g.pc.Draining? && g.grabbed != []
      modifies this
      ensures Valid() && g.pc.Draining? && (task != 0 <==> g.grabbed != [])
      ensures g.executed + g.grabbed == old(g.executed) + old(g.grabbed) && |g.grabbed| == |old(g.grabbed)| - 1
      ensures g.queue == old(g.queue) + posted && Leads(old(g), g)
    {
      LeadsStep(g, Step.RunTask);
      var callback := RunNext();
      assert old(g.executed) + [old(g.grabbed)[0]] + old(g.grabbed)[1..] == old(g.executed) + old(g.grabbed);
      ghost var ran := g;
      SubmitAll(posted);
      LeadsTrans(old(g), ran, g);
      NullEnds(mem, taken, 0);
    }

    method SubmitAll(tasks: seq<Task>)
      requires Valid()
      modifies this
      ensures Valid() && g.grabbed == old(g.grabbed) && g.executed == old(g.executed) && g.pc == old(g.pc)
      ensures g.queue == old(g.queue) + tasks && Leads(old(g), g)
    {
      var i := 0;
      LeadsSame(g);
      while i < |tasks|
        invariant i <= |tasks| && Valid()
        invariant g.grabbed == old(g.grabbed) && g.executed == old(g.executed) && g.pc == old(g.pc)
        invariant g.queue == old(g.queue) + tasks[..i] && Leads(old(g), g)
      {
        ghost var before := g;
        LeadsStep(g, Step.Submit(tasks[i]));
        Submit(tasks[i]);
        LeadsTrans(old(g), before, g);
        assert tasks[..i + 1] == tasks[..i] + [tasks[i]];
        i := i + 1;
      }
      assert tasks[..i] == tasks;
    }
  }

  /** The submissions that come in while the first n tasks run. */
  function Posted(posted: seq<seq<Task>>, n: nat): seq<Task> {
    if n == 0 then [] else Posted(posted, n - 1) + (if n - 1 < |posted| then posted[n - 1] else [])
  }
}
