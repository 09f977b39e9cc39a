/**
 The Scheduler object of pkg/scheduler/scheduler.go over its queue, wheel, lock and breaker.  Each method is one
 goroutine's piece of work taken on its own, and performs a sequence of enabled events of the instance of module
 Node, where such pieces are interleaved; the ghost field carries that instance.
 */
module SchedulerService {
  import opened Wrappers
  import opened Tasks
  import opened SchedulerEvents
  import Q = TaskHeap
  import TW = TimeWheel
  import W = WheelTiming
  import L = Lease
  import LS = LockService
  import B = Breaker
  import N = Node

  const TICK: nat := 50  // milliseconds

  // Without a row nothing is run.
  function EndsAs(outcome: Outcome, row: Option<L.Row>): Outcome {
    if row.None? then NotFound else outcome
  }

  // The lease columns of the entry that runTask fills in and saves back; they stay zero if the row was not read.
  function ColumnsRead(ends: Outcome, row: Option<L.Row>): L.Row {
    if ends.NotFound? || row.None? then L.Row("", 0) else row.value
  }

  class Scheduler {
    const cfg: N.Config
    const taskQueue: Q.TaskQueue
    const timeWheel: TW.TimeWheel
    const lock: LS.MySQLLock
    const circuitBreaker: B.CircuitBreaker
    ghost var tasks: map<string, Task>  // the registered ones
    ghost var node: N.State

    ghost predicate DuesAre()
      reads this, tasks.Values
    {
      node.next.Keys == tasks.Keys && forall name :: name in tasks ==> node.next[name] == tasks[name].nextRun
    }

    // The due times of all tasks but one.
    ghost predicate DuesBut(task: Task)
      reads this, tasks.Values
    {
      && node.next.Keys + {task.name} == tasks.Keys
      && forall name :: name in tasks && name != task.name ==>
           name in node.next && node.next[name] == tasks[name].nextRun
    }

    ghost predicate Wired()
      reads this, taskQueue, timeWheel, circuitBreaker
    {
      && timeWheel.taskQueue == taskQueue && timeWheel.Valid() && circuitBreaker.Valid()
      && circuitBreaker.threshold == cfg.threshold && circuitBreaker.isolateTime == cfg.isolate
      && node.circuit == B.Circuit(circuitBreaker.failCount, circuitBreaker.trippedAt)
    }

    ghost predicate Valid()
      reads this, taskQueue, timeWheel, circuitBreaker, tasks.Values
    {
      && Wired() && Registry(cfg, tasks) && DuesAre()
      && QueueIs(tasks, taskQueue.heap, node.queue) && node.cur == timeWheel.currentSlot
         && WheelIs(tasks, timeWheel.slots, node.slots)
    }

    constructor (cfg: N.Config, table: LS.LeaseTable, instanceName: string, leaseDuration: Time)
      ensures Valid() && N.Init(node) && tasks == map[] && |timeWheel.slots| == 10
      ensures fresh(taskQueue) && fresh(timeWheel) && fresh(lock) && fresh(circuitBreaker)
      ensures this.cfg == cfg && lock.table == table && lock.instanceName == instanceName
              && lock.leaseDuration == leaseDuration
    {
      var queue := new Q.TaskQueue();
      var wheel := new TW.TimeWheel(TICK, queue);
      this.cfg, taskQueue, timeWheel := cfg, queue, wheel;
      lock := new LS.MySQLLock(table, instanceName, leaseDuration);
      circuitBreaker := new B.CircuitBreaker(cfg.threshold, cfg.isolate);
      tasks := map[];
      node := N.State(seq(W.SlotCount(TICK), _ => {}), 0, false, {}, multiset{}, N.Nothing, map[], map[], B.CLOSED,
                      map[], map[]);
    }

    // Where AddTask puts a task that is due then.
    function SlotFor(due: Time, addNow: Time): nat
      reads timeWheel
      requires timeWheel.currentSlot < |timeWheel.slots|
    {
      W.Target(timeWheel.currentSlot, |timeWheel.slots|, due, addNow)
    }

    // SetNextRunTime and AddTask, bringing the instance to s'.
    method Readd(task: Task, due: Time, addNow: Time, ghost s': N.State)
      requires Wired() && Registry(cfg, tasks) && task.name in tasks && tasks[task.name] == task && DuesBut(task)
      requires QueueIs(tasks, taskQueue.heap, node.queue) && node.cur == timeWheel.currentSlot
               && WheelIs(tasks, timeWheel.slots, node.slots)
      requires s'.slots == N.Into(node.slots, SlotFor(due, addNow), task.name) && s'.next == node.next[task.name := due]
      requires s'.cur == node.cur && s'.queue == node.queue && s'.circuit == node.circuit
      modifies this`node, task, timeWheel
      ensures Valid() && node == s' && task.nextRun == due
    {
      hide N.Into, W.Target, Q.Ordered, B.Replay, QueueIs, TW.Placed, WheelIs;
      ghost var was := timeWheel.slots;
      task.nextRun := due;
      timeWheel.AddTask(task, addNow);
      PlacedIs(tasks, was, timeWheel.currentSlot, node.slots, task, due, addNow);
      node := s';
      assert DuesAre();
      assert Wired();
    }

    // A new task goes into the wheel for the first time.
    method Enroll(task: Task, due: Time, now: Time, added: Time)
      requires Valid() && task.name !in tasks
      requires task.name in cfg.interval && cfg.interval[task.name] == task.interval
      requires task.name in cfg.priority && cfg.priority[task.name] == task.priority
      modifies this`node, this`tasks, task, timeWheel
      ensures Valid() && tasks == old(tasks)[task.name := task] && task.nextRun == due
      ensures node == N.Apply(cfg, old(node), now, N.Register(task.name, due, old(SlotFor(due, added))))
    {
      ghost var k := SlotFor(due, added);
      hide N.Apply, N.Enabled, N.Into, W.Target, QueueIs, WheelIs, TW.TimeWheel.Valid, B.CircuitBreaker.Valid;
      QueueOfMore(tasks, taskQueue.heap, node.queue, task);
      WheelOfMore(tasks, timeWheel.slots, node.slots, task);
      RegisteredIs(cfg, node, now, task.name, due, k);
      tasks := tasks[task.name := task];
      Readd(task, due, added, N.Apply(cfg, node, now, N.Register(task.name, due, k)));
    }

    method RegisterTask(task: Task, stored: Time, now: Time, added: Time)
      requires Valid() && task.name !in tasks
      requires task.name in cfg.interval && cfg.interval[task.name] == task.interval
      requires task.name in cfg.priority && cfg.priority[task.name] == task.priority
      modifies this`node, this`tasks, task, timeWheel, lock.table
      ensures Valid() && tasks == old(tasks)[task.name := task]
      ensures task.nextRun == if task.name in old(lock.table.rows) then stored else now + task.interval
      ensures lock.table.rows ==
              if task.name in old(lock.table.rows) then old(lock.table.rows)
                else old(lock.table.rows)[task.name := L.Row("", 0)]
      ensures var due := if task.name in old(lock.table.rows) then stored else now + task.interval;
              node == N.Apply(cfg, old(node), now, N.Register(task.name, due, old(SlotFor(due, added))))
    {
      hide N.Apply, N.Enabled, W.Target, QueueIs, WheelIs, Registry, DuesAre;
      var due := stored;
      if task.name !in lock.table.rows {
        due := now + task.interval;
        lock.table.Insert(task.name);
      }
      Enroll(task, due, now, added);
    }

    // Pop, once the queue holds a task.
    method PopNext(now: Time) returns (task: Task)
      requires Valid() && taskQueue.heap != [] && node.hand == N.Nothing
      modifies this`node, taskQueue
      ensures Valid() && task == Q.Top(old(taskQueue.heap)) && task.name in tasks && tasks[task.name] == task
      ensures N.Enabled(cfg, old(node), now, N.Pop(task.name)) && node == N.Apply(cfg, old(node), now, N.Pop(task.name))
      ensures node.hand == N.Popped(task.name)
    {
      hide N.Apply, N.Enabled, Q.Ordered, B.Replay, QueueIs, Registry, WheelIs;
      task := taskQueue.Pop();
      PopIs(cfg, node, now, tasks, old(taskQueue.heap), taskQueue.heap, task);
      node := N.Apply(cfg, node, now, N.Pop(task.name));
    }

    // Pop and TryLock.
    method TakeNext(now: Time, f: L.Fault) returns (task: Task, got: bool)
      requires Valid() && taskQueue.heap != [] && node.hand == N.Nothing
      modifies this`node, taskQueue, lock, lock.table
      ensures Valid() && task == Q.Top(old(taskQueue.heap)) && task.name in tasks && tasks[task.name] == task
      ensures var reply := L.TryLock(lock.leaseDuration, lock.instanceName, now, old(lock.CellAt(task.name)), f);
              lock.CellAt(task.name) == reply.cell && got == reply.ok
      ensures forall t :: t != task.name ==> lock.CellAt(t) == old(lock.CellAt(t))
      ensures node.hand == N.Popped(task.name) && node.circuit == old(node).circuit && node.next == old(node).next
      ensures Plays(cfg, old(node), [(now, N.Pop(task.name))], node)
    {
      hide N.Apply, N.Enabled, W.Target, QueueIs, WheelIs, Registry, Plays, B.Replay, L.TryLock;
      task := PopNext(now);
      OnePlay(cfg, old(node), (now, N.Pop(task.name)));
      PopKeepsBreaker(cfg, old(node), now, task.name);
      var ok, err := lock.TryLock(task.name, now, f);
      ErrorMeansNo(lock.leaseDuration, lock.instanceName, now, old(lock.CellAt(task.name)), f);
      got := ok && !err;
    }

    // Back to the wheel, due one interval from now, after a TryLock that failed.
    method PutOff(task: Task, again: Time, added: Time) returns (ghost k: nat)
      requires Valid() && node.hand == N.Popped(task.name) && task.name in tasks && tasks[task.name] == task
      modifies this`node, timeWheel, task
      ensures Valid() && node.hand == N.Nothing && k == old(SlotFor(again + task.interval, added))
      ensures task.nextRun == again + task.interval && node.next == old(node).next[task.name := again + task.interval]
      ensures Plays(cfg, old(node), [(again, N.NoLock(task.name, k))], node)
    {
      hide N.Apply, N.Enabled, N.Into, W.Target, QueueIs, Plays, B.Replay;
      KnownTask(cfg, tasks, task);
      k := SlotFor(again + task.interval, added);
      NoLockIs(cfg, node, again, task.name, k);
      OnePlay(cfg, node, (again, N.NoLock(task.name, k)));
      Readd(task, again + task.interval, added, N.Apply(cfg, node, again, N.NoLock(task.name, k)));
    }

    // The same for a task that the breaker isolates.
    method SendBack(task: Task, again: Time, added: Time) returns (ghost k: nat)
      requires Valid() && node.hand == N.Refused(task.name) && task.name in tasks && tasks[task.name] == task
      modifies this`node, timeWheel, task
      ensures Valid() && node.hand == N.Nothing && k == old(SlotFor(again + task.interval, added))
      ensures task.nextRun == again + task.interval && node.next == old(node).next[task.name := again + task.interval]
      ensures Plays(cfg, old(node), [(again, N.Isolate(task.name, k))], node)
    {
      hide N.Apply, N.Enabled, N.Into, W.Target, QueueIs, Plays, B.Replay;
      KnownTask(cfg, tasks, task);
      k := SlotFor(again + task.interval, added);
      IsolateIs(cfg, node, again, task.name, k);
      OnePlay(cfg, node, (again, N.Isolate(task.name, k)));
      Readd(task, again + task.interval, added, N.Apply(cfg, node, again, N.Isolate(task.name, k)));
    }

    // With the lock in hand, the breaker is asked.
    method AskBreaker(task: Task, locked: Time, asked: Time) returns (refused: bool)
      requires Valid() && node.hand == N.Popped(task.name)
      modifies this`node, circuitBreaker
      ensures Valid() && refused == B.Isolated(cfg.isolate, old(node).circuit, task.name, asked)
      ensures if refused then node.hand == N.Refused(task.name)
              else node.hand == N.Nothing && N.InPhase(node, task.name, N.Starting)
      ensures Plays(cfg, old(node), [(locked, N.GotLock(task.name)), (asked, N.Ask(task.name))], node)
      ensures node.next == old(node).next
    {
      hide N.Apply, N.Enabled, QueueIs, WheelIs, Registry, Plays, B.Replay, B.Queried;
      var t := task.name;
      GotLockIs(cfg, node, locked, t);
      ghost var granted := N.Apply(cfg, node, locked, N.GotLock(t));
      AskIs(cfg, granted, asked, t);
      TwoPlays(cfg, node, (locked, N.GotLock(t)), (asked, N.Ask(t)));
      AnswerIs(cfg, circuitBreaker.log, t, asked);
      refused := circuitBreaker.IsIsolated(t, asked);
      node := N.Apply(cfg, granted, asked, N.Ask(t));
    }

    // The task whose lock was got goes back to the wheel if the breaker isolates it, and to a new goroutine if not.
    method Check(task: Task, r: RoundTimes) returns (refused: bool, ghost k: nat)
      requires Valid() && node.hand == N.Popped(task.name) && task.name in tasks && tasks[task.name] == task
      modifies this`node, timeWheel, circuitBreaker, task
      ensures Valid() && node.hand == N.Nothing
              && refused == B.Isolated(cfg.isolate, old(node).circuit, task.name, r.asked)
      ensures !refused ==> N.InPhase(node, task.name, N.Starting) && task.nextRun == old(task.nextRun)
      ensures node.next == if refused then old(node).next[task.name := r.again + task.interval] else old(node).next
      ensures refused ==>
                k == old(SlotFor(r.again + task.interval, r.added)) && task.nextRun == r.again + task.interval
      ensures Plays(cfg, old(node), CheckEvents(task.name, refused, r, k), node)
    {
      hide N.Apply, N.Enabled, QueueIs, WheelIs, Registry, Plays, DuesAre, Wired, B.Isolated;
      refused := AskBreaker(task, r.lock, r.asked);
      ghost var asked, es := node, CheckEvents(task.name, false, r, 0);
      assert es == [(r.lock, N.GotLock(task.name)), (r.asked, N.Ask(task.name))];
      k := 0;
      if refused {
        k := SendBack(task, r.again, r.added);
        PlaysOn(cfg, old(node), es, asked, [(r.again, N.Isolate(task.name, k))], node);
        assert es + [(r.again, N.Isolate(task.name, k))] == CheckEvents(task.name, true, r, k);
      } else {
        assert es == CheckEvents(task.name, false, r, k);
      }
    }

    // One iteration of the loop in Start, once the queue holds a task: the popped task, whether its lock was
    // got, and whether it was handed to a new goroutine.
    method DispatchNext(r: RoundTimes, f: L.Fault) returns (task: Task, got: bool, started: bool, ghost k: nat)
      requires Valid() && taskQueue.heap != [] && node.hand == N.Nothing
      modifies this`node, taskQueue, timeWheel, lock, lock.table, circuitBreaker, tasks.Values
      ensures Valid() && node.hand == N.Nothing
      ensures task == Q.Top(old(taskQueue.heap)) && task.name in tasks && tasks[task.name] == task
      ensures var reply := L.TryLock(lock.leaseDuration, lock.instanceName, r.lock, old(lock.CellAt(task.name)), f);
              lock.CellAt(task.name) == reply.cell && got == reply.ok
      ensures started == (got && !B.Isolated(cfg.isolate, old(node).circuit, task.name, r.asked))
      ensures started ==> N.InPhase(node, task.name, N.Starting) && task.nextRun == old(task.nextRun)
      ensures !started ==>
                k == old(SlotFor(r.again + task.interval, r.added)) && task.nextRun == r.again + task.interval
      ensures forall t :: t != task.name ==> lock.CellAt(t) == old(lock.CellAt(t))
      ensures node.next == if started then old(node).next else old(node).next[task.name := r.again + task.interval]
      ensures Plays(cfg, old(node), DispatchEvents(task.name, got, !started, r, k), node)
    {
      hide N.Apply, N.Enabled, QueueIs, WheelIs, Registry, Plays, CheckEvents, DuesAre, Wired, B.Isolated, L.TryLock;
      task, got := TakeNext(r.lock, f);
      ghost var popped := node;
      if !got {
        k := PutOff(task, r.again, r.added);
        started := false;
        PlaysOn(cfg, old(node), [(r.lock, N.Pop(task.name))], popped, [(r.again, N.NoLock(task.name, k))], node);
      } else {
        var refused;
        refused, k := Check(task, r);
        started := !refused;
        PlaysOn(cfg, old(node), [(r.lock, N.Pop(task.name))], popped, CheckEvents(task.name, refused, r, k), node);
      }
    }

    // An event of a run that the breaker does not see.
    ghost method Step(now: Time, e: N.Event)
      requires Valid() && N.IsPhaseEvent(e) && !e.Retime? && !e.Succeed? && !e.Fail? && !e.AskUnlock?
               && N.Enabled(cfg, node, now, e)
      modifies this`node
      ensures Valid() && node == N.Apply(cfg, old(node), now, e) && node.circuit == old(node).circuit
      ensures node.next == old(node).next
      ensures N.InPhase(node, e.t, if e.Begin? then N.Running else N.Ending)
    {
      hide N.Apply, N.Enabled, QueueIs, WheelIs, Registry, B.Replay;
      PhaseIs(cfg, node, now, e);
      node := N.Apply(cfg, node, now, e);
    }

    method OnSuccess(task: Task, over: Time)
      requires Valid() && N.InPhase(node, task.name, N.Running)
      modifies this`node, circuitBreaker
      ensures Valid() && N.InPhase(node, task.name, N.Ending) && node.next == old(node).next
      ensures Plays(cfg, old(node), [(over, N.Succeed(task.name))], node)
      ensures circuitBreaker.log == old(circuitBreaker.log) + [B.Success(task.name)]
      ensures B.FailsOf(node.circuit, task.name) == 0 && task.name !in node.circuit.trippedAt
    {
      hide N.Apply, Plays, QueueIs, WheelIs, Registry, B.Replay;
      PhaseIs(cfg, node, over, N.Succeed(task.name));
      OnePlay(cfg, node, (over, N.Succeed(task.name)));
      ReplayOne(cfg.threshold, cfg.isolate, circuitBreaker.log, B.Success(task.name));
      circuitBreaker.OnSuccess(task.name);
      node := N.Apply(cfg, node, over, N.Succeed(task.name));
    }

    // OnFailure of the breaker and its answer afterwards.
    method Fail(task: Task, over: Time, asked: Time) returns (isolated: bool)
      requires Valid() && N.InPhase(node, task.name, N.Running)
      modifies this`node, circuitBreaker
      ensures Valid() && N.InPhase(node, task.name, if isolated then N.Unlocking else N.Ending)
      ensures node.next == old(node).next
      ensures Plays(cfg, old(node), [(over, N.Fail(task.name))] + [(asked, N.AskUnlock(task.name))], node)
      ensures circuitBreaker.log ==
              old(circuitBreaker.log) + [B.Failure(task.name, over)] + [B.Query(task.name, asked)]
      ensures var n := B.FailsOf(old(node).circuit, task.name) + 1;
              && isolated == (n >= cfg.threshold && asked - over <= cfg.isolate)
              && B.FailsOf(node.circuit, task.name) ==
                 (if n >= cfg.threshold && asked - over > cfg.isolate then 0 else n)
              && (task.name in node.circuit.trippedAt <==> isolated)
    {
      hide N.Apply, Plays, QueueIs, WheelIs, Registry, FailureIsolates, B.Replay, B.Failed, B.Queried, B.Isolated;
      FailureCounts(cfg, circuitBreaker.log, task.name, over, asked);
      hide B.FailsOf;
      var t := task.name;
      FailIs(cfg, node, over, asked, t, circuitBreaker.log);
      circuitBreaker.OnFailure(t, over);
      isolated := circuitBreaker.IsIsolated(t, asked);
      node := N.Apply(cfg, N.Apply(cfg, node, over, N.Fail(t)), asked, N.AskUnlock(t));
    }

    // The failure is counted; if it leaves the task isolated, its lock is released.
    method OnFailure(task: Task, r: RunTimes, f: L.Fault) returns (unlocked: bool)
      requires Valid() && N.InPhase(node, task.name, N.Running)
      modifies this`node, circuitBreaker, lock, lock.table
      ensures Valid() && N.InPhase(node, task.name, N.Ending) && node.next == old(node).next
      ensures Plays(cfg, old(node), FailureEvents(task.name, unlocked, r), node)
      ensures circuitBreaker.log ==
              old(circuitBreaker.log) + [B.Failure(task.name, r.over)] + [B.Query(task.name, r.asked)]
      ensures var n := B.FailsOf(old(node).circuit, task.name) + 1;
              && unlocked == (n >= cfg.threshold && r.asked - r.over <= cfg.isolate)
              && B.FailsOf(node.circuit, task.name) ==
                 (if n >= cfg.threshold && r.asked - r.over > cfg.isolate then 0 else n)
              && (task.name in node.circuit.trippedAt <==> unlocked)
      ensures lock.CellAt(task.name) ==
              if unlocked then L.Unlock(lock.instanceName, r.unlocked, old(lock.CellAt(task.name)), f)
                else old(lock.CellAt(task.name))
      ensures forall t :: t != task.name ==> lock.CellAt(t) == old(lock.CellAt(t))
    {
      hide N.Apply, Plays, QueueIs, WheelIs, Registry, B.FailsOf, B.Replay, L.Unlock;
      unlocked := Fail(task, r.over, r.asked);
      ghost var es := [(r.over, N.Fail(task.name))] + [(r.asked, N.AskUnlock(task.name))];
      assert FailureEvents(task.name, false, r) == es;
      if unlocked {
        var _ := lock.Unlock(task.name, r.unlocked, f);
        PlaysMore(cfg, old(node), es, node, (r.unlocked, N.UnlockDone(task.name)));
        Step(r.unlocked, N.UnlockDone(task.name));
      }
    }

    // What becomes of Run: nothing is recorded of a panic.
    method Finish(task: Task, outcome: Outcome, r: RunTimes, f: L.Fault) returns (unlocked: bool)
      requires Valid() && N.InPhase(node, task.name, N.Running) && !outcome.NotFound?
      modifies this`node, circuitBreaker, lock, lock.table
      ensures Valid() && N.InPhase(node, task.name, N.Ending) && node.next == old(node).next
      ensures Plays(cfg, old(node), FinishEvents(task.name, outcome, unlocked, r), node)
      ensures circuitBreaker.log ==
              match outcome
              case Succeeds => old(circuitBreaker.log) + [B.Success(task.name)]
              case Errs => old(circuitBreaker.log) + [B.Failure(task.name, r.over)] + [B.Query(task.name, r.asked)]
              case _ => old(circuitBreaker.log)
      ensures outcome.Succeeds? ==> B.FailsOf(node.circuit, task.name) == 0 && task.name !in node.circuit.trippedAt
      ensures outcome.Panics? || outcome.NotFound? ==> node.circuit == old(node).circuit
      ensures var n := B.FailsOf(old(node).circuit, task.name) + 1;
              && unlocked == (outcome.Errs? && n >= cfg.threshold && r.asked - r.over <= cfg.isolate)
              && (outcome.Errs? ==>
                    && B.FailsOf(node.circuit, task.name) ==
                       (if n >= cfg.threshold && r.asked - r.over > cfg.isolate then 0 else n)
                    && (task.name in node.circuit.trippedAt <==> unlocked))
      ensures lock.CellAt(task.name) ==
              if unlocked then L.Unlock(lock.instanceName, r.unlocked, old(lock.CellAt(task.name)), f)
                else old(lock.CellAt(task.name))
      ensures forall t :: t != task.name ==> lock.CellAt(t) == old(lock.CellAt(t))
    {
      hide N.Apply, N.Enabled, Plays, FailureEvents, FailureIsolates, QueueIs, WheelIs, Registry, B.Replay, L.Unlock;
      unlocked := false;
      match outcome
      case Succeeds =>
        OnSuccess(task, r.over);
      case Errs =>
        unlocked := OnFailure(task, r, f);
      case Panics =>
        PanicEnabled(cfg, node, r.over, task.name);
        OnePlay(cfg, node, (r.over, N.Panic(task.name)));
        Step(r.over, N.Panic(task.name));
    }

    // The body of runTask up to its deferred part.
    method Perform(task: Task, outcome: Outcome, r: RunTimes, f: L.Fault) returns (unlocked: bool)
      requires Valid() && N.InPhase(node, task.name, N.Starting)
      modifies this`node, circuitBreaker, lock, lock.table
      ensures Valid() && N.InPhase(node, task.name, N.Ending) && node.next == old(node).next
      ensures Plays(cfg, old(node), RunEvents(task.name, outcome, unlocked, r), node)
      ensures circuitBreaker.log ==
              match outcome
              case Succeeds => old(circuitBreaker.log) + [B.Success(task.name)]
              case Errs => old(circuitBreaker.log) + [B.Failure(task.name, r.over)] + [B.Query(task.name, r.asked)]
              case _ => old(circuitBreaker.log)
      ensures outcome.Succeeds? ==> B.FailsOf(node.circuit, task.name) == 0 && task.name !in node.circuit.trippedAt
      ensures outcome.Panics? || outcome.NotFound? ==> node.circuit == old(node).circuit
      ensures var n := B.FailsOf(old(node).circuit, task.name) + 1;
              && unlocked == (outcome.Errs? && n >= cfg.threshold && r.asked - r.over <= cfg.isolate)
              && (outcome.Errs? ==>
                    && B.FailsOf(node.circuit, task.name) ==
                       (if n >= cfg.threshold && r.asked - r.over > cfg.isolate then 0 else n)
                    && (task.name in node.circuit.trippedAt <==> unlocked))
      ensures lock.CellAt(task.name) ==
              if unlocked then L.Unlock(lock.instanceName, r.unlocked, old(lock.CellAt(task.name)), f)
                else old(lock.CellAt(task.name))
      ensures forall t :: t != task.name ==> lock.CellAt(t) == old(lock.CellAt(t))
    {
      StartEnabled(cfg, node, r.began, task.name);
      hide N.Apply, N.Enabled, Plays, FinishEvents, FailureIsolates, QueueIs, WheelIs, Registry, DuesAre, Wired,
        L.Unlock;
      ghost var first := (r.began, if outcome.NotFound? then N.FindFailed(task.name) else N.Begin(task.name));
      OnePlay(cfg, node, first);
      Step(r.began, first.1);
      unlocked := false;
      if !outcome.NotFound? {
        ghost var running := node;
        unlocked := Finish(task, outcome, r, f);
        PlaysOn(cfg, old(node), [first], running, FinishEvents(task.name, outcome, unlocked, r), node);
      }
    }

    // The deferred part but for the row: the task is re-timed and goes back to the wheel.
    method Return(task: Task, ended: Time, added: Time) returns (ghost k: nat)
      requires Valid() && N.InPhase(node, task.name, N.Ending) && task.name in tasks && tasks[task.name] == task
      modifies this`node, timeWheel, task
      ensures Valid() && k == old(SlotFor(ended + task.interval, added))
      ensures Plays(cfg, old(node), EndEvents(task.name, ended, k), node) && node.circuit == old(node).circuit
      ensures task.nextRun == ended + task.interval && task.name !in node.runs
      ensures node.next == old(node).next[task.name := ended + task.interval]
    {
      hide N.Apply, N.Enabled, N.Into, W.Target, QueueIs, Plays, B.Replay;
      KnownTask(cfg, tasks, task);
      k := SlotFor(ended + task.interval, added);
      EndIs(cfg, node, ended, task.name, k);
      TwoPlays(cfg, node, (ended, N.Retime(task.name)), (ended, N.PutBack(task.name, k)));
      Readd(task, ended + task.interval, added,
            N.Apply(cfg, N.Apply(cfg, node, ended, N.Retime(task.name)), ended, N.PutBack(task.name, k)));
      assert task.nextRun == ended + task.interval by { assert DuesAre(); }
    }

    // The whole of runTask.  It reads the task's row first and saves it back last, with the lease columns it read.
    method RunTask(task: Task, outcome: Outcome, r: RunTimes, f: L.Fault, g: L.Fault)
      returns (unlocked: bool, ghost k: nat)
      requires Valid() && N.InPhase(node, task.name, N.Starting) && task.name in tasks && tasks[task.name] == task
      modifies this`node, timeWheel, circuitBreaker, lock, lock.table, task
      ensures Valid() && task.nextRun == r.ended + task.interval && task.name !in node.runs
      ensures k == old(SlotFor(r.ended + task.interval, r.added))
      ensures node.next == old(node).next[task.name := r.ended + task.interval]
      ensures var ends := if old(lock.table.Find(task.name)).None? then NotFound else outcome;
              && Plays(cfg, old(node), RunEvents(task.name, ends, unlocked, r) + EndEvents(task.name, r.ended, k), node)
              && circuitBreaker.log ==
                 (match ends
                  case Succeeds => old(circuitBreaker.log) + [B.Success(task.name)]
                  case Errs => old(circuitBreaker.log) + [B.Failure(task.name, r.over)] + [B.Query(task.name, r.asked)]
                  case _ => old(circuitBreaker.log))
              && (ends.Succeeds? ==>
                    B.FailsOf(node.circuit, task.name) == 0 && task.name !in node.circuit.trippedAt)
              && (ends.Panics? || ends.NotFound? ==> node.circuit == old(node).circuit)
              && var n := B.FailsOf(old(node).circuit, task.name) + 1;
                 && unlocked == (ends.Errs? && n >= cfg.threshold && r.asked - r.over <= cfg.isolate)
                 && (ends.Errs? ==>
                       && B.FailsOf(node.circuit, task.name) ==
                          (if n >= cfg.threshold && r.asked - r.over > cfg.isolate then 0 else n)
                       && (task.name in node.circuit.trippedAt <==> unlocked))
      ensures var row, cell := old(lock.table.Find(task.name)), old(lock.CellAt(task.name));
              var left := if unlocked then L.Unlock(lock.instanceName, r.unlocked, cell, f) else cell;
              && lock.CellAt(task.name).entry == left.entry
              && (if row.Some? && !outcome.NotFound? && row.value.holder != "" && g != L.NotApplied then
                    lock.CellAt(task.name).row == row
                  else lock.CellAt(task.name).row == left.row)
      ensures forall t :: t != task.name ==> lock.CellAt(t) == old(lock.CellAt(t))
    {
      hide N.Apply, N.Enabled, Plays, RunEvents, EndEvents, FailureIsolates, QueueIs, WheelIs, Registry, DuesAre,
        Wired, B.Replay;
      var row := lock.table.Find(task.name);
      var ends := EndsAs(outcome, row);
      unlocked := Perform(task, ends, r, f);
      ghost var ended := node;
      k := Return(task, r.ended, r.added);
      PlaysOn(cfg, old(node), RunEvents(task.name, ends, unlocked, r), ended, EndEvents(task.name, r.ended, k), node);
      lock.SaveRow(task.name, ColumnsRead(ends, row), g);
    }

    // The wheel's part of a tick that brings the instance to s'.
    method TurnWheel(at: TW.Clock, ghost s': N.State)
      requires Wired() && Registry(cfg, tasks) && DuesAre() && QueueIs(tasks, taskQueue.heap, node.queue)
      requires |node.slots| == |timeWheel.slots| && node.cur == timeWheel.currentSlot
      requires SweepMatches(tasks, node, s', timeWheel.slots, TW.Dues(timeWheel.slots[timeWheel.currentSlot]), at)
      modifies timeWheel, taskQueue
      ensures Wired() && DuesAre() && timeWheel.currentSlot == (node.cur + 1) % |node.slots|
      ensures WheelIs(tasks, timeWheel.slots, s'.slots) && QueueIs(tasks, taskQueue.heap, s'.queue)
    {
      hide QueueIs, WheelIs, Registry, SweepMatches, TW.Swept, TW.Ripe, TW.Dues, TW.Reflects, TW.AllAt,
        B.CircuitBreaker.Valid;
      ghost var slots, heap, due := timeWheel.slots, taskQueue.heap, TW.Dues(timeWheel.slots[timeWheel.currentSlot]);
      timeWheel.Tick(at);
      SweepMatched(cfg, tasks, node, s', slots, due, at, heap, timeWheel.slots, taskQueue.heap);
    }

    // One tick of the wheel.
    method Tick(now: Time, at: TW.Clock) returns (ghost es: seq<Timed>)
      requires Valid() && !node.sweeping
      modifies this`node, timeWheel, taskQueue
      ensures Valid() && Plays(cfg, old(node), es, node) && TurnsTo(old(node), node, at)
    {
      hide Plays, TurnsTo, QueueIs, WheelIs, Registry, SweepMatches, TW.Dues, TW.TimeWheel.Valid,
        B.CircuitBreaker.Valid;
      ghost var s';
      es, s' := SweepEvents(now, at);
      TurnWheel(at, s');
      node := s';
    }

    // The events of the sweep that is due.
    lemma SweepEvents(now: Time, at: TW.Clock) returns (es: seq<Timed>, s': N.State)
      requires Valid() && !node.sweeping
      ensures Plays(cfg, node, es, s') && TurnsTo(node, s', at)
      ensures s' == node.(swept := {}, cur := (node.cur + 1) % |node.slots|, slots := s'.slots, queue := s'.queue)
      ensures |node.slots| == |timeWheel.slots| && node.cur == timeWheel.currentSlot < |timeWheel.slots|
      ensures SweepMatches(tasks, node, s', timeWheel.slots, TW.Dues(timeWheel.slots[timeWheel.currentSlot]), at)
    {
      hide N.Apply, N.Enabled, Plays, QueueIs, W.Target, TW.TimeWheel.Valid, B.CircuitBreaker.Valid;
      assert timeWheel.currentSlot < |timeWheel.slots| by { WheelInRange(); }
      var swept := timeWheel.slots[timeWheel.currentSlot];
      assert SlotIs(tasks, swept) && node.slots[node.cur] == swept.Keys;
      es, s' := WholeSweep(cfg, node, now, at);
    }

    lemma WheelInRange()
      requires timeWheel.Valid()
      ensures timeWheel.currentSlot < |timeWheel.slots|
    {}
  }
}
