/**
 Sequences of events of one scheduler instance: what each piece of work of pkg/scheduler/scheduler.go amounts to in
 the instance of module Node, and how the objects of the scheduler relate to it.
 */
module SchedulerEvents {
  import opened Wrappers
  import opened Tasks
  import TW = TimeWheel
  import W = WheelTiming
  import L = Lease
  import B = Breaker
  import N = Node

  // An event with the clock reading it happens at.
  type Timed = (Time, N.Event)

  // The events are enabled one after the other and lead from s to s'.
  ghost predicate Plays(cfg: N.Config, s: N.State, es: seq<Timed>, s': N.State)
    decreases |es|
  {
    if es == [] then s' == s
    else N.Enabled(cfg, s, es[0].0, es[0].1) && Plays(cfg, N.Apply(cfg, s, es[0].0, es[0].1), es[1..], s')
  }

  lemma {:induction false} PlaysMore(cfg: N.Config, s: N.State, es: seq<Timed>, s': N.State, e: Timed)
    requires Plays(cfg, s, es, s') && N.Enabled(cfg, s', e.0, e.1)
    ensures Plays(cfg, s, es + [e], N.Apply(cfg, s', e.0, e.1))
    decreases |es|
  {
    hide N.Apply, N.Enabled;
    if es == [] {
      assert es + [e] == [e] && [e][1..] == [];
    } else {
      assert (es + [e])[1..] == es[1..] + [e];
      PlaysMore(cfg, N.Apply(cfg, s, es[0].0, es[0].1), es[1..], s', e);
    }
  }

  // What the events of a run do to the breaker, and the phase they lead to.
  function CircuitAfter(cfg: N.Config, c: B.Circuit, now: Time, e: N.Event): B.Circuit {
    if e.Succeed? then B.Reset(c, e.t)
    else if e.Fail? then B.Failed(cfg.threshold, c, e.t, now)
    else if e.AskUnlock? then B.Queried(cfg.isolate, c, e.t, now)
    else c
  }

  function PhaseAfter(cfg: N.Config, c: B.Circuit, now: Time, e: N.Event): N.Phase {
    if e.Begin? then N.Running
    else if e.Fail? then N.Failed
    else if e.AskUnlock? && B.Isolated(cfg.isolate, c, e.t, now) then N.Unlocking
    else N.Ending
  }

  lemma PhaseIs(cfg: N.Config, s: N.State, now: Time, e: N.Event)
    requires N.IsPhaseEvent(e) && !e.Retime? && N.Enabled(cfg, s, now, e)
    ensures var s' := N.Apply(cfg, s, now, e);
            && s' == s.(runs := s'.runs, circuit := CircuitAfter(cfg, s.circuit, now, e), tripped := s'.tripped)
            && N.InPhase(s', e.t, PhaseAfter(cfg, s.circuit, now, e))
  {
    hide B.Reset, B.Failed, B.Queried, B.Isolated;
  }

  lemma PopIs(cfg: N.Config, s: N.State, now: Time, tasks: map<string, Task>, heap: seq<Task>, rest: seq<Task>,
              task: Task)
    requires s.hand == N.Nothing && Registry(cfg, tasks) && QueueIs(tasks, heap, s.queue)
    requires multiset(heap) == multiset(rest) + multiset{task}
    requires forall other :: other in heap ==> task.priority >= other.priority
    ensures task.name in tasks && tasks[task.name] == task && N.Enabled(cfg, s, now, N.Pop(task.name))
    ensures var s' := N.Apply(cfg, s, now, N.Pop(task.name));
            s' == s.(queue := s'.queue, hand := N.Popped(task.name)) && QueueIs(tasks, rest, s'.queue)
  {
    assert task in multiset(heap);
    forall t | t in rest ensures t in heap { assert t in multiset(rest) && t in multiset(heap); }
    forall u | u in s.queue && u in cfg.priority ensures cfg.priority[u] <= cfg.priority[task.name] {
      assert tasks[u] in multiset(heap);
    }
    var s' := N.Apply(cfg, s, now, N.Pop(task.name));
    forall name ensures s'.queue[name] == if name in tasks then multiset(rest)[tasks[name]] else 0 {
      assert name in tasks ==> (tasks[name] == task <==> name == task.name);
    }
  }

  lemma NoLockIs(cfg: N.Config, s: N.State, now: Time, t: string, k: nat)
    requires s.hand == N.Popped(t) && k < |s.slots| && t in cfg.interval
    ensures N.Enabled(cfg, s, now, N.NoLock(t, k))
    ensures N.Apply(cfg, s, now, N.NoLock(t, k)) ==
            s.(hand := N.Nothing, next := s.next[t := now + cfg.interval[t]], slots := N.Into(s.slots, k, t))
  {
    hide N.Into;
  }

  lemma GotLockIs(cfg: N.Config, s: N.State, now: Time, t: string)
    requires s.hand == N.Popped(t)
    ensures N.Enabled(cfg, s, now, N.GotLock(t)) && N.Apply(cfg, s, now, N.GotLock(t)) == s.(hand := N.Granted(t))
  {}

  lemma AskIs(cfg: N.Config, s: N.State, now: Time, t: string)
    requires s.hand == N.Granted(t)
    ensures N.Enabled(cfg, s, now, N.Ask(t))
    ensures N.Apply(cfg, s, now, N.Ask(t)) ==
            if B.Isolated(cfg.isolate, s.circuit, t, now)
            then s.(hand := N.Refused(t), circuit := B.Queried(cfg.isolate, s.circuit, t, now))
            else s.(hand := N.Nothing, runs := s.runs[t := N.Starting],
                    circuit := B.Queried(cfg.isolate, s.circuit, t, now))
  {
    N.AskFrame(cfg, s, now, t);
    hide N.Apply;
  }

  lemma IsolateIs(cfg: N.Config, s: N.State, now: Time, t: string, k: nat)
    requires s.hand == N.Refused(t) && k < |s.slots| && t in cfg.interval
    ensures N.Enabled(cfg, s, now, N.Isolate(t, k))
    ensures N.Apply(cfg, s, now, N.Isolate(t, k)) ==
            s.(hand := N.Nothing, next := s.next[t := now + cfg.interval[t]], slots := N.Into(s.slots, k, t))
  {
    hide N.Into;
  }

  lemma StartEnabled(cfg: N.Config, s: N.State, now: Time, t: string)
    requires N.InPhase(s, t, N.Starting)
    ensures N.Enabled(cfg, s, now, N.FindFailed(t)) && N.Enabled(cfg, s, now, N.Begin(t))
  {}

  lemma PanicEnabled(cfg: N.Config, s: N.State, now: Time, t: string)
    requires N.InPhase(s, t, N.Running)
    ensures N.Enabled(cfg, s, now, N.Panic(t))
  {}

  lemma EndIs(cfg: N.Config, s: N.State, now: Time, t: string, k: nat)
    requires N.InPhase(s, t, N.Ending) && k < |s.slots| && t in cfg.interval
    ensures N.Enabled(cfg, s, now, N.Retime(t))
            && N.Enabled(cfg, N.Apply(cfg, s, now, N.Retime(t)), now, N.PutBack(t, k))
    ensures N.Apply(cfg, N.Apply(cfg, s, now, N.Retime(t)), now, N.PutBack(t, k)) ==
            s.(next := s.next[t := now + cfg.interval[t]], ended := s.ended[t := now],
               runs := s.runs[t := N.Retimed] - {t}, slots := N.Into(s.slots, k, t))
  {
    hide N.Into;
  }

  lemma ReplayOne(threshold: int, isolate: Time, log: seq<B.Event>, e: B.Event)
    ensures var c := B.Replay(threshold, isolate, log);
            B.Replay(threshold, isolate, log + [e]) ==
            if e.Success? then B.Reset(c, e.t) else if e.Failure? then B.Failed(threshold, c, e.t, e.at)
              else B.Queried(isolate, c, e.t, e.at)
  {
    assert (log + [e])[..|log|] == log;
  }

  // The breaker's answer, and what the query does to its maps.
  lemma AnswerIs(cfg: N.Config, log: seq<B.Event>, t: string, now: Time)
    ensures var c, streak := B.Replay(cfg.threshold, cfg.isolate, log), B.StreakOf(cfg.threshold, cfg.isolate, log, t);
            && (B.Isolated(cfg.isolate, c, t, now) <==>
                  streak.fails >= 1 && streak.fails >= cfg.threshold && now - streak.last <= cfg.isolate)
            && B.Replay(cfg.threshold, cfg.isolate, log + [B.Query(t, now)]) == B.Queried(cfg.isolate, c, t, now)
            && (B.Isolated(cfg.isolate, c, t, now) ==> B.Queried(cfg.isolate, c, t, now) == c)
  {
    B.RefinesHistory(cfg.threshold, cfg.isolate, log, t);
    ReplayOne(cfg.threshold, cfg.isolate, log, B.Query(t, now));
  }

  lemma OnePlay(cfg: N.Config, s: N.State, e: Timed)
    requires N.Enabled(cfg, s, e.0, e.1)
    ensures Plays(cfg, s, [e], N.Apply(cfg, s, e.0, e.1))
  {
    hide N.Apply, N.Enabled;
    PlaysMore(cfg, s, [], s, e);
    assert [] + [e] == [e];
  }

  lemma TwoPlays(cfg: N.Config, s: N.State, e: Timed, e': Timed)
    requires N.Enabled(cfg, s, e.0, e.1) && N.Enabled(cfg, N.Apply(cfg, s, e.0, e.1), e'.0, e'.1)
    ensures Plays(cfg, s, [e, e'], N.Apply(cfg, N.Apply(cfg, s, e.0, e.1), e'.0, e'.1))
  {
    OnePlay(cfg, s, e);
    hide N.Apply, N.Enabled;
    PlaysMore(cfg, s, [e], N.Apply(cfg, s, e.0, e.1), e');
    assert [e] + [e'] == [e, e'];
  }

  lemma PopKeepsBreaker(cfg: N.Config, s: N.State, now: Time, t: string)
    requires N.Enabled(cfg, s, now, N.Pop(t))
    ensures var s' := N.Apply(cfg, s, now, N.Pop(t)); s'.circuit == s.circuit && s'.next == s.next
  {}

  lemma ErrorMeansNo(lease: Time, me: string, now: Time, c: L.Cell, f: L.Fault)
    ensures var r := L.TryLock(lease, me, now, c, f); r.err ==> !r.ok
  {}

  // A failure and the query after it, in the instance and in the breaker's log.
  lemma FailIs(cfg: N.Config, s: N.State, over: Time, asked: Time, t: string, log: seq<B.Event>)
    requires N.InPhase(s, t, N.Running) && s.circuit == B.Replay(cfg.threshold, cfg.isolate, log)
    ensures N.Enabled(cfg, s, over, N.Fail(t))
            && N.Enabled(cfg, N.Apply(cfg, s, over, N.Fail(t)), asked, N.AskUnlock(t))
    ensures var s' := N.Apply(cfg, N.Apply(cfg, s, over, N.Fail(t)), asked, N.AskUnlock(t));
            var streak := B.StreakOf(cfg.threshold, cfg.isolate, log + [B.Failure(t, over)], t);
            var isolated := FailureIsolates(cfg, s.circuit, t, over, asked);
            && s' == s.(runs := s'.runs, circuit := s'.circuit, tripped := s'.tripped)
            && s'.circuit == B.Replay(cfg.threshold, cfg.isolate, log + [B.Failure(t, over)] + [B.Query(t, asked)])
            && N.InPhase(s', t, if isolated then N.Unlocking else N.Ending)
            && (isolated <==> streak.fails >= 1 && streak.fails >= cfg.threshold && asked - streak.last <= cfg.isolate)
            && Plays(cfg, s, [(over, N.Fail(t))] + [(asked, N.AskUnlock(t))], s')
  {
    hide B.Failed, B.Queried, B.Isolated, B.Replay, Plays;
    PhaseIs(cfg, s, over, N.Fail(t));
    var s1 := N.Apply(cfg, s, over, N.Fail(t));
    assert N.Enabled(cfg, s1, asked, N.AskUnlock(t));
    hide N.Apply, N.Enabled;
    PhaseIs(cfg, s1, asked, N.AskUnlock(t));
    ReplayOne(cfg.threshold, cfg.isolate, log, B.Failure(t, over));
    AnswerIs(cfg, log + [B.Failure(t, over)], t, asked);
    OnePlay(cfg, s, (over, N.Fail(t)));
    PlaysMore(cfg, s, [(over, N.Fail(t))], s1, (asked, N.AskUnlock(t)));
  }

  // A failure at one time leaves the task isolated at another.
  predicate FailureIsolates(cfg: N.Config, c: B.Circuit, t: string, over: Time, asked: Time) {
    B.Isolated(cfg.isolate, B.Failed(cfg.threshold, c, t, over), t, asked)
  }

  // What a failure and the query after it leave of the breaker: the count goes up by one, unless the task is tripped
  // and the query finds the isolation to be over already; the task stays tripped exactly if it is isolated.
  lemma FailureCounts(cfg: N.Config, log: seq<B.Event>, t: string, over: Time, asked: Time)
    ensures var c := B.Replay(cfg.threshold, cfg.isolate, log);
            var c' := B.Replay(cfg.threshold, cfg.isolate, log + [B.Failure(t, over)] + [B.Query(t, asked)]);
            var n := B.FailsOf(c, t) + 1;
            && B.FailsOf(c', t) == (if n >= cfg.threshold && asked - over > cfg.isolate then 0 else n)
            && (t in c'.trippedAt <==> n >= cfg.threshold && asked - over <= cfg.isolate)
            && (FailureIsolates(cfg, c, t, over, asked) <==> n >= cfg.threshold && asked - over <= cfg.isolate)
  {
    B.RefinesHistory(cfg.threshold, cfg.isolate, log, t);
    ReplayOne(cfg.threshold, cfg.isolate, log, B.Failure(t, over));
    ReplayOne(cfg.threshold, cfg.isolate, log + [B.Failure(t, over)], B.Query(t, asked));
    hide B.Replay;
  }

  lemma KnownTask(cfg: N.Config, tasks: map<string, Task>, task: Task)
    requires Registry(cfg, tasks) && task.name in tasks && tasks[task.name] == task
    ensures task.name in cfg.interval && cfg.interval[task.name] == task.interval
  {}

  // The names a sweep puts back into slot k.
  function PutInto(next: map<string, Time>, swept: set<string>, at: TW.Clock, cur: nat, n: nat, k: nat): set<string>
    requires n > 0 && swept <= next.Keys
  {
    set name | name in swept && at(name).seen <= next[name] && W.Target(cur, n, next[name], at(name).added) == k
  }

  lemma PlaysFirst(cfg: N.Config, s: N.State, e: Timed, es: seq<Timed>, s': N.State)
    requires N.Enabled(cfg, s, e.0, e.1) && Plays(cfg, N.Apply(cfg, s, e.0, e.1), es, s')
    ensures Plays(cfg, s, [e] + es, s')
  {
    hide N.Apply, N.Enabled;
    assert ([e] + es)[1..] == es;
  }

  lemma SweepOne(cfg: N.Config, s: N.State, at: TW.Clock, t: string) returns (e: Timed)
    requires s.sweeping && t in s.swept && t in s.next && s.cur < |s.slots|
    ensures N.Enabled(cfg, s, e.0, e.1)
    ensures var k := W.Target(s.cur, |s.slots|, s.next[t], at(t).added);
            N.Apply(cfg, s, e.0, e.1) ==
            if at(t).seen > s.next[t] then s.(swept := s.swept - {t}, queue := s.queue + multiset{t})
            else s.(swept := s.swept - {t}, slots := N.Into(s.slots, k, t))
  {
    hide N.Into, W.Target;
    e := (at(t).seen, if at(t).seen > s.next[t] then N.SweepPush(t)
          else N.SweepPut(t, W.Target(s.cur, |s.slots|, s.next[t], at(t).added)));
  }

  // What is left of the sweep has been handed out.
  ghost predicate HandedOut(s: N.State, s': N.State, at: TW.Clock)
    requires s.swept <= s.next.Keys && s.cur < |s.slots|
  {
    && s' == s.(swept := {}, slots := s'.slots, queue := s'.queue) && |s'.slots| == |s.slots|
    && (forall k :: 0 <= k < |s.slots| ==>
          s'.slots[k] == s.slots[k] + PutInto(s.next, s.swept, at, s.cur, |s.slots|, k))
    && (forall name ::
          s'.queue[name] == s.queue[name] + if name in s.swept && at(name).seen > s.next[name] then 1 else 0)
  }

  lemma HandedOutOne(s: N.State, t: string, s1: N.State, s': N.State, at: TW.Clock)
    requires s.swept <= s.next.Keys && t in s.swept && s.cur < |s.slots|
    requires s1 == if at(t).seen > s.next[t] then s.(swept := s.swept - {t}, queue := s.queue + multiset{t})
                   else var k := W.Target(s.cur, |s.slots|, s.next[t], at(t).added);
                        s.(swept := s.swept - {t}, slots := N.Into(s.slots, k, t))
    requires HandedOut(s1, s', at)
    ensures HandedOut(s, s', at)
  {
    hide W.Target, PutInto;
    forall k | 0 <= k < |s.slots| ensures s'.slots[k] ==
      s.slots[k] + PutInto(s.next, s.swept, at, s.cur, |s.slots|, k) {
      PutIntoLess(s.next, s.swept, t, at, s.cur, |s.slots|, k);
    }
  }

  lemma PutIntoLess(next: map<string, Time>, swept: set<string>, t: string, at: TW.Clock, cur: nat, n: nat, k: nat)
    requires n > 0 && swept <= next.Keys && t in swept
    ensures PutInto(next, swept, at, cur, n, k) ==
            PutInto(next, swept - {t}, at, cur, n, k) + if at(t).seen <= next[t]
              && W.Target(cur, n, next[t], at(t).added) == k then {t} else {}
  {
    hide W.Target;
  }

  // The sweep of what is left of a slot, one task after the other.
  lemma {:induction false} SweepRest(cfg: N.Config, s: N.State, at: TW.Clock) returns (es: seq<Timed>, s': N.State)
    requires s.sweeping && s.swept <= s.next.Keys && s.cur < |s.slots|
    ensures Plays(cfg, s, es, s') && HandedOut(s, s', at)
    decreases |s.swept|
  {
    if s.swept == {} {
      es, s' := [], s;
    } else {
      hide N.Apply, N.Enabled, W.Target, HandedOut;
      var t :| t in s.swept;
      var e := SweepOne(cfg, s, at, t);
      es, s' := SweepRest(cfg, N.Apply(cfg, s, e.0, e.1), at);
      PlaysFirst(cfg, s, e, es, s');
      HandedOutOne(s, t, N.Apply(cfg, s, e.0, e.1), s', at);
      es := [e] + es;
    }
  }

  // One tick of the wheel: the swept names go to the queue if they are ripe and back into slots if not, and nothing
  // else changes but the position.
  ghost predicate TurnsTo(s: N.State, s': N.State, at: TW.Clock) {
    && s.cur < |s.slots| == |s'.slots| && s.slots[s.cur] <= s.next.Keys
    && s' == s.(swept := {}, cur := (s.cur + 1) % |s.slots|, slots := s'.slots, queue := s'.queue)
    && (forall k :: 0 <= k < |s.slots| ==>
          s'.slots[k] ==
          (if k == s.cur then {} else s.slots[k]) + PutInto(s.next, s.slots[s.cur], at, s.cur, |s.slots|, k))
    && (forall name ::
          s'.queue[name] ==
          s.queue[name] + (if name in s.slots[s.cur] && at(name).seen > s.next[name] then 1 else 0))
  }

  // The whole of a tick, from the start of the sweep to its end.
  lemma WholeSweep(cfg: N.Config, s: N.State, now: Time, at: TW.Clock) returns (es: seq<Timed>, s': N.State)
    requires !s.sweeping && s.cur < |s.slots| && s.slots[s.cur] <= s.next.Keys
    ensures Plays(cfg, s, es, s') && TurnsTo(s, s', at)
  {
    hide W.Target;
    var start, s1 := (now, N.SweepStart), N.Apply(cfg, s, now, N.SweepStart);
    var rest, s2 := SweepRest(cfg, s1, at);
    PlaysFirst(cfg, s, start, rest, s2);
    PlaysMore(cfg, s, [start] + rest, s2, (now, N.SweepEnd));
    es, s' := [start] + rest + [(now, N.SweepEnd)], N.Apply(cfg, s2, now, N.SweepEnd);
  }

  // The clock readings of one round of the dispatcher, and of one run.
  datatype RoundTimes = RoundTimes(lock: Time, asked: Time, again: Time, added: Time)
  datatype RunTimes = RunTimes(began: Time, over: Time, asked: Time, unlocked: Time, ended: Time, added: Time)

  function DispatchEvents(t: string, got: bool, refused: bool, r: RoundTimes, k: nat): seq<Timed> {
    [(r.lock, N.Pop(t))] + if got then CheckEvents(t, refused, r, k) else [(r.again, N.NoLock(t, k))]
  }

  function CheckEvents(t: string, refused: bool, r: RoundTimes, k: nat): seq<Timed> {
    [(r.lock, N.GotLock(t)), (r.asked, N.Ask(t))] + if refused then [(r.again, N.Isolate(t, k))] else []
  }

  // How Run ends, if its row could be read at all.
  datatype Outcome = NotFound | Succeeds | Errs | Panics

  function FailureEvents(t: string, unlocked: bool, r: RunTimes): seq<Timed> {
    [(r.over, N.Fail(t))] + [(r.asked, N.AskUnlock(t))] + if unlocked then [(r.unlocked, N.UnlockDone(t))] else []
  }

  function FinishEvents(t: string, outcome: Outcome, unlocked: bool, r: RunTimes): seq<Timed>
    requires !outcome.NotFound?
  {
    match outcome
    case Succeeds => [(r.over, N.Succeed(t))]
    case Errs => FailureEvents(t, unlocked, r)
    case Panics => [(r.over, N.Panic(t))]
  }

  function RunEvents(t: string, outcome: Outcome, unlocked: bool, r: RunTimes): seq<Timed> {
    if outcome.NotFound? then [(r.began, N.FindFailed(t))]
      else [(r.began, N.Begin(t))] + FinishEvents(t, outcome, unlocked, r)
  }

  function EndEvents(t: string, now: Time, k: nat): seq<Timed> {
    [(now, N.Retime(t)), (now, N.PutBack(t, k))]
  }

  // The registered tasks by name, as configured.
  ghost predicate Registry(cfg: N.Config, tasks: map<string, Task>) {
    forall name :: name in tasks ==>
      var t := tasks[name];
      && t.name == name
      && name in cfg.interval && cfg.interval[name] == t.interval
      && name in cfg.priority && cfg.priority[name] == t.priority
  }

  // The queue holds registered tasks, as often as the instance says.
  ghost predicate QueueIs(tasks: map<string, Task>, heap: seq<Task>, queue: multiset<string>) {
    && (forall t :: t in heap ==> t.name in tasks && tasks[t.name] == t)
    && (forall name :: queue[name] == if name in tasks then multiset(heap)[tasks[name]] else 0)
  }

  // The wheel holds registered tasks, in the slots the instance has them in.
  ghost predicate WheelIs(tasks: map<string, Task>, slots: seq<TW.Slot>, names: seq<set<string>>) {
    && |names| == |slots|
    && forall k :: 0 <= k < |slots| ==> names[k] == slots[k].Keys && SlotIs(tasks, slots[k])
  }

  ghost predicate SlotIs(tasks: map<string, Task>, slot: TW.Slot) {
    forall name :: name in slot ==> name in tasks && slot[name] == tasks[name]
  }

  lemma PlacedIs(tasks: map<string, Task>, slots: seq<TW.Slot>, cur: nat, names: seq<set<string>>, task: Task,
                 due: Time, now: Time)
    requires WheelIs(tasks, slots, names) && cur < |slots| && task.name in tasks && tasks[task.name] == task
    ensures WheelIs(tasks, TW.Placed(slots, cur, task, due, now),
                    N.Into(names, W.Target(cur, |slots|, due, now), task.name))
  {
    hide W.Target;
  }

  // The wheel after a tick and the queue it has filled.
  lemma SweptIs(tasks: map<string, Task>, slots: seq<TW.Slot>, names: seq<set<string>>, cur: nat,
                next: map<string, Time>, due: map<string, Time>, at: TW.Clock,
                slots': seq<TW.Slot>, names': seq<set<string>>)
    requires WheelIs(tasks, slots, names) && cur < |slots| && |slots'| == |slots| == |names'|
    requires due.Keys == slots[cur].Keys <= next.Keys && forall name :: name in due ==> due[name] == next[name]
    requires forall k :: 0 <= k < |slots| ==> slots'[k] == TW.Swept(slots, cur, due, at, k)
    requires forall k :: 0 <= k < |slots| ==>
               names'[k] == (if k == cur then {} else names[k]) + PutInto(next, names[cur], at, cur, |slots|, k)
    ensures WheelIs(tasks, slots', names')
  {
    hide W.Target;
    forall k | 0 <= k < |slots| ensures names'[k] == slots'[k].Keys && SlotIs(tasks, slots'[k]) {
      assert TW.Back(slots[cur], due, {}, at, cur, |slots|, k).Keys == PutInto(next, names[cur], at, cur, |slots|, k);
      assert SlotIs(tasks, slots[cur]) && SlotIs(tasks, slots[k]);
    }
  }

  lemma QueueSwept(cfg: N.Config, tasks: map<string, Task>, heap: seq<Task>, queue: multiset<string>, swept: TW.Slot,
                   due: map<string, Time>, at: TW.Clock,
                   heap': seq<Task>, queue': multiset<string>)
    requires Registry(cfg, tasks) && QueueIs(tasks, heap, queue) && SlotIs(tasks, swept) && due.Keys == swept.Keys
    requires multiset(heap') == multiset(heap) + multiset(TW.Ripe(swept, due, {}, at))
    requires forall name :: queue'[name] == queue[name] + (if name in due && at(name).seen > due[name] then 1 else 0)
    ensures QueueIs(tasks, heap', queue')
  {
    var ripe := TW.Ripe(swept, due, {}, at);
    forall t | t in heap' ensures t.name in tasks && tasks[t.name] == t {
      assert t in multiset(heap');
      assert t in multiset(heap) || t in ripe;
    }
    forall name | name in tasks ensures tasks[name] in ripe <==> name in due && at(name).seen > due[name] {
      assert tasks[name].name == name;
    }
    forall name ensures queue'[name] == if name in tasks then multiset(heap')[tasks[name]] else 0 {}
  }

  // The instance after the sweep of a slot, in terms of the slots and due times of the wheel before it.
  ghost predicate SweepMatches(tasks: map<string, Task>, s: N.State, s': N.State, slots: seq<TW.Slot>,
                               due: map<string, Time>, at: TW.Clock)
    requires s.cur < |slots|
  {
    && TurnsTo(s, s', at) && WheelIs(tasks, slots, s.slots)
    && due.Keys == slots[s.cur].Keys && forall name :: name in due ==> due[name] == s.next[name]
  }

  lemma SweepMatched(cfg: N.Config, tasks: map<string, Task>, s: N.State, s': N.State, slots: seq<TW.Slot>,
                     due: map<string, Time>, at: TW.Clock,
                     heap: seq<Task>, slots': seq<TW.Slot>, heap': seq<Task>)
    requires s.cur < |slots| == |slots'| && SweepMatches(tasks, s, s', slots, due, at)
    requires Registry(cfg, tasks) && QueueIs(tasks, heap, s.queue)
    requires forall k :: 0 <= k < |slots| ==> slots'[k] == TW.Swept(slots, s.cur, due, at, k)
    requires multiset(heap') == multiset(heap) + multiset(TW.Ripe(slots[s.cur], due, {}, at))
    ensures WheelIs(tasks, slots', s'.slots) && QueueIs(tasks, heap', s'.queue)
  {
    SweptIs(tasks, slots, s.slots, s.cur, s.next, due, at, slots', s'.slots);
    QueueSwept(cfg, tasks, heap, s.queue, slots[s.cur], due, at, heap', s'.queue);
  }

  lemma WheelOfMore(tasks: map<string, Task>, slots: seq<TW.Slot>, names: seq<set<string>>, task: Task)
    requires WheelIs(tasks, slots, names) && task.name !in tasks
    ensures WheelIs(tasks[task.name := task], slots, names) && |slots| == |names|
  {}

  lemma QueueOfMore(tasks: map<string, Task>, heap: seq<Task>, queue: multiset<string>, task: Task)
    requires QueueIs(tasks, heap, queue) && task.name !in tasks
    ensures QueueIs(tasks[task.name := task], heap, queue)
  {
    assert task !in heap;
  }

  lemma RegisteredIs(cfg: N.Config, s: N.State, now: Time, t: string, due: Time, k: nat)
    requires k < |s.slots| && t !in s.next && t in cfg.interval
    ensures N.Enabled(cfg, s, now, N.Register(t, due, k))
    ensures N.Apply(cfg, s, now, N.Register(t, due, k)) == s.(next := s.next[t := due], slots := N.Into(s.slots, k, t))
  {
    hide N.Into;
  }

  lemma {:induction false} PlaysOn(cfg: N.Config, s: N.State, es: seq<Timed>, s': N.State, fs: seq<Timed>, s'': N.State)
    requires Plays(cfg, s, es, s') && Plays(cfg, s', fs, s'')
    ensures Plays(cfg, s, es + fs, s'')
    decreases |es|
  {
    hide N.Apply, N.Enabled;
    if es == [] {
      assert es + fs == fs;
    } else {
      assert (es + fs)[1..] == es[1..] + fs;
      PlaysOn(cfg, N.Apply(cfg, s, es[0].0, es[0].1), es[1..], s', fs, s'');
    }
  }
}
