/**
 Any number of scheduler instances over one schedule table: the dispatch loop, the lease lock, the renewals and
 the runs of pkg/scheduler/scheduler.go together, and end-to-end exclusion of runs.  Stop is not part of it: it
 releases locks under running tasks.
 */
module Dispatch {
  import opened Wrappers
  import L = Lease
  import N = Node
  import B = Breaker

  type Instance = string
  type TaskName = string

  datatype World = World(lock: L.State, nodes: map<Instance, N.State>)

  datatype Action =
    | Advance(d: nat)
    | Local(i: Instance, e: N.Event)                         // wheel, queue, breaker and run events
    | TryLock(i: Instance, t: TaskName, f: L.Fault, k: nat)  // on failure the task goes to slot k
    | Renew(i: Instance, t: TaskName, f: L.Fault)
    | Unlock(i: Instance, t: TaskName, f: L.Fault)           // by the run that tripped the breaker
    | Insert(t: TaskName)
    | WriteBack(t: TaskName, cols: L.Row)

  // The lock's part in an action.
  function LockStep(a: Action): L.Step {
    match a
    case Advance(d) => L.Advance(d)
    case Local(_, _) => L.Advance(0)
    case TryLock(i, t, f, _) => L.Try(i, t, f)
    case Renew(i, t, f) => L.Renewal(i, t, f)
    case Unlock(i, t, f) => L.Release(i, t, f)
    case Insert(t) => L.Insert(t)
    case WriteBack(t, cols) => L.WriteBack(t, cols)
  }

  function TryReply(lease: int, w: World, i: Instance, t: TaskName, f: L.Fault): L.Reply {
    L.TryLock(lease, i, w.lock.now, L.CellOf(w.lock, i, t), f)
  }

  // The event of the acting instance, if there is one.
  function NodeEvent(lease: int, w: World, a: Action): Option<(Instance, N.Event)> {
    match a
    case Local(i, e) => Some((i, e))
    case TryLock(i, t, f, k) => Some((i, if TryReply(lease, w, i, t, f).ok then N.GotLock(t) else N.NoLock(t, k)))
    case Unlock(i, t, _) => Some((i, N.UnlockDone(t)))
    case _ => None
  }

  predicate Enabled(lease: int, cfg: N.Config, w: World, a: Action) {
    && (a.Local? ==> !a.e.GotLock? && !a.e.NoLock? && !a.e.UnlockDone?)
    && (a.Renew? ==> a.i in w.nodes)
    && match NodeEvent(lease, w, a)
       case None => true
       case Some((i, e)) => i in w.nodes && N.Enabled(cfg, w.nodes[i], w.lock.now, e)
  }

  function Next(lease: int, cfg: N.Config, w: World, a: Action): World
    requires Enabled(lease, cfg, w, a)
  {
    World(L.Apply(lease, w.lock, LockStep(a)),
          match NodeEvent(lease, w, a)
          case None => w.nodes
          case Some((i, e)) => w.nodes[i := N.Apply(cfg, w.nodes[i], w.lock.now, e)])
  }

  // From a successful TryLock to the end of Run.
  predicate Holding(s: N.State, t: TaskName) {
    s.hand == N.Granted(t) || N.InPhase(s, t, N.Starting) || N.InPhase(s, t, N.Running)
  }

  // The assumption of the exclusion theorem: a lock is renewed, without error, before the lease of a task that
  // is being dispatched or run is over; releases and saved columns meet their exact conditions.
  ghost predicate RenewedInTime(lease: int, w: World, a: Action) {
    && L.Disciplined(lease, w.lock, LockStep(a))
    && (a.Advance? ==> forall i, t :: i in w.nodes && Holding(w.nodes[i], t) && (i, t) in w.lock.local ==>
          w.lock.now + a.d - w.lock.local[(i, t)] < lease)
    && (a.Renew? && a.i in w.nodes && Holding(w.nodes[a.i], a.t) ==> a.f == L.NoFault)
  }

  ghost predicate Inv(lease: int, w: World) {
    && L.LeaseInv(lease, w.lock) && L.RowsBounded(lease, w.lock)
    && (forall i :: i in w.nodes ==> i != "" && N.TokenInv(w.nodes[i]))
    && (forall i, t :: i in w.nodes && Holding(w.nodes[i], t) ==> L.Fresh(lease, w.lock, i, t))
  }

  // Only the lock's answer makes an instance hold a task.
  lemma HoldingOnlyByLock(cfg: N.Config, s: N.State, now: int, e: N.Event, t: TaskName)
    requires N.Enabled(cfg, s, now, e) && Holding(N.Apply(cfg, s, now, e), t)
    ensures Holding(s, t) || e == N.GotLock(t)
  {
    if N.IsPhaseEvent(e) {
      PhaseHolding(cfg, s, now, e, t);
    } else if e.Ask? {
      N.AskFrame(cfg, s, now, e.t);
      hide N.Apply;
    } else {
      hide N.TopPriority;
    }
  }

  lemma PhaseHolding(cfg: N.Config, s: N.State, now: int, e: N.Event, t: TaskName)
    requires N.IsPhaseEvent(e) && N.Enabled(cfg, s, now, e) && Holding(N.Apply(cfg, s, now, e), t)
    ensures Holding(s, t)
  {
    N.PhaseEventFrame(cfg, s, now, e);
    if t != e.t { hide N.Apply, N.Enabled; }
  }

  lemma HeldEntryStays(lease: int, w: World, a: Action, i: Instance, t: TaskName)
    requires lease > 0 && Inv(lease, w) && RenewedInTime(lease, w, a)
    requires i in w.nodes && Holding(w.nodes[i], t)
    requires a.TryLock? && a.i == i ==> w.nodes[i].hand == N.Popped(a.t)
    requires a.Unlock? && a.i == i ==> N.InPhase(w.nodes[i], a.t, N.Unlocking)
    ensures L.Fresh(lease, L.Apply(lease, w.lock, LockStep(a)), i, t)
  {
    assert L.Fresh(lease, w.lock, i, t);
    if (a.TryLock? || a.Unlock?) && a.i == i { OnlyOneHeld(w.nodes[i], a, t); }
    hide N.TokenInv;
    EntryStays(lease, w.lock, LockStep(a), i, t);
  }

  // The task a token is locked or unlocked for is not the one in the hand or in a run.
  lemma OnlyOneHeld(s: N.State, a: Action, t: TaskName)
    requires N.TokenInv(s) && Holding(s, t)
    requires (a.TryLock? && s.hand == N.Popped(a.t)) || (a.Unlock? && N.InPhase(s, a.t, N.Unlocking))
    ensures a.t != t
  {
    N.Elsewhere(s, a.t);
  }

  // A fresh cached time stays fresh through any step but its own failing renewal, its release
  // or the passing of the lease.
  lemma EntryStays(lease: int, s: L.State, step: L.Step, i: Instance, t: TaskName)
    requires lease > 0 && L.Fresh(lease, s, i, t)
    requires step.Release? ==> (step.i, step.t) != (i, t)
    requires step.Renewal? && step.i == i && step.t == t ==> step.f == L.NoFault
    requires step.Advance? ==> s.now + step.d - s.local[(i, t)] < lease
    ensures L.Fresh(lease, L.Apply(lease, s, step), i, t)
  {}

  lemma ActorIsReady(lease: int, cfg: N.Config, w: World, a: Action)
    requires Enabled(lease, cfg, w, a)
    ensures a.TryLock? ==> a.i in w.nodes && w.nodes[a.i].hand == N.Popped(a.t)
    ensures a.Unlock? ==> a.i in w.nodes && N.InPhase(w.nodes[a.i], a.t, N.Unlocking)
  {}

  lemma GrantedIsFresh(lease: int, w: World, i: Instance, t: TaskName, f: L.Fault)
    requires lease > 0 && TryReply(lease, w, i, t, f).ok
    ensures L.Fresh(lease, L.Apply(lease, w.lock, L.Try(i, t, f)), i, t)
  {}

  lemma HoldingStep(lease: int, cfg: N.Config, w: World, a: Action, i: Instance, t: TaskName)
    requires lease > 0 && Inv(lease, w) && Enabled(lease, cfg, w, a) && RenewedInTime(lease, w, a)
    requires i in w.nodes && Holding(Next(lease, cfg, w, a).nodes[i], t)
    ensures L.Fresh(lease, L.Apply(lease, w.lock, LockStep(a)), i, t)
  {
    var ev := NodeEvent(lease, w, a);
    ActorIsReady(lease, cfg, w, a);
    hide N.Apply, N.Enabled, L.Apply;
    if ev.Some? && ev.value.0 == i { HoldingOnlyByLock(cfg, w.nodes[i], w.lock.now, ev.value.1, t); }
    if Holding(w.nodes[i], t) {
      HeldEntryStays(lease, w, a, i, t);
    } else {
      GrantedIsFresh(lease, w, i, t, a.f);
    }
  }

  lemma InvStep(lease: int, cfg: N.Config, w: World, a: Action)
    requires lease > 0 && Inv(lease, w) && Enabled(lease, cfg, w, a) && RenewedInTime(lease, w, a)
    ensures Inv(lease, Next(lease, cfg, w, a))
  {
    hide N.Apply, N.Enabled, L.Apply;
    var w' := Next(lease, cfg, w, a);
    L.LeaseInvStep(lease, w.lock, LockStep(a));
    var ev := NodeEvent(lease, w, a);
    if ev.Some? { N.TokenStep(cfg, w.nodes[ev.value.0], w.lock.now, ev.value.1); }
    forall i, t | i in w'.nodes && Holding(w'.nodes[i], t) ensures L.Fresh(lease, w'.lock, i, t) {
      HoldingStep(lease, cfg, w, a, i, t);
    }
  }

  ghost predicate Init(lease: int, w: World) {
    && w.lock.local == map[] && L.RowsBounded(lease, w.lock)
    && forall i :: i in w.nodes ==> i != "" && N.Init(w.nodes[i])
  }

  ghost predicate IsRun(lease: int, cfg: N.Config, ws: seq<World>, acts: seq<Action>) {
    && lease > 0 && cfg.threshold >= 1
    && |ws| == |acts| + 1 && Init(lease, ws[0])
    && forall k :: 0 <= k < |acts| ==>
         Enabled(lease, cfg, ws[k], acts[k]) && RenewedInTime(lease, ws[k], acts[k])
           && ws[k + 1] == Next(lease, cfg, ws[k], acts[k])
  }

  lemma {:induction false} InvAlways(lease: int, cfg: N.Config, ws: seq<World>, acts: seq<Action>, k: nat)
    requires IsRun(lease, cfg, ws, acts) && k < |ws|
    ensures Inv(lease, ws[k])
  {
    hide N.Apply, N.Enabled, L.Apply;
    if k > 0 {
      InvAlways(lease, cfg, ws, acts, k - 1);
      InvStep(lease, cfg, ws[k - 1], acts[k - 1]);
    } else {
      forall i | i in ws[0].nodes ensures N.TokenInv(ws[0].nodes[i]) { N.InitInv(cfg, ws[0].nodes[i], 0); }
    }
  }

  // No two instances are ever inside Run of the same task, and the one that is owns the task's row.
  lemma NeverTwoRuns(lease: int, cfg: N.Config, ws: seq<World>, acts: seq<Action>, k: nat, i: Instance, j: Instance,
                     t: TaskName)
    requires IsRun(lease, cfg, ws, acts) && k < |ws|
    requires i in ws[k].nodes && N.InPhase(ws[k].nodes[i], t, N.Running)
    requires j in ws[k].nodes && N.InPhase(ws[k].nodes[j], t, N.Running)
    ensures i == j
    ensures L.OwnedLive(i, ws[k].lock.now, L.CellOf(ws[k].lock, i, t).row)
  {
    hide N.Apply, N.Enabled, L.Apply;
    InvAlways(lease, cfg, ws, acts, k);
    assert Holding(ws[k].nodes[i], t) && Holding(ws[k].nodes[j], t);
    L.AtMostOneFresh(lease, ws[k].lock, i, j, t);
    L.RenewalFindsRow(lease, ws[k].lock, i, t);
  }

  // ---------- Tasks do run ----------

  // What the lock answers decides where a popped task goes: to the breaker, or back to the wheel for another interval.
  lemma LockAnswerDecides(lease: int, cfg: N.Config, w: World, i: Instance, t: TaskName, f: L.Fault, k: nat)
    requires Enabled(lease, cfg, w, TryLock(i, t, f, k))
    ensures var s, s' := w.nodes[i], Next(lease, cfg, w, TryLock(i, t, f, k)).nodes[i];
            if L.TryLock(lease, i, w.lock.now, L.CellOf(w.lock, i, t), f).ok then
              s' == s.(hand := N.Granted(t))
            else
              && s'.hand == N.Nothing && s'.runs == s.runs && k < |s'.slots| && t in s'.slots[k]
              && t in cfg.interval && s'.next == s.next[t := w.lock.now + cfg.interval[t]]
  {}

  // The way of a task from its registration into Run.
  function FirstRun(i: Instance, t: TaskName): seq<Action> {
    [Insert(t), Local(i, N.Register(t, 0, 0)), Advance(1), Local(i, N.SweepStart), Local(i, N.SweepPush(t)),
     Local(i, N.Pop(t)), TryLock(i, t, L.NoFault, 0), Local(i, N.Ask(t)), Local(i, N.Begin(t))]
  }

  // One instance with a wheel of one slot and nothing in it, and no row yet.
  function Idle(i: Instance): World {
    World(L.State(0, map[], map[]),
          map[i := N.State([{}], 0, false, {}, multiset{}, N.Nothing, map[], map[], B.CLOSED, map[], map[])])
  }

  // The world with the lock's state and the one instance's.
  function At(i: Instance, now: int, db: map<TaskName, L.Row>, local: map<(Instance, TaskName), int>, s: N.State): World
  {
    World(L.State(now, db, local), map[i := s])
  }

  // A step of the instance that does not involve the lock.
  lemma LocalIs(lease: int, cfg: N.Config, i: Instance, now: int, db: map<TaskName, L.Row>,
                local: map<(Instance, TaskName), int>, s: N.State, e: N.Event)
    requires N.Enabled(cfg, s, now, e) && !e.GotLock? && !e.NoLock? && !e.UnlockDone?
    ensures var w := At(i, now, db, local, s);
            Enabled(lease, cfg, w, Local(i, e)) && RenewedInTime(lease, w, Local(i, e))
            && Next(lease, cfg, w, Local(i, e)) == At(i, now, db, local, N.Apply(cfg, s, now, e))
  {
    hide N.Enabled, N.Apply;
    assert map[i := s][i := N.Apply(cfg, s, now, e)] == map[i := N.Apply(cfg, s, now, e)];
  }

  // The instance in the course of that run.
  function Seen(t: TaskName, slots: seq<set<TaskName>>, sweeping: bool, swept: set<TaskName>, queue: multiset<TaskName>,
                hand: N.Hand, runs: map<TaskName, N.Phase>): N.State
  {
    N.State(slots, 0, sweeping, swept, queue, hand, runs, map[t := 0], B.CLOSED, map[], map[])
  }

  // From the registered task to the popped one.
  lemma WheelToHand(cfg: N.Config, t: TaskName)
    requires t in cfg.priority && t in cfg.interval
    ensures var s0 := N.State([{}], 0, false, {}, multiset{}, N.Nothing, map[], map[], B.CLOSED, map[], map[]);
            var s1 := Seen(t, [{t}], false, {}, multiset{}, N.Nothing, map[]);
            var s2 := Seen(t, [{}], true, {t}, multiset{}, N.Nothing, map[]);
            var s3 := Seen(t, [{}], true, {}, multiset{t}, N.Nothing, map[]);
            var s4 := Seen(t, [{}], true, {}, multiset{}, N.Popped(t), map[]);
            && N.Enabled(cfg, s0, 0, N.Register(t, 0, 0)) && N.Apply(cfg, s0, 0, N.Register(t, 0, 0)) == s1
            && N.Enabled(cfg, s1, 1, N.SweepStart) && N.Apply(cfg, s1, 1, N.SweepStart) == s2
            && N.Enabled(cfg, s2, 1, N.SweepPush(t)) && N.Apply(cfg, s2, 1, N.SweepPush(t)) == s3
            && N.Enabled(cfg, s3, 1, N.Pop(t)) && N.Apply(cfg, s3, 1, N.Pop(t)) == s4
  {
    var none: seq<set<TaskName>> := [{}];
    assert none[0] + {t} == {t};
    assert N.Into(none, 0, t) == [{t}] && [{t}][0 := {}] == none && {t} - {t} == {};
    assert multiset{} + multiset{t} == multiset{t} && multiset{t} - multiset{t} == multiset{};
  }

  // From the granted task into Run.
  lemma HandToRun(cfg: N.Config, t: TaskName)
    ensures var s5 := Seen(t, [{}], true, {}, multiset{}, N.Granted(t), map[]);
            var s6 := Seen(t, [{}], true, {}, multiset{}, N.Nothing, map[t := N.Starting]);
            var s7 := Seen(t, [{}], true, {}, multiset{}, N.Nothing, map[t := N.Running]);
            && N.Enabled(cfg, s5, 1, N.Ask(t)) && N.Apply(cfg, s5, 1, N.Ask(t)) == s6
            && N.Enabled(cfg, s6, 1, N.Begin(t)) && N.Apply(cfg, s6, 1, N.Begin(t)) == s7
  {}

  // The steps of the run that concern the table.
  lemma LockPart(lease: int, cfg: N.Config, i: Instance, t: TaskName)
    requires lease > 0 && i != ""
    ensures var free, s4 := map[t := L.Row("", 0)], Seen(t, [{}], true, {}, multiset{}, N.Popped(t), map[]);
            var w, a := At(i, 1, free, map[], s4), TryLock(i, t, L.NoFault, 0);
            && Enabled(lease, cfg, Idle(i), Insert(t)) && RenewedInTime(lease, Idle(i), Insert(t))
            && Next(lease, cfg, Idle(i), Insert(t)) == At(i, 0, free, map[], Idle(i).nodes[i])
            && Enabled(lease, cfg, w, a) && RenewedInTime(lease, w, a)
            && Next(lease, cfg, w, a) ==
               At(i, 1, map[t := L.Row(i, 1 + lease)], map[(i, t) := 1], s4.(hand := N.Granted(t)))
  {
    var w := At(i, 1, map[t := L.Row("", 0)], map[], Seen(t, [{}], true, {}, multiset{}, N.Popped(t), map[]));
    assert TryReply(lease, w, i, t, L.NoFault).ok;
    assert map[t := L.Row("", 0)][t := L.Row(i, 1 + lease)] == map[t := L.Row(i, 1 + lease)];
  }

  lemma TimePart(lease: int, cfg: N.Config, i: Instance, db: map<TaskName, L.Row>, s: N.State)
    requires lease > 0
    ensures var w := At(i, 0, db, map[], s);
            Enabled(lease, cfg, w, Advance(1)) && RenewedInTime(lease, w, Advance(1))
            && Next(lease, cfg, w, Advance(1)) == At(i, 1, db, map[], s)
  {}

  ghost predicate StepIs(lease: int, cfg: N.Config, w: World, a: Action, w': World) {
    Enabled(lease, cfg, w, a) && RenewedInTime(lease, w, a) && w' == Next(lease, cfg, w, a)
  }

  // The worlds of the run.
  function Stage(lease: int, i: Instance, t: TaskName, k: nat): World {
    var free, taken, local := map[t := L.Row("", 0)], map[t := L.Row(i, 1 + lease)], map[(i, t) := 1];
    var waiting := Seen(t, [{t}], false, {}, multiset{}, N.Nothing, map[]);
    if k == 0 then Idle(i)
    else if k == 1 then At(i, 0, free, map[], Idle(i).nodes[i])
    else if k == 2 then At(i, 0, free, map[], waiting)
    else if k == 3 then At(i, 1, free, map[], waiting)
    else if k == 4 then At(i, 1, free, map[], Seen(t, [{}], true, {t}, multiset{}, N.Nothing, map[]))
    else if k == 5 then At(i, 1, free, map[], Seen(t, [{}], true, {}, multiset{t}, N.Nothing, map[]))
    else if k == 6 then At(i, 1, free, map[], Seen(t, [{}], true, {}, multiset{}, N.Popped(t), map[]))
    else if k == 7 then At(i, 1, taken, local, Seen(t, [{}], true, {}, multiset{}, N.Granted(t), map[]))
    else if k == 8 then At(i, 1, taken, local, Seen(t, [{}], true, {}, multiset{}, N.Nothing, map[t := N.Starting]))
    else At(i, 1, taken, local, Seen(t, [{}], true, {}, multiset{}, N.Nothing, map[t := N.Running]))
  }

  lemma StageLocal(lease: int, cfg: N.Config, i: Instance, t: TaskName, k: nat, e: N.Event)
    requires k < 9 && FirstRun(i, t)[k] == Local(i, e) && !e.GotLock? && !e.NoLock? && !e.UnlockDone?
    requires var w, w' := Stage(lease, i, t, k), Stage(lease, i, t, k + 1);
             && i in w.nodes && w == At(i, w.lock.now, w.lock.db, w.lock.local, w.nodes[i])
             && N.Enabled(cfg, w.nodes[i], w.lock.now, e)
             && w' == At(i, w.lock.now, w.lock.db, w.lock.local, N.Apply(cfg, w.nodes[i], w.lock.now, e))
    ensures StepIs(lease, cfg, Stage(lease, i, t, k), FirstRun(i, t)[k], Stage(lease, i, t, k + 1))
  {
    var w := Stage(lease, i, t, k);
    hide N.Enabled, N.Apply, Stage, FirstRun, Enabled, RenewedInTime, Next, At;
    LocalIs(lease, cfg, i, w.lock.now, w.lock.db, w.lock.local, w.nodes[i], e);
  }

  lemma StageStep(lease: int, cfg: N.Config, i: Instance, t: TaskName, k: nat)
    requires lease > 0 && i != "" && t in cfg.priority && t in cfg.interval && k < 9
    ensures StepIs(lease, cfg, Stage(lease, i, t, k), FirstRun(i, t)[k], Stage(lease, i, t, k + 1))
  {
    hide N.Enabled, N.Apply, Enabled, RenewedInTime, Next;
    if k == 0 || k == 6 {
      LockPart(lease, cfg, i, t);
    } else if k == 2 {
      TimePart(lease, cfg, i, map[t := L.Row("", 0)], Seen(t, [{t}], false, {}, multiset{}, N.Nothing, map[]));
    } else if k < 6 {
      WheelToHand(cfg, t);
      StageLocal(lease, cfg, i, t, k, FirstRun(i, t)[k].e);
    } else {
      HandToRun(cfg, t);
      StageLocal(lease, cfg, i, t, k, FirstRun(i, t)[k].e);
    }
  }

  // A run of any task on any instance into Run, within the assumptions of the exclusion theorem.
  lemma ReachesRun(lease: int, cfg: N.Config, i: Instance, t: TaskName) returns (ws: seq<World>)
    requires lease > 0 && cfg.threshold >= 1 && i != "" && t in cfg.priority && t in cfg.interval
    ensures IsRun(lease, cfg, ws, FirstRun(i, t))
    ensures i in ws[9].nodes && N.InPhase(ws[9].nodes[i], t, N.Running)
  {
    ws := seq(10, k requires 0 <= k < 10 => Stage(lease, i, t, k));
    assert Init(lease, ws[0]);
    RunningAt(i, 1, map[t := L.Row(i, 1 + lease)], map[(i, t) := 1], t);
    var acts := FirstRun(i, t);
    hide Stage, Enabled, RenewedInTime, Next, Init, At, Seen, FirstRun;
    forall k | 0 <= k < 9
      ensures Enabled(lease, cfg, ws[k], acts[k]) && RenewedInTime(lease, ws[k], acts[k])
              && ws[k + 1] == Next(lease, cfg, ws[k], acts[k])
    {
      StageStep(lease, cfg, i, t, k);
    }
  }

  lemma RunningAt(i: Instance, now: int, db: map<TaskName, L.Row>, local: map<(Instance, TaskName), int>, t: TaskName)
    ensures var w := At(i, now, db, local, Seen(t, [{}], true, {}, multiset{}, N.Nothing, map[t := N.Running]));
            i in w.nodes && N.InPhase(w.nodes[i], t, N.Running)
  {}
}
