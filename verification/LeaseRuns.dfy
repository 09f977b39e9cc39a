/**
 Whole runs of the lease protocol: exclusion at every point of every run, how long a crashed holder can delay
 the others, and why renewing every third of a lease keeps a held lock from lapsing.
 */
module LeaseRuns {
  import opened Wrappers
  import opened Lease

  ghost predicate IsRun(lease: Time, ss: seq<State>, steps: seq<Step>) {
    && lease > 0
    && |ss| == |steps| + 1
    && (forall k :: 0 <= k < |steps| ==>
          Disciplined(lease, ss[k], steps[k]) && ss[k + 1] == Apply(lease, ss[k], steps[k]))
  }

  // Nobody has cached anything yet; rows may still name holders of an earlier incarnation.
  ghost predicate Initial(lease: Time, s: State) {
    s.local == map[] && RowsBounded(lease, s)
  }

  ghost predicate LeaseRun(lease: Time, ss: seq<State>, steps: seq<Step>) {
    IsRun(lease, ss, steps) && Initial(lease, ss[0])
  }

  lemma {:induction false} LeaseInvAlways(lease: Time, ss: seq<State>, steps: seq<Step>, k: nat)
    requires LeaseRun(lease, ss, steps) && k < |ss|
    ensures LeaseInv(lease, ss[k]) && RowsBounded(lease, ss[k])
  {
    if k > 0 {
      LeaseInvAlways(lease, ss, steps, k - 1);
      LeaseInvStep(lease, ss[k - 1], steps[k - 1]);
    }
  }

  // At every point of every run at most one instance passes the fast path for a task, no TryLock of another
  // can then succeed, and a renewal then finds its row.
  lemma ExclusionAlways(lease: Time, ss: seq<State>, steps: seq<Step>, k: nat, i: Instance, t: TaskName)
    requires LeaseRun(lease, ss, steps) && k < |ss|
    requires Fresh(lease, ss[k], i, t)
    ensures forall j, f :: j != i ==>
              !Fresh(lease, ss[k], j, t) && !TryLock(lease, j, ss[k].now, CellOf(ss[k], j, t), f).ok
    ensures OwnedLive(i, ss[k].now, CellOf(ss[k], i, t).row)
  {
    LeaseInvAlways(lease, ss, steps, k);
    RenewalFindsRow(lease, ss[k], i, t);
    forall j, f | j != i
      ensures !Fresh(lease, ss[k], j, t) && !TryLock(lease, j, ss[k].now, CellOf(ss[k], j, t), f).ok
    {
      FreshBlocksOthers(lease, ss[k], i, j, t, f);
      if Fresh(lease, ss[k], j, t) { AtMostOneFresh(lease, ss[k], i, j, t); }
    }
  }

  lemma {:induction false} TimeAdvances(lease: Time, ss: seq<State>, steps: seq<Step>, a: nat, b: nat)
    requires IsRun(lease, ss, steps) && a <= b < |ss|
    ensures ss[a].now <= ss[b].now
    decreases b
  {
    if a < b { TimeAdvances(lease, ss, steps, a, b - 1); }
  }

  // Columns that the table held at some earlier point never reach further than a lease from the present.
  lemma ReadColumnsBounded(lease: Time, ss: seq<State>, steps: seq<Step>, a: nat, b: nat, t: TaskName)
    requires LeaseRun(lease, ss, steps) && a <= b < |ss| && t in ss[a].db
    ensures ss[a].db[t].holder != "" ==> ss[a].db[t].until <= ss[b].now + lease
  {
    LeaseInvAlways(lease, ss, steps, a);
    TimeAdvances(lease, ss, steps, a, b);
  }

  // ---------- Bounded failover ----------

  ghost predicate ActsAs(step: Step, i: Instance) {
    (step.Try? || step.Renewal? || step.Release?) && step.i == i
  }

  ghost predicate TakenFrom(ss: seq<State>, steps: seq<Step>, k: nat, i: Instance, t: TaskName)
    requires |ss| == |steps| + 1
  {
    && k < |steps|
    && steps[k].Try? && steps[k].t == t && steps[k].i != i
    && t in ss[k].db && ss[k].db[t].holder == i
    && t in ss[k + 1].db && ss[k + 1].db[t].holder == steps[k].i
  }

  // No columns are saved over the row from point a to point b.
  ghost predicate Unsaved(ss: seq<State>, steps: seq<Step>, a: nat, b: nat, t: TaskName)
    requires |ss| == |steps| + 1
  {
    forall k :: a <= k < b && k < |steps| && steps[k].WriteBack? && steps[k].t == t && t in ss[k].db ==>
      Written(ss[k].db[t], steps[k].cols) == ss[k].db[t]
  }

  // The row of an instance that has stopped acting changes only when another instance takes it.
  lemma {:induction false} RowOfTheSilent(lease: Time, ss: seq<State>, steps: seq<Step>, a: nat, b: nat, i: Instance,
                                          t: TaskName)
    requires IsRun(lease, ss, steps) && a <= b < |ss|
    requires t in ss[a].db && ss[a].db[t].holder == i && i != ""
    requires (forall k :: a <= k < b ==> !ActsAs(steps[k], i)) && Unsaved(ss, steps, a, b, t)
    requires forall k: nat :: a <= k < b ==> !TakenFrom(ss, steps, k, i, t)
    ensures t in ss[b].db && ss[b].db[t] == ss[a].db[t]
    decreases b
  {
    if a < b {
      RowOfTheSilent(lease, ss, steps, a, b - 1, i, t);
      assert !ActsAs(steps[b - 1], i) && !TakenFrom(ss, steps, b - 1, i, t);
    }
  }

  // Once the holder has been silent for more than a lease, TryLock of any instance succeeds, unless another
  // instance has already taken the lock from it.
  lemma FailoverAfterCrash(lease: Time, ss: seq<State>, steps: seq<Step>, a: nat, b: nat, i: Instance, j: Instance,
                           t: TaskName)
    requires LeaseRun(lease, ss, steps) && a <= b < |ss|
    requires t in ss[a].db && ss[a].db[t].holder == i && i != ""
    requires (forall k :: a <= k < b ==> !ActsAs(steps[k], i)) && Unsaved(ss, steps, a, b, t)
    requires ss[b].now > ss[a].now + lease
    ensures || (exists k: nat :: a <= k < b && TakenFrom(ss, steps, k, i, t))
            || TryLock(lease, j, ss[b].now, CellOf(ss[b], j, t), NoFault).ok
  {
    if forall k: nat :: a <= k < b ==> !TakenFrom(ss, steps, k, i, t) {
      LeaseInvAlways(lease, ss, steps, a);
      RowOfTheSilent(lease, ss, steps, a, b, i, t);
    }
  }

  // ---------- Continuous hold ----------

  function TickAt(phase: Time, period: Time, n: int): Time {
    phase + n * period
  }

  // The last tick strictly before a time, and the next one not before it.
  lemma LastTickBefore(phase: Time, period: Time, now: Time) returns (n: int)
    requires period > 0
    ensures TickAt(phase, period, n) < now <= TickAt(phase, period, n) + period
    ensures TickAt(phase, period, n - 1) == TickAt(phase, period, n) - period
  {
    n := (now - 1 - phase) / period;
  }

  // From point a on the instance neither releases the lock nor sees a renewal fail, and every tick of its
  // ticker that is over by point b and was not missed has renewed the lock at its time.
  ghost predicate Renewed(ss: seq<State>, steps: seq<Step>, a: nat, b: nat, i: Instance, t: TaskName,
                          phase: Time, period: Time, missed: set<int>)
    requires |ss| == |steps| + 1 && a <= b < |ss|
  {
    && (forall k :: a <= k < b && steps[k].Release? ==> !(steps[k].i == i && steps[k].t == t))
    && (forall k :: a <= k < b && steps[k].Renewal? && steps[k].i == i && steps[k].t == t ==> steps[k].f == NoFault)
    && (forall n :: ss[a].now < TickAt(phase, period, n) < ss[b].now && n !in missed ==>
          exists k :: a <= k < b && steps[k] == Renewal(i, t, NoFault) && ss[k].now == TickAt(phase, period, n))
  }

  // The cached time is at least as late as the acquisition and as every renewal so far.
  ghost predicate Tracks(ss: seq<State>, steps: seq<Step>, a: nat, b: nat, i: Instance, t: TaskName)
    requires |ss| == |steps| + 1 && a <= b < |ss|
  {
    && (i, t) in ss[b].local
    && ss[a].now <= ss[b].local[(i, t)]
    && (forall k :: a <= k < b && steps[k] == Renewal(i, t, NoFault) ==> ss[k].now <= ss[b].local[(i, t)])
  }

  lemma TracksGap(ss: seq<State>, steps: seq<Step>, a: nat, b: nat, i: Instance, t: TaskName,
                  phase: Time, period: Time, missed: set<int>)
    requires |ss| == |steps| + 1 && a <= b < |ss| && period > 0
    requires Tracks(ss, steps, a, b, i, t) && Renewed(ss, steps, a, b, i, t, phase, period, missed)
    requires forall n :: n in missed ==> n - 1 !in missed
    ensures ss[b].now - ss[b].local[(i, t)] <= 2 * period
  {
    var n := LastTickBefore(phase, period, ss[b].now);
    if ss[a].now < TickAt(phase, period, n) {
      if n in missed && ss[a].now < TickAt(phase, period, n - 1) {
        assert n - 1 !in missed;
      }
    }
  }

  // While the lock is held and not released, a step keeps the cached time or moves it to the present.
  lemma HeldEntryMoves(lease: Time, s: State, step: Step, i: Instance, t: TaskName)
    requires LeaseInv(lease, s) && Fresh(lease, s, i, t)
    requires step.Release? ==> !(step.i == i && step.t == t)
    requires step.Renewal? && step.i == i && step.t == t ==> step.f == NoFault
    ensures var s' := Apply(lease, s, step);
            && (i, t) in s'.local
            && (s'.local[(i, t)] == s.now || (s'.local[(i, t)] == s.local[(i, t)] && step != Renewal(i, t, NoFault)))
  {
    RenewalFindsRow(lease, s, i, t);
  }

  lemma TracksStep(lease: Time, ss: seq<State>, steps: seq<Step>, a: nat, b: nat, i: Instance, t: TaskName)
    requires IsRun(lease, ss, steps) && a < b < |ss| && Tracks(ss, steps, a, b - 1, i, t)
    requires (i, t) in ss[b].local
    requires ss[b].local[(i, t)] == ss[b - 1].now ||
             (ss[b].local[(i, t)] == ss[b - 1].local[(i, t)] && steps[b - 1] != Renewal(i, t, NoFault))
    ensures Tracks(ss, steps, a, b, i, t)
  {
    forall k | a <= k <= b - 1 ensures ss[k].now <= ss[b - 1].now { TimeAdvances(lease, ss, steps, k, b - 1); }
    hide Apply, Disciplined;
  }

  // With a tick every third of the lease and no two ticks missed in a row, the cached time never gets older
  // than two thirds of the lease, so the lock stays held at every later point of the run.
  lemma {:induction false} ContinuousHold(lease: Time, ss: seq<State>, steps: seq<Step>, a: nat, b: nat, i: Instance,
                                          t: TaskName,
                                          phase: Time, missed: set<int>)
    requires LeaseRun(lease, ss, steps) && a <= b < |ss| && lease >= 3
    requires (i, t) in ss[a].local && ss[a].local[(i, t)] == ss[a].now
    requires Renewed(ss, steps, a, b, i, t, phase, lease / 3, missed)
    requires forall n :: n in missed ==> n - 1 !in missed
    ensures Tracks(ss, steps, a, b, i, t)
    ensures ss[b].now - ss[b].local[(i, t)] <= 2 * (lease / 3)
    ensures Fresh(lease, ss[b], i, t) && OwnedLive(i, ss[b].now, CellOf(ss[b], i, t).row)
    decreases b
  {
    hide Apply, Disciplined, LeaseInv, RowsBounded, OwnedLive;
    if a < b {
      RenewedPrefix(lease, ss, steps, a, b, i, t, phase, lease / 3, missed);
      ContinuousHold(lease, ss, steps, a, b - 1, i, t, phase, missed);
      LeaseInvAlways(lease, ss, steps, b - 1);
      HeldEntryMoves(lease, ss[b - 1], steps[b - 1], i, t);
      TracksStep(lease, ss, steps, a, b, i, t);
    }
    TracksGap(ss, steps, a, b, i, t, phase, lease / 3, missed);
    LeaseInvAlways(lease, ss, steps, b);
    RenewalFindsRow(lease, ss[b], i, t);
  }

  // The instance does nothing with the task from point a to point b.
  ghost predicate Untouched(steps: seq<Step>, a: nat, b: nat, i: Instance, t: TaskName) {
    forall k :: a <= k < b && k < |steps| && ActsAs(steps[k], i) ==> steps[k].t != t
  }

  lemma {:induction false} EntryStays(lease: Time, ss: seq<State>, steps: seq<Step>, a: nat, b: nat, i: Instance,
                                      t: TaskName)
    requires IsRun(lease, ss, steps) && a <= b < |ss| && (i, t) in ss[a].local && Untouched(steps, a, b, i, t)
    ensures (i, t) in ss[b].local && ss[b].local[(i, t)] == ss[a].local[(i, t)]
    decreases b
  {
    if a < b { EntryStays(lease, ss, steps, a, b - 1, i, t); }
  }

  // A TryLock that takes the row is good for exactly a lease: as long as the instance does nothing more with the task,
  // it passes at every time before the time of the call plus the lease, whatever its statements would meet, and from
  // then on it passes no more.
  lemma TakenForALease(lease: Time, ss: seq<State>, steps: seq<Step>, a: nat, b: nat, i: Instance, t: TaskName,
                       f: Fault)
    requires IsRun(lease, ss, steps) && a < b < |ss| && steps[a] == Try(i, t, f)
    requires !Fresh(lease, ss[a], i, t) && TryLock(lease, i, ss[a].now, CellOf(ss[a], i, t), f).ok
    requires Untouched(steps, a + 1, b, i, t)
    ensures ss[b].now < ss[a].now + lease ==> forall g :: TryLock(lease, i, ss[b].now, CellOf(ss[b], i, t), g).ok
    ensures Fresh(lease, ss[b], i, t) <==> ss[b].now < ss[a].now + lease
  {
    TakeStoresNow(lease, ss[a], i, t, f);
    EntryStays(lease, ss, steps, a + 1, b, i, t);
  }

  // Such a TryLock begins a continuous hold.
  lemma HoldFromTake(lease: Time, ss: seq<State>, steps: seq<Step>, a: nat, b: nat, i: Instance, t: TaskName, f: Fault,
                     phase: Time, missed: set<int>)
    requires LeaseRun(lease, ss, steps) && a < b < |ss| && lease >= 3 && steps[a] == Try(i, t, f)
    requires !Fresh(lease, ss[a], i, t) && TryLock(lease, i, ss[a].now, CellOf(ss[a], i, t), f).ok
    requires Renewed(ss, steps, a + 1, b, i, t, phase, lease / 3, missed)
    requires forall n :: n in missed ==> n - 1 !in missed
    ensures (i, t) in ss[a + 1].local && ss[a + 1].local[(i, t)] == ss[a].now == ss[a + 1].now
    ensures (i, t) in ss[b].local && ss[b].now - ss[b].local[(i, t)] <= 2 * (lease / 3)
    ensures Fresh(lease, ss[b], i, t) && OwnedLive(i, ss[b].now, CellOf(ss[b], i, t).row)
  {
    TakeStoresNow(lease, ss[a], i, t, f);
    ContinuousHold(lease, ss, steps, a + 1, b, i, t, phase, missed);
  }

  lemma RenewedPrefix(lease: Time, ss: seq<State>, steps: seq<Step>, a: nat, b: nat, i: Instance, t: TaskName,
                      phase: Time, period: Time, missed: set<int>)
    requires IsRun(lease, ss, steps) && a < b < |ss|
    requires Renewed(ss, steps, a, b, i, t, phase, period, missed)
    ensures Renewed(ss, steps, a, b - 1, i, t, phase, period, missed)
  {
    forall n | ss[a].now < TickAt(phase, period, n) < ss[b - 1].now && n !in missed
      ensures exists k :: a <= k < b - 1 && steps[k] == Renewal(i, t, NoFault) && ss[k].now == TickAt(phase, period, n)
    {
      TimeAdvances(lease, ss, steps, b - 1, b);
      var k :| a <= k < b && steps[k] == Renewal(i, t, NoFault) && ss[k].now == TickAt(phase, period, n);
    }
  }

  // ---------- Why the two assumptions on steps are needed ----------

  function Execute(lease: Time, s: State, steps: seq<Step>): State
    decreases |steps|
  {
    if steps == [] then s else Execute(lease, Apply(lease, s, steps[0]), steps[1..])
  }

  // A run longer than the lease it read at its start: the holder renews at every tick, saves the stale columns when
  // the run is over, and a second instance passes TryLock while the first still passes the fast path.
  lemma StaleWriteBackBreaksExclusion()
    ensures
      var s := State(0, map["t" := Row("", 0)], map[]);
      var read := Execute(15, s, [Try("a", "t", NoFault)]).db["t"];
      var renew := [Advance(5), Renewal("a", "t", NoFault)];
      var end := Execute(15, s, [Try("a", "t", NoFault)] + (renew + renew + renew) +
                                [Advance(1), WriteBack("t", read)] + [Try("b", "t", NoFault)]);
      Fresh(15, end, "a", "t") && Fresh(15, end, "b", "t")
  {
    var s := State(0, map["t" := Row("", 0)], map[]);
    var s1 := State(0, map["t" := Row("a", 15)], map[("a", "t") := 0]);
    var s4 := State(15, map["t" := Row("a", 30)], map[("a", "t") := 15]);
    var s5 := State(16, map["t" := Row("a", 15)], map[("a", "t") := 15]);
    var renew := [Advance(5), Renewal("a", "t", NoFault)];
    var first, rest, write, last :=
      [Try("a", "t", NoFault)], renew + renew + renew, [Advance(1), WriteBack("t", Row("a", 15))],
        [Try("b", "t", NoFault)];
    Steps(15, s, first, s1);
    HeldForFifteen(s1, s4);
    Steps(15, s4, write, s5);
    Steps(15, s5, last, Apply(15, s5, Try("b", "t", NoFault)));
    ExecuteAppend(15, s, first + rest + write, last);
    ExecuteAppend(15, s, first + rest, write);
    ExecuteAppend(15, s, first, rest);
    hide Execute;
  }

  lemma {:induction false} ExecuteAppend(lease: Time, s: State, steps: seq<Step>, more: seq<Step>)
    ensures Execute(lease, s, steps + more) == Execute(lease, Execute(lease, s, steps), more)
    decreases |steps|
  {
    if steps == [] {
      assert steps + more == more;
    } else {
      assert (steps + more)[1..] == steps[1..] + more;
      ExecuteAppend(lease, Apply(lease, s, steps[0]), steps[1..], more);
    }
  }

  // A list of one or two steps.
  lemma Steps(lease: Time, s: State, steps: seq<Step>, s': State)
    requires 1 <= |steps| <= 2
    requires s' == if |steps| == 1 then Apply(lease, s, steps[0]) else Apply(lease, Apply(lease, s, steps[0]), steps[1])
    ensures Execute(lease, s, steps) == s'
  {
    assert Execute(lease, Apply(lease, s, steps[0]), steps[1..]) == s' by {
      if |steps| == 2 { assert steps[1..] == [steps[1]] && [steps[1]][1..] == []; }
    }
  }

  lemma HeldForFifteen(s1: State, s4: State)
    requires s1 == State(0, map["t" := Row("a", 15)], map[("a", "t") := 0])
    requires s4 == State(15, map["t" := Row("a", 30)], map[("a", "t") := 15])
    ensures var renew := [Advance(5), Renewal("a", "t", NoFault)]; Execute(15, s1, renew + renew + renew) == s4
  {
    var renew := [Advance(5), Renewal("a", "t", NoFault)];
    var s2 := State(5, map["t" := Row("a", 20)], map[("a", "t") := 5]);
    var s3 := State(10, map["t" := Row("a", 25)], map[("a", "t") := 10]);
    Steps(15, s1, renew, s2);
    Steps(15, s2, renew, s3);
    Steps(15, s3, renew, s4);
    ExecuteAppend(15, s1, renew + renew, renew);
    ExecuteAppend(15, s1, renew, renew);
    hide Execute;
  }
}
