/**
 The circuit breaker of pkg/scheduler/circuitbreaker.go: two maps, updated in place even by the query, against
 the history of what happened to a task.
 */
module Breaker {
  import opened Wrappers

  type TaskName = string
  type Time = int

  // A missing failure count reads as zero.
  datatype Circuit = Circuit(failCount: map<TaskName, int>, trippedAt: map<TaskName, Time>)

  const CLOSED := Circuit(map[], map[])

  function FailsOf(c: Circuit, t: TaskName): int {
    if t in c.failCount then c.failCount[t] else 0
  }

  function Reset(c: Circuit, t: TaskName): Circuit {
    Circuit(c.failCount[t := 0], c.trippedAt - {t})
  }

  function Failed(threshold: int, c: Circuit, t: TaskName, now: Time): Circuit {
    var n := FailsOf(c, t) + 1;
    Circuit(c.failCount[t := n], if n >= threshold then c.trippedAt[t := now] else c.trippedAt)
  }

  predicate Expired(isolate: Time, c: Circuit, t: TaskName, now: Time) {
    t in c.trippedAt && now - c.trippedAt[t] > isolate
  }

  function Queried(isolate: Time, c: Circuit, t: TaskName, now: Time): Circuit {
    if Expired(isolate, c, t, now) then Reset(c, t) else c
  }

  predicate Isolated(isolate: Time, c: Circuit, t: TaskName, now: Time) {
    t in c.trippedAt && now - c.trippedAt[t] <= isolate
  }

  // ---------- History ----------

  datatype Event = Success(t: TaskName) | Failure(t: TaskName, at: Time) | Query(t: TaskName, at: Time)

  function Replay(threshold: int, isolate: Time, log: seq<Event>): Circuit {
    if log == [] then CLOSED
    else
      var c := Replay(threshold, isolate, log[..|log| - 1]);
      match log[|log| - 1]
      case Success(t) => Reset(c, t)
      case Failure(t, at) => Failed(threshold, c, t, at)
      case Query(t, at) => Queried(isolate, c, t, at)
  }

  // The failures of one task since it last started afresh, with the time of the latest one.  A task starts
  // afresh at a success, and at a query that finds an isolation to be over.
  datatype Streak = Streak(fails: nat, last: Time)

  predicate Over(threshold: int, isolate: Time, s: Streak, at: Time) {
    s.fails >= 1 && s.fails >= threshold && at - s.last > isolate
  }

  function StreakOf(threshold: int, isolate: Time, log: seq<Event>, t: TaskName): Streak {
    if log == [] then Streak(0, 0)
    else
      var e := log[|log| - 1];
      var s := StreakOf(threshold, isolate, log[..|log| - 1], t);
      if e.t != t then s
      else match e
        case Success(_) => Streak(0, 0)
        case Failure(_, at) => Streak(s.fails + 1, at)
        case Query(_, at) => if Over(threshold, isolate, s, at) then Streak(0, 0) else s
  }

  // The maps are exactly the streaks: the count is the number of failures, and a task is in trippedAt, with the
  // time of its latest failure, exactly when it has failed at least once and at least threshold times.
  lemma {:induction false} RefinesHistory(threshold: int, isolate: Time, log: seq<Event>, t: TaskName)
    ensures
      var c, s := Replay(threshold, isolate, log), StreakOf(threshold, isolate, log, t);
      && FailsOf(c, t) == s.fails
      && (t in c.trippedAt <==> s.fails >= 1 && s.fails >= threshold)
      && (t in c.trippedAt ==> c.trippedAt[t] == s.last)
  {
    if log != [] { RefinesHistory(threshold, isolate, log[..|log| - 1], t); }
  }

  // What a query answers, told from the history alone; with a threshold of at least one a task is tripped
  // exactly when its count has reached it.
  lemma IsolationFromHistory(threshold: int, isolate: Time, log: seq<Event>, t: TaskName, now: Time)
    ensures
      var c, s := Replay(threshold, isolate, log), StreakOf(threshold, isolate, log, t);
      && (Isolated(isolate, c, t, now) <==> s.fails >= 1 && s.fails >= threshold && now - s.last <= isolate)
      && (threshold >= 1 ==> (t in c.trippedAt <==> FailsOf(c, t) >= threshold))
  {
    RefinesHistory(threshold, isolate, log, t);
  }

  function Failures(t: TaskName, times: seq<Time>): (log: seq<Event>)
    ensures |log| == |times|
  {
    seq(|times|, k requires 0 <= k < |times| => Failure(t, times[k]))
  }

  // Threshold failures in a row isolate a task, one fewer does not, and a query later than the isolation time
  // after the last failure sets it free again with its count at zero.
  lemma {:induction false} StreakTrips(threshold: nat, isolate: Time, log: seq<Event>, t: TaskName, times: seq<Time>)
    requires times != []
    requires StreakOf(threshold, isolate, log, t).fails == 0
    ensures StreakOf(threshold, isolate, log + Failures(t, times), t) == Streak(|times|, times[|times| - 1])
  {
    var all, n := log + Failures(t, times), |times|;
    assert all[..|all| - 1] == log + Failures(t, times[..n - 1]);
    if n > 1 {
      StreakTrips(threshold, isolate, log, t, times[..n - 1]);
    } else {
      assert all[..|all| - 1] == log;
    }
  }

  lemma TripAndRecover(threshold: int, isolate: Time, log: seq<Event>, t: TaskName, times: seq<Time>, now: Time)
    requires threshold >= 1 && times != []
    requires StreakOf(threshold, isolate, log, t).fails == 0
    ensures
      var c := Replay(threshold, isolate, log + Failures(t, times));
      var last := times[|times| - 1];
      && (Isolated(isolate, c, t, now) <==> |times| >= threshold && now - last <= isolate)
      && (|times| >= threshold && now - last > isolate ==>
            FailsOf(Queried(isolate, c, t, now), t) == 0 && t !in Queried(isolate, c, t, now).trippedAt)
  {
    StreakTrips(threshold, isolate, log, t, times);
    RefinesHistory(threshold, isolate, log + Failures(t, times), t);
  }

  class CircuitBreaker {
    var failCount: map<TaskName, int>
    var trippedAt: map<TaskName, Time>
    const threshold: int
    const isolateTime: Time
    ghost var log: seq<Event>

    ghost predicate Valid()
      reads this
    {
      Circuit(failCount, trippedAt) == Replay(threshold, isolateTime, log)
    }

    constructor (threshold: int, isolateTime: Time)
      ensures Valid() && log == [] && this.threshold == threshold && this.isolateTime == isolateTime
    {
      this.threshold, this.isolateTime := threshold, isolateTime;
      failCount, trippedAt, log := map[], map[], [];
    }

    method OnSuccess(t: TaskName)
      requires Valid()
      modifies this
      ensures Valid() && log == old(log) + [Success(t)]
    {
      failCount := failCount[t := 0];
      trippedAt := trippedAt - {t};
      log := log + [Success(t)];
    }

    method OnFailure(t: TaskName, now: Time)
      requires Valid()
      modifies this
      ensures Valid() && log == old(log) + [Failure(t, now)]
    {
      failCount := failCount[t := (if t in failCount then failCount[t] else 0) + 1];
      if failCount[t] >= threshold {
        trippedAt := trippedAt[t := now];
      }
      log := log + [Failure(t, now)];
    }

    method IsIsolated(t: TaskName, now: Time) returns (isolated: bool)
      requires Valid()
      modifies this
      ensures Valid() && log == old(log) + [Query(t, now)]
      ensures var s := StreakOf(threshold, isolateTime, old(log), t);
              isolated <==> s.fails >= 1 && s.fails >= threshold && now - s.last <= isolateTime
    {
      RefinesHistory(threshold, isolateTime, log, t);
      log := log + [Query(t, now)];
      if t !in trippedAt {
        return false;
      }
      if now - trippedAt[t] > isolateTime {
        failCount := failCount[t := 0];
        trippedAt := trippedAt - {t};
        return false;
      }
      return true;
    }
  }
}
