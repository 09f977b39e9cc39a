/**
 The time wheel of pkg/scheduler/timewheel.go as an object over tasks that the caller re-times in place.  The
 methods say what becomes of the slots; AddReflects and TickReflects tie that to the value of WheelTiming.
 */
module TimeWheel {
  import opened Tasks
  import TaskHeap
  import W = WheelTiming

  type Slot = map<string, Task>

  // The two clock readings of a sweep for one task: before its due time is looked at, and by AddTask.
  datatype Reading = Reading(seen: Time, added: Time)

  type Clock = string -> Reading

  // The slots hold the tasks of the value, each due when the value says.
  ghost predicate Reflects(slots: seq<Slot>, cur: nat, w: W.Wheel)
    reads set k, name | 0 <= k < |slots| && name in slots[k] :: slots[k][name]
  {
    && |w.slots| == |slots| && w.cur == cur
    && forall k :: 0 <= k < |slots| ==> SameSlot(slots[k], w.slots[k])
  }

  ghost predicate SameSlot(s: Slot, m: map<string, W.Due>)
    reads s.Values
  {
    s.Keys == m.Keys && forall name :: name in s ==> s[name].nextRun == m[name].at
  }

  ghost function Dues(s: Slot): map<string, Time>
    reads s.Values
  {
    map name | name in s :: s[name].nextRun
  }

  // What has been put back into slot k once only `todo` is left of the swept tasks.
  ghost function Back(swept: Slot, due: map<string, Time>, todo: set<string>, at: Clock, cur: nat, n: nat, k: int): Slot
    requires n > 0 && due.Keys == swept.Keys
  {
    map name | name in swept && name !in todo && at(name).seen <= due[name]
      && W.Target(cur, n, due[name], at(name).added) == k :: swept[name]
  }

  ghost function Ripe(swept: Slot, due: map<string, Time>, todo: set<string>, at: Clock): set<Task>
    requires due.Keys == swept.Keys
  {
    set name | name in swept && name !in todo && at(name).seen > due[name] :: swept[name]
  }

  lemma RipeStep(swept: Slot, due: map<string, Time>, todo: set<string>, at: Clock, name: string)
    requires due.Keys == swept.Keys && name in swept && name in todo
    requires forall m :: m in swept ==> swept[m].name == m
    ensures multiset(Ripe(swept, due, todo - {name}, at)) ==
            multiset(Ripe(swept, due, todo, at))
              + (if at(name).seen > due[name] then multiset{swept[name]} else multiset{})
  {
    assert swept[name] !in Ripe(swept, due, todo, at);
    assert Ripe(swept, due, todo - {name}, at) ==
           Ripe(swept, due, todo, at) + (if at(name).seen > due[name] then {swept[name]} else {});
  }

  ghost predicate Partly(slots: seq<Slot>, emptied: seq<Slot>, swept: Slot, due: map<string, Time>, todo: set<string>,
                         at: Clock, cur: nat)
    requires due.Keys == swept.Keys
  {
    && |slots| == |emptied| && cur < |slots|
    && forall k :: 0 <= k < |slots| ==> slots[k] == emptied[k] + Back(swept, due, todo, at, cur, |slots|, k)
  }

  lemma BackStep(swept: Slot, due: map<string, Time>, todo: set<string>, at: Clock, cur: nat, n: nat, k: int,
                 name: string)
    requires n > 0 && due.Keys == swept.Keys && name in swept && name in todo
    ensures var b := Back(swept, due, todo, at, cur, n, k);
            Back(swept, due, todo - {name}, at, cur, n, k) ==
            if at(name).seen <= due[name] && W.Target(cur, n, due[name], at(name).added) == k
              then b[name := swept[name]] else b
  {
    hide W.Target;
  }

  lemma PartlyStep(slots: seq<Slot>, emptied: seq<Slot>, swept: Slot, due: map<string, Time>, todo: set<string>,
                   at: Clock, cur: nat, name: string)
    requires due.Keys == swept.Keys && name in swept && name in todo && swept[name].name == name
    requires Partly(slots, emptied, swept, due, todo, at, cur)
    ensures Partly(if at(name).seen > due[name] then slots
                   else Placed(slots, cur, swept[name], due[name], at(name).added),
                   emptied, swept, due, todo - {name}, at, cur)
  {
    hide W.Target, Back;
    var n := |slots|;
    forall k | 0 <= k < n
      ensures Back(swept, due, todo - {name}, at, cur, n, k) ==
              (var b := Back(swept, due, todo, at, cur, n, k);
               if at(name).seen <= due[name] && W.Target(cur, n, due[name], at(name).added) == k
                 then b[name := swept[name]] else b)
    {
      BackStep(swept, due, todo, at, cur, n, k, name);
    }
  }

  class TimeWheel {
    var slots: seq<Slot>
    var currentSlot: nat
    const taskQueue: TaskHeap.TaskQueue

    ghost predicate Valid()
      reads this, taskQueue
    {
      && currentSlot < |slots|
      && (forall k, name :: 0 <= k < |slots| && name in slots[k] ==> slots[k][name].name == name)
      && taskQueue.Valid()
    }

    constructor (tickMs: nat, taskQueue: TaskHeap.TaskQueue)
      requires 1 <= tickMs <= 500 && taskQueue.Valid()
      ensures Valid() && this.taskQueue == taskQueue
      ensures |slots| * tickMs <= 500 < (|slots| + 1) * tickMs
      ensures currentSlot == 0 && forall k :: 0 <= k < |slots| ==> slots[k] == map[]
      ensures Reflects(slots, currentSlot, W.Wheel(seq(W.SlotCount(tickMs), _ => map[]), 0))
    {
      SlotsOf500(tickMs);
      this.taskQueue := taskQueue;
      slots := seq(W.SlotCount(tickMs), _ => map[]);
      currentSlot := 0;
    }

    method AddTask(task: Task, now: Time)
      requires Valid()
      modifies this
      ensures Valid() && currentSlot == old(currentSlot)
      ensures slots == Placed(old(slots), currentSlot, task, task.nextRun, now)
      ensures var delay := if task.nextRun > now then task.nextRun - now else 0;
              var k := (currentSlot + delay / 100_000_000 + 1) % |slots|;
              slots == old(slots)[k := old(slots)[k][task.name := task]]
      ensures forall w, since :: old(Reflects(slots, currentSlot, w)) ==>
        Reflects(slots, currentSlot, W.Add(w, task.name, W.Due(task.nextRun, since), now))
    {
      forall w, since | Reflects(slots, currentSlot, w)
        ensures Reflects(Placed(slots, currentSlot, task, task.nextRun, now), currentSlot,
                         W.Add(w, task.name, W.Due(task.nextRun, since), now))
      {
        AddReflects(slots, currentSlot, w, task, now, since);
      }
      var nextTime := task.nextRun;
      if nextTime < now {
        nextTime := now;
      }
      var spanSlots := (nextTime - now) / W.PLACEMENT;
      var targetSlot := (currentSlot + spanSlots + 1) % |slots|;
      slots := slots[targetSlot := slots[targetSlot][task.name := task]];
    }

    // One task of the sweep: to the queue when its time has passed, back into the wheel otherwise.
    method HandOut(task: Task, r: Reading)
      requires Valid()
      modifies this, taskQueue
      ensures Valid() && currentSlot == old(currentSlot)
      ensures slots == if r.seen > task.nextRun then old(slots)
              else Placed(old(slots), currentSlot, task, task.nextRun, r.added)
      ensures multiset(taskQueue.heap) ==
              multiset(old(taskQueue.heap)) + (if r.seen > task.nextRun then multiset{task} else multiset{})
    {
      if r.seen > task.nextRun {
        taskQueue.Push(task);
      } else {
        AddTask(task, r.added);
      }
    }

    // The sweep of the current slot: it takes the tasks in any order and reads the clock for each of them.
    method Sweep(at: Clock)
      requires Valid()
      modifies this, taskQueue
      ensures Valid() && currentSlot == old(currentSlot) && |slots| == old(|slots|)
      ensures var swept := old(slots[currentSlot]); var due := old(Dues(swept));
              && (forall k :: 0 <= k < |slots| ==> slots[k] == Swept(old(slots), currentSlot, due, at, k))
              && multiset(taskQueue.heap) == multiset(old(taskQueue.heap)) + multiset(Ripe(swept, due, {}, at))
    {
      var currentTasks := slots[currentSlot];
      ghost var due := Dues(currentTasks);
      slots := slots[currentSlot := map[]];
      ghost var emptied := slots;
      var todo := currentTasks.Keys;
      while todo != {}
        invariant Valid() && currentSlot == old(currentSlot) && todo <= currentTasks.Keys
        invariant Partly(slots, emptied, currentTasks, due, todo, at, currentSlot)
        invariant multiset(taskQueue.heap) ==
                  multiset(old(taskQueue.heap)) + multiset(Ripe(currentTasks, due, todo, at))
        decreases todo
      {
        var name :| name in todo;
        ghost var before := slots;
        assert currentTasks[name].nextRun == due[name];
        HandOut(currentTasks[name], at(name));
        RipeStep(currentTasks, due, todo, at, name);
        PartlyStep(before, emptied, currentTasks, due, todo, at, currentSlot, name);
        todo := todo - {name};
      }
    }

    // One tick of the wheel's ticker.  If no time passes during the sweep it is the tick of the timed wheel.
    method Tick(at: Clock)
      requires Valid()
      modifies this, taskQueue
      ensures Valid() && currentSlot == (old(currentSlot) + 1) % |slots| && |slots| == old(|slots|)
      ensures var swept := old(slots[currentSlot]); var due := old(Dues(swept));
              && (forall k :: 0 <= k < |slots| ==> slots[k] == Swept(old(slots), old(currentSlot), due, at, k))
              && multiset(taskQueue.heap) == multiset(old(taskQueue.heap)) + multiset(Ripe(swept, due, {}, at))
      ensures forall w, now :: old(Reflects(slots, currentSlot, w)) && AllAt(at, now) ==>
        && Reflects(slots, currentSlot, W.Tick(w, now))
        && multiset(taskQueue.heap) ==
           multiset(old(taskQueue.heap)) + multiset(set name | name in W.Fired(w, now) :: old(slots[currentSlot])[name])
    {
      ghost var before, cur := slots, currentSlot;
      hide Reflects, Dues, Swept, Ripe, AllAt, TaskHeap.Ordered;
      Sweep(at);
      SweptIsTick(before, cur, Dues(before[cur]), at, slots, (cur + 1) % |slots|);
      currentSlot := (currentSlot + 1) % |slots|;
    }
  }

  // As many ticks as fit into 500 ms.
  lemma SlotsOf500(tickMs: nat)
    requires 1 <= tickMs <= 500
    ensures W.SlotCount(tickMs) * tickMs <= 500 < (W.SlotCount(tickMs) + 1) * tickMs
  {}

  // Every reading of the sweep is the same.
  ghost predicate AllAt(at: Clock, now: Time) {
    forall name :: at(name) == Reading(now, now)
  }

  function Placed(slots: seq<Slot>, cur: nat, task: Task, due: Time, now: Time): seq<Slot>
    requires cur < |slots|
  {
    var k := W.Target(cur, |slots|, due, now);
    slots[k := slots[k][task.name := task]]
  }

  ghost function Swept(slots: seq<Slot>, cur: nat, due: map<string, Time>, at: Clock, k: nat): Slot
    requires cur < |slots| && k < |slots| && due.Keys == slots[cur].Keys
  {
    (if k == cur then map[] else slots[k]) + Back(slots[cur], due, {}, at, cur, |slots|, k)
  }

  // AddTask refines Add, whatever history the value records for the task.
  lemma AddReflects(slots: seq<Slot>, cur: nat, w: W.Wheel, task: Task, now: Time, since: Time)
    requires cur < |slots| && Reflects(slots, cur, w)
    ensures Reflects(Placed(slots, cur, task, task.nextRun, now), cur,
                     W.Add(w, task.name, W.Due(task.nextRun, since), now))
  {}

  // Tick refines Tick, and what it pushes is what the value fires.
  lemma TickReflects(slots: seq<Slot>, cur: nat, w: W.Wheel, at: Clock, now: Time, slots': seq<Slot>)
    requires cur < |slots| && Reflects(slots, cur, w) && |slots'| == |slots| && AllAt(at, now)
    requires forall k :: 0 <= k < |slots| ==> slots'[k] == Swept(slots, cur, Dues(slots[cur]), at, k)
    ensures Reflects(slots', (cur + 1) % |slots|, W.Tick(w, now))
    ensures Ripe(slots[cur], Dues(slots[cur]), {}, at) == (set name | name in W.Fired(w, now) :: slots[cur][name])
  {
    assert SameSlot(slots[cur], w.slots[cur]);
    forall k | 0 <= k < |slots| ensures SameSlot(slots'[k], W.Tick(w, now).slots[k]) {
      assert SameSlot(slots[k], w.slots[k]);
      assert Back(slots[cur], Dues(slots[cur]), {}, at, cur, |slots|, k).Keys == W.PutBack(w, now, k).Keys;
    }
  }

  lemma SweptIsTick(slots: seq<Slot>, cur: nat, due: map<string, Time>, at: Clock, slots': seq<Slot>, cur': nat)
    requires cur < |slots| && |slots'| == |slots| && cur' == (cur + 1) % |slots| && due == Dues(slots[cur])
    requires forall k :: 0 <= k < |slots| ==> slots'[k] == Swept(slots, cur, due, at, k)
    ensures forall w, now :: Reflects(slots, cur, w) && AllAt(at, now) ==>
      && Reflects(slots', cur', W.Tick(w, now))
      && Ripe(slots[cur], due, {}, at) == (set name | name in W.Fired(w, now) :: slots[cur][name])
  {
    forall w, now | Reflects(slots, cur, w) && AllAt(at, now)
      ensures Reflects(slots', cur', W.Tick(w, now))
      ensures Ripe(slots[cur], due, {}, at) == (set name | name in W.Fired(w, now) :: slots[cur][name])
    {
      TickReflects(slots, cur, w, at, now, slots');
    }
  }
}
