/**
 The lease protocol of pkg/scheduler/lock.go.

 One row of the schedule table per task carries the lease columns; every instance also caches, per task, the
 time at which it last took or renewed the lease.  `TryLock`, `Renew` and `Unlock` below are the three
 operations of the source on one such pair (row, cached time); every SQL update is one atomic guarded write.
 The second half of the module runs any number of instances over any number of rows and proves the lease
 invariant and what follows from it.
 */
module Lease {
  import opened Wrappers

  type Instance = string
  type TaskName = string
  type Time = int

  // The empty holder marks a free row.
  datatype Row = Row(holder: Instance, until: Time)

  // What may go wrong with a statement: it never reached the table, or it was applied but its reply was lost.
  datatype Fault = NoFault | NotApplied | ReplyLost

  // One row of the table, if there is one, and the time one instance has cached for that task, if any.
  datatype Cell = Cell(row: Option<Row>, entry: Option<Time>)

  datatype Reply = Reply(cell: Cell, ok: bool, err: bool)

  // The cached time alone lets TryLock answer without a statement.
  predicate EntryFresh(lease: Time, now: Time, entry: Option<Time>) {
    entry.Some? && now - entry.value < lease
  }

  predicate Takeable(now: Time, row: Option<Row>) {
    row.Some? && (row.value.holder == "" || row.value.until < now)
  }

  predicate OwnedLive(me: Instance, now: Time, row: Option<Row>) {
    row.Some? && row.value.holder == me && row.value.until > now
  }

  function TryLock(lease: Time, me: Instance, now: Time, c: Cell, f: Fault): Reply {
    if EntryFresh(lease, now, c.entry) then Reply(c, true, false)
    else
      var taken := Some(Row(me, now + lease));
      if f == NotApplied then Reply(c, false, true)
      else if f == ReplyLost then Reply(Cell(if Takeable(now, c.row) then taken else c.row, c.entry), false, true)
      else if Takeable(now, c.row) then Reply(Cell(taken, Some(now)), true, false)
      else Reply(Cell(c.row, None), false, false)
  }

  // One round of the renewal loop for one task.  The branch for a row that did not match deletes the cached
  // time and then stores it again, as the source does.
  function Renew(lease: Time, me: Instance, now: Time, c: Cell, f: Fault): Cell {
    if !EntryFresh(lease, now, c.entry) then c
    else
      var row' := if f != NotApplied && OwnedLive(me, now, c.row) then Some(Row(me, now + lease)) else c.row;
      Cell(row', if f == NoFault then Some(now) else None)
  }

  function Unlock(me: Instance, now: Time, c: Cell, f: Fault): Cell {
    var row' := if f != NotApplied && OwnedLive(me, now, c.row) then Some(Row("", 0)) else c.row;
    Cell(row', if f == NoFault then None else c.entry)
  }

  // ---------- Any number of instances and tasks ----------

  datatype State = State(now: Time, db: map<TaskName, Row>, local: map<(Instance, TaskName), Time>)

  datatype Step =
    | Advance(d: nat)
    | Try(i: Instance, t: TaskName, f: Fault)
    | Renewal(i: Instance, t: TaskName, f: Fault)
    | Release(i: Instance, t: TaskName, f: Fault)
    | Insert(t: TaskName)                // RegisterTask creating the row of a task nobody registered yet
    | WriteBack(t: TaskName, cols: Row)  // runTask saving the lease columns it read before the run

  function CellOf(s: State, i: Instance, t: TaskName): Cell {
    Cell(if t in s.db then Some(s.db[t]) else None,
         if (i, t) in s.local then Some(s.local[(i, t)]) else None)
  }

  function Put(s: State, i: Instance, t: TaskName, c: Cell): State {
    s.(db := if c.row.Some? then s.db[t := c.row.value] else s.db,
       local := if c.entry.Some? then s.local[(i, t) := c.entry.value] else s.local - {(i, t)})
  }

  // Zero columns are skipped by the update, so a task that was free when it was read writes nothing here.
  function Written(row: Row, cols: Row): Row {
    if cols.holder == "" then row else cols
  }

  function Apply(lease: Time, s: State, step: Step): State {
    match step
    case Advance(d) => s.(now := s.now + d)
    case Try(i, t, f) => Put(s, i, t, TryLock(lease, i, s.now, CellOf(s, i, t), f).cell)
    case Renewal(i, t, f) => Put(s, i, t, Renew(lease, i, s.now, CellOf(s, i, t), f))
    case Release(i, t, f) => Put(s, i, t, Unlock(i, s.now, CellOf(s, i, t), f))
    case Insert(t) => if t in s.db then s else s.(db := s.db[t := Row("", 0)])
    case WriteBack(t, cols) => if t in s.db then s.(db := s.db[t := Written(s.db[t], cols)]) else s
  }

  // A row saved back with the lease columns read earlier.
  function SavedBack(c: Cell, cols: Row, f: Fault): Cell {
    if c.row.Some? && f != NotApplied then c.(row := Some(Written(c.row.value, cols))) else c
  }

  // Instance names are never empty (an address and a random suffix).
  predicate Named(step: Step) {
    match step
    case Try(i, _, _) => i != ""
    case Renewal(i, _, _) => i != ""
    case Release(i, _, _) => i != ""
    case _ => true
  }

  ghost predicate Fresh(lease: Time, s: State, i: Instance, t: TaskName) {
    EntryFresh(lease, s.now, CellOf(s, i, t).entry)
  }

  // The row names the instance and outlasts its cached time by a whole lease.
  ghost predicate Backed(lease: Time, s: State, i: Instance, t: TaskName)
    requires (i, t) in s.local
  {
    t in s.db && i != "" && s.db[t].holder == i && s.db[t].until >= s.local[(i, t)] + lease
  }

  ghost predicate LeaseInv(lease: Time, s: State) {
    forall i, t :: Fresh(lease, s, i, t) ==> Backed(lease, s, i, t)
  }

  ghost predicate RowsBounded(lease: Time, s: State) {
    forall t :: t in s.db && s.db[t].holder != "" ==> s.db[t].until <= s.now + lease
  }

  // Saving the columns leaves whoever relies on its cached time covered: nothing is written, the row's holder does not
  // rely on one, or the columns still name it and outlast its cached time by a lease.
  ghost predicate StillBacked(lease: Time, s: State, t: TaskName, cols: Row)
    requires t in s.db
  {
    var owner := s.db[t].holder;
    || cols.holder == ""
    || !Fresh(lease, s, owner, t)
    || (cols.holder == owner && cols.until >= s.local[(owner, t)] + lease)
  }

  // No release whose reply is lost while its caller's cached time is fresh, and no saved columns that uncover
  // somebody's: the two conditions shown to be exact below.  Columns read from the table never reach further than a
  // lease from the present.
  ghost predicate Disciplined(lease: Time, s: State, step: Step) {
    && Named(step)
    && (step.Release? && step.f == ReplyLost ==> !Fresh(lease, s, step.i, step.t))
    && (step.WriteBack? && step.t in s.db ==>
          StillBacked(lease, s, step.t, step.cols) && (step.cols.holder != "" ==> step.cols.until <= s.now + lease))
  }

  lemma LeaseInvStep(lease: Time, s: State, step: Step)
    requires lease > 0
    requires LeaseInv(lease, s) && RowsBounded(lease, s) && Disciplined(lease, s, step)
    ensures LeaseInv(lease, Apply(lease, s, step)) && RowsBounded(lease, Apply(lease, s, step))
  {
    RowsBoundedStep(lease, s, step);
    hide Apply, RowsBounded;
    var s' := Apply(lease, s, step);
    forall i, t | Fresh(lease, s', i, t)
      ensures Backed(lease, s', i, t)
    {
      BackedStep(lease, s, step, i, t);
    }
  }

  lemma RowsBoundedStep(lease: Time, s: State, step: Step)
    requires lease > 0 && RowsBounded(lease, s) && Disciplined(lease, s, step)
    ensures RowsBounded(lease, Apply(lease, s, step))
  {
    hide Fresh;
  }

  lemma BackedStep(lease: Time, s: State, step: Step, i: Instance, t: TaskName)
    requires lease > 0 && LeaseInv(lease, s) && Disciplined(lease, s, step)
    requires Fresh(lease, Apply(lease, s, step), i, t)
    ensures Backed(lease, Apply(lease, s, step), i, t)
  {
    assert (i, t) in s.local ==> (Fresh(lease, s, i, t) ==> Backed(lease, s, i, t));
  }

  // A release whose reply is lost keeps the invariant exactly when the caller's cached time has run out.
  lemma LostReleaseExact(lease: Time, s: State, i: Instance, t: TaskName)
    requires LeaseInv(lease, s) && i != ""
    ensures LeaseInv(lease, Apply(lease, s, Release(i, t, ReplyLost))) <==> !Fresh(lease, s, i, t)
  {
    var s' := Apply(lease, s, Release(i, t, ReplyLost));
    if Fresh(lease, s, i, t) {
      assert Backed(lease, s, i, t);
      assert Fresh(lease, s', i, t) && !Backed(lease, s', i, t);
    } else {
      forall i', t' | Fresh(lease, s', i', t')
        ensures Backed(lease, s', i', t')
      {
        assert Fresh(lease, s, i', t') && Backed(lease, s, i', t');
      }
    }
  }

  // Saving lease columns read earlier keeps the invariant exactly when nothing is written to them, the row's
  // holder no longer relies on its cached time, or the saved columns still cover that cached time.
  lemma WriteBackExact(lease: Time, s: State, t: TaskName, cols: Row)
    requires LeaseInv(lease, s) && t in s.db
    ensures LeaseInv(lease, Apply(lease, s, WriteBack(t, cols))) <==> StillBacked(lease, s, t, cols)
  {
    var s', owner := Apply(lease, s, WriteBack(t, cols)), s.db[t].holder;
    if Fresh(lease, s, owner, t) {
      assert Fresh(lease, s', owner, t) && Backed(lease, s, owner, t);
      assert Backed(lease, s', owner, t) <==>
             cols.holder == "" || (cols.holder == owner && cols.until >= s.local[(owner, t)] + lease);
    }
    forall i, t' | Fresh(lease, s', i, t') && !(i == owner && t' == t)
      ensures Backed(lease, s', i, t')
    {
      assert Fresh(lease, s, i, t') && Backed(lease, s, i, t');
    }
  }

  // ---------- What the invariant gives ----------

  lemma AtMostOneFresh(lease: Time, s: State, i: Instance, j: Instance, t: TaskName)
    requires LeaseInv(lease, s)
    requires Fresh(lease, s, i, t) && Fresh(lease, s, j, t)
    ensures i == j
  {
    assert Backed(lease, s, i, t) && Backed(lease, s, j, t);
  }

  // While one instance passes the fast path, every TryLock of another fails and leaves the row alone.
  lemma FreshBlocksOthers(lease: Time, s: State, i: Instance, j: Instance, t: TaskName, f: Fault)
    requires LeaseInv(lease, s) && Fresh(lease, s, i, t) && j != i
    ensures var r := TryLock(lease, j, s.now, CellOf(s, j, t), f); !r.ok && r.cell.row == Some(s.db[t])
  {
    assert Backed(lease, s, i, t);
    if Fresh(lease, s, j, t) { AtMostOneFresh(lease, s, i, j, t); }
  }

  // A successful TryLock makes its caller a holder of the lease, whether it took the row or relied on its cached time.
  lemma TakenIsHeld(lease: Time, s: State, i: Instance, t: TaskName, f: Fault)
    requires lease > 0 && LeaseInv(lease, s) && i != ""
    requires TryLock(lease, i, s.now, CellOf(s, i, t), f).ok
    ensures var s' := Apply(lease, s, Try(i, t, f));
            Fresh(lease, s', i, t) && OwnedLive(i, s'.now, CellOf(s', i, t).row)
  {
    if Fresh(lease, s, i, t) { assert Backed(lease, s, i, t); }
  }

  // A TryLock that takes the row caches the time of the call and holds the row for a whole lease.
  lemma TakeStoresNow(lease: Time, s: State, i: Instance, t: TaskName, f: Fault)
    requires lease > 0 && !Fresh(lease, s, i, t) && TryLock(lease, i, s.now, CellOf(s, i, t), f).ok
    ensures Apply(lease, s, Try(i, t, f)) ==
            s.(db := s.db[t := Row(i, s.now + lease)], local := s.local[(i, t) := s.now])
    ensures f == NoFault && t in s.db && (s.db[t].holder == "" || s.db[t].until < s.now)
  {}

  // What TryLock answers: it reports an error if and only if it needs the table and its statement goes wrong.
  lemma AnswersExactly(lease: Time, me: Instance, now: Time, c: Cell, f: Fault)
    ensures var r := TryLock(lease, me, now, c, f);
            var cached := c.entry.Some? && now < c.entry.value + lease;
            var free := c.row.Some? && (c.row.value.holder == "" || c.row.value.until < now);
            && (r.ok <==> cached || (f == NoFault && free))
            && (r.err <==> !cached && f != NoFault)
            && (cached ==> r.cell == c)
            && (!cached && !r.ok && !r.err ==> r.cell.entry == None)
  {}

  // A renewal whose statement fails drops the cached time, whether the row was extended or not: the holder then cannot
  // take its own lock before the row is over.  An entry that is no longer fresh is not renewed.
  lemma FailedRenewalLocksOut(lease: Time, s: State, i: Instance, t: TaskName, f: Fault)
    requires lease > 0 && LeaseInv(lease, s) && f != NoFault
    ensures var s' := Apply(lease, s, Renewal(i, t, f));
            && (!Fresh(lease, s, i, t) ==> s' == s)
            && (Fresh(lease, s, i, t) ==>
                  && (i, t) !in s'.local && t in s'.db
                  && s'.db[t] == (if f == ReplyLost then Row(i, s.now + lease) else s.db[t])
                  && !TryLock(lease, i, s'.now, CellOf(s', i, t), NoFault).ok)
  {
    if Fresh(lease, s, i, t) {
      assert Backed(lease, s, i, t);
    } else {
      assert t in s.db ==> s.db[t := s.db[t]] == s.db;
      assert (i, t) in s.local ==> s.local[(i, t) := s.local[(i, t)]] == s.local;
      assert (i, t) !in s.local ==> s.local - {(i, t)} == s.local;
    }
  }

  // A release whose statement fails keeps the cached time, so that its caller still passes if it did.
  lemma FailedReleaseKeeps(lease: Time, s: State, i: Instance, t: TaskName, f: Fault)
    requires lease > 0 && f != NoFault
    ensures var s' := Apply(lease, s, Release(i, t, f));
            && s'.local == s.local && (f == NotApplied ==> s'.db == s.db)
            && (Fresh(lease, s, i, t) ==> forall g :: TryLock(lease, i, s'.now, CellOf(s', i, t), g).ok)
  {}

  // A release undoes it: the caller no longer passes, and a TryLock of any instance that reaches the table succeeds.
  // A release by an instance that is not the holder leaves the row alone.
  lemma ReleaseFrees(lease: Time, s: State, i: Instance, t: TaskName)
    requires lease > 0 && LeaseInv(lease, s)
    ensures var s' := Apply(lease, s, Release(i, t, NoFault));
            && !Fresh(lease, s', i, t)
            && (Fresh(lease, s, i, t) ==> forall j :: TryLock(lease, j, s'.now, CellOf(s', j, t), NoFault).ok)
            && (!OwnedLive(i, s.now, CellOf(s, i, t).row) ==> s'.db == s.db)
  {
    if Fresh(lease, s, i, t) { assert Backed(lease, s, i, t); }
  }

  // A run that fails releases its lock and then saves back the columns it read while it held it: the release is
  // undone, and exactly until the lease that was read is over nobody can take the lock.  No cached time is uncovered.
  lemma WriteBackUndoesRelease(lease: Time, s: State, i: Instance, j: Instance, t: TaskName, cols: Row)
    requires lease > 0 && LeaseInv(lease, s) && Fresh(lease, s, i, t) && cols.holder == i
    ensures var s' := Apply(lease, Apply(lease, s, Release(i, t, NoFault)), WriteBack(t, cols));
            && StillBacked(lease, Apply(lease, s, Release(i, t, NoFault)), t, cols)
            && t in s'.db && s'.db[t] == cols
            && (TryLock(lease, j, s'.now, CellOf(s', j, t), NoFault).ok <==> cols.until < s'.now)
  {
    assert Backed(lease, s, i, t);
    assert Fresh(lease, s, "", t) ==> Backed(lease, s, "", t);
    if j != i && Fresh(lease, s, j, t) { AtMostOneFresh(lease, s, i, j, t); }
  }

  // Read, update and local store in one step: a renewal that is attempted always finds its row.
  lemma RenewalFindsRow(lease: Time, s: State, i: Instance, t: TaskName)
    requires LeaseInv(lease, s) && Fresh(lease, s, i, t)
    ensures OwnedLive(i, s.now, CellOf(s, i, t).row)
    ensures Apply(lease, s, Renewal(i, t, NoFault)) ==
            s.(db := s.db[t := Row(i, s.now + lease)], local := s.local[(i, t) := s.now])
  {
    assert Backed(lease, s, i, t);
  }
}
