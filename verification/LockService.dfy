/**
 MySQLLock of pkg/scheduler/lock.go as an object: the cached lock times are a map that the methods load, store
 and delete, and the lease columns live in a table shared with the other instances.  Every method is proved
 against the functions of module Lease.
 */
module LockService {
  import opened Wrappers
  import opened Lease

  // The schedule table.  Each method is one guarded SQL update: atomic, and telling whether a row matched.
  class LeaseTable {
    var rows: map<TaskName, Row>

    constructor ()
      ensures rows == map[]
    {
      rows := map[];
    }

    function Find(t: TaskName): Option<Row>
      reads this
    {
      if t in rows then Some(rows[t]) else None
    }

    // Creating the row of a task, which does nothing if there is one.
    method Insert(t: TaskName)
      modifies this
      ensures rows == if t in old(rows) then old(rows) else old(rows)[t := Row("", 0)]
    {
      if t !in rows {
        rows := rows[t := Row("", 0)];
      }
    }

    // Saving columns read earlier, of which zero values are skipped.
    method Save(t: TaskName, cols: Row, f: Fault)
      modifies this
      ensures rows == if t in old(rows) && f != NotApplied then old(rows)[t := Written(old(rows)[t], cols)]
              else old(rows)
    {
      if t in rows && f != NotApplied {
        rows := rows[t := Written(rows[t], cols)];
      }
    }

    method Take(t: TaskName, me: Instance, now: Time, until: Time, f: Fault) returns (matched: bool, err: bool)
      modifies this
      ensures err == (f != NoFault)
      ensures matched == (f != NotApplied && Takeable(now, old(Find(t))))
      ensures rows == if matched then old(rows)[t := Row(me, until)] else old(rows)
    {
      err := f != NoFault;
      matched := f != NotApplied && Takeable(now, Find(t));
      if matched {
        rows := rows[t := Row(me, until)];
      }
    }

    method Extend(t: TaskName, me: Instance, now: Time, until: Time, f: Fault) returns (matched: bool, err: bool)
      modifies this
      ensures err == (f != NoFault)
      ensures matched == (f != NotApplied && OwnedLive(me, now, old(Find(t))))
      ensures rows == if matched then old(rows)[t := Row(me, until)] else old(rows)
    {
      err := f != NoFault;
      matched := f != NotApplied && OwnedLive(me, now, Find(t));
      if matched {
        rows := rows[t := rows[t].(until := until)];
      }
    }

    method Free(t: TaskName, me: Instance, now: Time, f: Fault) returns (matched: bool, err: bool)
      modifies this
      ensures err == (f != NoFault)
      ensures matched == (f != NotApplied && OwnedLive(me, now, old(Find(t))))
      ensures rows == if matched then old(rows)[t := Row("", 0)] else old(rows)
    {
      err := f != NoFault;
      matched := f != NotApplied && OwnedLive(me, now, Find(t));
      if matched {
        rows := rows[t := Row("", 0)];
      }
    }
  }

  class MySQLLock {
    const table: LeaseTable
    const instanceName: Instance
    const leaseDuration: Time
    var lockMap: map<TaskName, Time>

    constructor (table: LeaseTable, instanceName: Instance, leaseDuration: Time)
      ensures this.table == table && this.instanceName == instanceName && this.leaseDuration == leaseDuration
      ensures lockMap == map[]
    {
      this.table, this.instanceName, this.leaseDuration := table, instanceName, leaseDuration;
      lockMap := map[];
    }

    function CellAt(t: TaskName): Cell
      reads this, table
    {
      Cell(table.Find(t), if t in lockMap then Some(lockMap[t]) else None)
    }

    method TryLock(t: TaskName, now: Time, f: Fault) returns (ok: bool, err: bool)
      modifies this, table
      ensures ok && !(t in old(lockMap) && now < old(lockMap[t]) + leaseDuration) ==>
                lockMap == old(lockMap)[t := now]
                && table.rows == old(table.rows)[t := Row(instanceName, now + leaseDuration)]
      ensures t in old(lockMap) && now < old(lockMap[t]) + leaseDuration ==>
                ok && !err && lockMap == old(lockMap) && table.rows == old(table.rows)
      ensures Reply(CellAt(t), ok, err) == Lease.TryLock(leaseDuration, instanceName, now, old(CellAt(t)), f)
      ensures forall t' :: t' != t ==> CellAt(t') == old(CellAt(t'))
    {
      if t in lockMap && now - lockMap[t] < leaseDuration {
        return true, false;
      }
      var matched, failed := table.Take(t, instanceName, now, now + leaseDuration, f);
      if failed {
        return false, true;
      }
      if !matched {
        lockMap := lockMap - {t};
        return false, false;
      }
      lockMap := lockMap[t := now];
      return true, false;
    }

    method Unlock(t: TaskName, now: Time, f: Fault) returns (err: bool)
      modifies this, table
      ensures CellAt(t) == Lease.Unlock(instanceName, now, old(CellAt(t)), f) && err == (f != NoFault)
      ensures forall t' :: t' != t ==> CellAt(t') == old(CellAt(t'))
    {
      var matched, failed := table.Free(t, instanceName, now, f);
      if failed {
        return true;
      }
      lockMap := lockMap - {t};
      return false;
    }

    // One tick of the renewal ticker: one read of the clock for the whole round, the entries in any order.
    method RenewLocks(now: Time, faults: map<TaskName, Fault>)
      modifies this, table
      ensures forall t :: CellAt(t) == Renew(leaseDuration, instanceName, now, old(CellAt(t)), FaultAt(faults, t))
    {
      var todo := lockMap.Keys;
      while todo != {}
        invariant todo <= old(lockMap.Keys)
        invariant forall t ::
          CellAt(t) == (if t in todo then old(CellAt(t))
                        else Renew(leaseDuration, instanceName, now, old(CellAt(t)), FaultAt(faults, t)))
        decreases todo
      {
        var t :| t in todo;
        assert CellAt(t) == old(CellAt(t));
        if now - lockMap[t] < leaseDuration {
          var matched, failed := table.Extend(t, instanceName, now, now + leaseDuration, FaultAt(faults, t));
          if failed {
            lockMap := lockMap - {t};
          } else {
            if !matched {
              lockMap := lockMap - {t};
            }
            lockMap := lockMap[t := now];
          }
        }
        todo := todo - {t};
      }
    }

    // Saving a row back, which runTask does with the columns it read.
    method SaveRow(t: TaskName, cols: Row, f: Fault)
      modifies table
      ensures CellAt(t) == SavedBack(old(CellAt(t)), cols, f)
      ensures forall t' :: t' != t ==> CellAt(t') == old(CellAt(t'))
    {
      table.Save(t, cols, f);
    }

    // The loop of ReleaseAll; stopping the ticker is not part of the state.
    method ReleaseAll(now: Time, faults: map<TaskName, Fault>)
      modifies this, table
      ensures forall t ::
        CellAt(t) == (if t in old(lockMap) then Lease.Unlock(instanceName, now, old(CellAt(t)), FaultAt(faults, t))
                      else old(CellAt(t)))
    {
      var todo := lockMap.Keys;
      while todo != {}
        invariant todo <= old(lockMap.Keys)
        invariant forall t ::
          CellAt(t) == (if t in old(lockMap) && t !in todo then
                          Lease.Unlock(instanceName, now, old(CellAt(t)), FaultAt(faults, t)) else old(CellAt(t)))
        decreases todo
      {
        var t :| t in todo;
        var _ := Unlock(t, now, FaultAt(faults, t));
        todo := todo - {t};
      }
    }
  }

  function FaultAt(faults: map<TaskName, Fault>, t: TaskName): Fault {
    if t in faults then faults[t] else NoFault
  }
}
