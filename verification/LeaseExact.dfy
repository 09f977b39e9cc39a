/**
 The lease invariant is as weak as it can be: from a state that breaks it some run of lock calls lets two instances
 pass TryLock on their cached times.  So the two steps that may break it break exclusion exactly when they do.
 */
module LeaseExact {
  import opened Wrappers
  import opened Lease

  // The state after a list of steps, if each of them is disciplined in turn.
  ghost function Play(lease: Time, s: State, steps: seq<Step>): Option<State>
    decreases |steps|
  {
    if steps == [] then Some(s)
    else if Disciplined(lease, s, steps[0]) then Play(lease, Apply(lease, s, steps[0]), steps[1..])
    else None
  }

  ghost predicate Exclusive(lease: Time, s: State) {
    forall i, j, t :: Fresh(lease, s, i, t) && Fresh(lease, s, j, t) ==> i == j
  }

  // Whatever steps follow, no two instances pass on their cached times.
  ghost predicate AlwaysExclusive(lease: Time, s: State) {
    forall steps :: Play(lease, s, steps).Some? ==> Exclusive(lease, Play(lease, s, steps).value)
  }

  lemma {:induction false} InvAfterPlay(lease: Time, s: State, steps: seq<Step>)
    requires lease > 0 && LeaseInv(lease, s) && RowsBounded(lease, s) && Play(lease, s, steps).Some?
    ensures LeaseInv(lease, Play(lease, s, steps).value)
    decreases |steps|
  {
    if steps != [] {
      LeaseInvStep(lease, s, steps[0]);
      InvAfterPlay(lease, Apply(lease, s, steps[0]), steps[1..]);
    }
  }

  lemma InvIsAlwaysExclusive(lease: Time, s: State)
    requires lease > 0 && LeaseInv(lease, s) && RowsBounded(lease, s)
    ensures AlwaysExclusive(lease, s)
  {
    forall steps | Play(lease, s, steps).Some? ensures Exclusive(lease, Play(lease, s, steps).value) {
      InvAfterPlay(lease, s, steps);
      var s' := Play(lease, s, steps).value;
      forall i, j, t | Fresh(lease, s', i, t) && Fresh(lease, s', j, t) ensures i == j {
        AtMostOneFresh(lease, s', i, j, t);
      }
    }
  }

  lemma PlayedMore(lease: Time, s: State, step: Step)
    requires Disciplined(lease, s, step) && AlwaysExclusive(lease, s)
    ensures AlwaysExclusive(lease, Apply(lease, s, step))
  {
    forall steps | Play(lease, Apply(lease, s, step), steps).Some?
      ensures Exclusive(lease, Play(lease, Apply(lease, s, step), steps).value)
    {
      assert ([step] + steps)[1..] == steps;
      assert Play(lease, s, [step] + steps) == Play(lease, Apply(lease, s, step), steps);
    }
  }

  lemma PlayedNone(lease: Time, s: State)
    requires AlwaysExclusive(lease, s)
    ensures Exclusive(lease, s)
  {
    assert Play(lease, s, []) == Some(s);
  }

  // While an instance passes, nobody else can take the row.
  lemma TakenGoesWrong(lease: Time, s: State, i: Instance, t: TaskName)
    requires lease > 0 && Fresh(lease, s, i, t) && Takeable(s.now, CellOf(s, i, t).row)
    ensures !AlwaysExclusive(lease, s)
  {
    var j := i + "'";
    assert |j| > |i|;
    if AlwaysExclusive(lease, s) {
      PlayedNone(lease, s);
      assert !Fresh(lease, s, j, t);
      var s' := Apply(lease, s, Try(j, t, NoFault));
      PlayedMore(lease, s, Try(j, t, NoFault));
      PlayedNone(lease, s');
      assert Fresh(lease, s', j, t) && Fresh(lease, s', i, t);
    }
  }

  // A renewal that does not match its row stores the present all the same.
  lemma UnmatchedRenewal(lease: Time, s: State, i: Instance, t: TaskName)
    requires Fresh(lease, s, i, t) && !OwnedLive(i, s.now, CellOf(s, i, t).row)
    ensures Apply(lease, s, Renewal(i, t, NoFault)) == s.(local := s.local[(i, t) := s.now])
  {
    if t in s.db { assert s.db[t := s.db[t]] == s.db; }
  }

  // An instance whose row has another holder passes on, with a renewal in each unit of time, until the row is over.
  lemma {:induction false} OutlivesRow(lease: Time, s: State, i: Instance, t: TaskName)
    requires lease > 1 && i != "" && Fresh(lease, s, i, t) && t in s.db && s.db[t].holder != i
    ensures !AlwaysExclusive(lease, s)
    decreases s.db[t].until - s.now
  {
    if Takeable(s.now, CellOf(s, i, t).row) {
      TakenGoesWrong(lease, s, i, t);
    } else if AlwaysExclusive(lease, s) {
      UnmatchedRenewal(lease, s, i, t);
      PlayedMore(lease, s, Renewal(i, t, NoFault));
      var s1 := Apply(lease, s, Renewal(i, t, NoFault));
      PlayedMore(lease, s1, Advance(1));
      OutlivesRow(lease, Apply(lease, s1, Advance(1)), i, t);
    }
  }

  // Its own row ends before its cached time does: it renews as the row ends, which matches nothing, and passes on.
  lemma RowTooShort(lease: Time, s: State, i: Instance, t: TaskName)
    requires lease > 1 && i != "" && Fresh(lease, s, i, t) && t in s.db
    requires s.db[t].holder == i && s.db[t].until < s.local[(i, t)] + lease
    ensures !AlwaysExclusive(lease, s)
  {
    if s.db[t].until < s.now {
      TakenGoesWrong(lease, s, i, t);
    } else if AlwaysExclusive(lease, s) {
      var wait := Advance(s.db[t].until - s.now);
      PlayedMore(lease, s, wait);
      var s1 := Apply(lease, s, wait);
      UnmatchedRenewal(lease, s1, i, t);
      PlayedMore(lease, s1, Renewal(i, t, NoFault));
      var s2 := Apply(lease, s1, Renewal(i, t, NoFault));
      PlayedMore(lease, s2, Advance(1));
      TakenGoesWrong(lease, Apply(lease, s2, Advance(1)), i, t);
    }
  }

  lemma UnbackedGoesWrong(lease: Time, s: State, i: Instance, t: TaskName)
    requires lease > 1 && i != "" && Fresh(lease, s, i, t) && !Backed(lease, s, i, t)
    ensures !AlwaysExclusive(lease, s)
  {
    if t !in s.db {
      if AlwaysExclusive(lease, s) {
        PlayedMore(lease, s, Insert(t));
        TakenGoesWrong(lease, Apply(lease, s, Insert(t)), i, t);
      }
    } else if s.db[t].holder == i {
      RowTooShort(lease, s, i, t);
    } else {
      OutlivesRow(lease, s, i, t);
    }
  }

  // No weaker invariant would do.
  lemma InvIsWeakest(lease: Time, s: State)
    requires lease > 1 && RowsBounded(lease, s)
    requires forall t :: !Fresh(lease, s, "", t)
    ensures AlwaysExclusive(lease, s) <==> LeaseInv(lease, s)
  {
    if LeaseInv(lease, s) {
      InvIsAlwaysExclusive(lease, s);
    } else {
      var i, t :| Fresh(lease, s, i, t) && !Backed(lease, s, i, t);
      UnbackedGoesWrong(lease, s, i, t);
    }
  }

  lemma NobodyNameless(lease: Time, s: State, s': State)
    requires LeaseInv(lease, s) && s'.now == s.now
    requires forall t :: ("", t) in s'.local ==> ("", t) in s.local && s'.local[("", t)] == s.local[("", t)]
    ensures forall t :: !Fresh(lease, s', "", t)
  {
    assert forall t :: Fresh(lease, s', "", t) ==> Fresh(lease, s, "", t);
  }

  // A release whose reply is lost does no harm, then or ever after, exactly when its caller does not pass.
  lemma LostReleaseHarmless(lease: Time, s: State, i: Instance, t: TaskName)
    requires lease > 1 && LeaseInv(lease, s) && RowsBounded(lease, s) && i != ""
    ensures AlwaysExclusive(lease, Apply(lease, s, Release(i, t, ReplyLost))) <==> !Fresh(lease, s, i, t)
  {
    LostReleaseExact(lease, s, i, t);
    var s' := Apply(lease, s, Release(i, t, ReplyLost));
    NobodyNameless(lease, s, s');
    InvIsWeakest(lease, s');
  }

  // Saving columns that were read earlier does no harm, then or ever after, exactly when nobody is uncovered.
  lemma WriteBackHarmless(lease: Time, s: State, t: TaskName, cols: Row)
    requires lease > 1 && LeaseInv(lease, s) && RowsBounded(lease, s) && t in s.db
    requires cols.holder != "" ==> cols.until <= s.now + lease
    ensures AlwaysExclusive(lease, Apply(lease, s, WriteBack(t, cols))) <==> StillBacked(lease, s, t, cols)
  {
    WriteBackExact(lease, s, t, cols);
    var s' := Apply(lease, s, WriteBack(t, cols));
    NobodyNameless(lease, s, s');
    InvIsWeakest(lease, s');
  }
}
