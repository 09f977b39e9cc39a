/**
 The lease protocol with slow statements and skewed clocks.

 Here a call reads its instance's clock, its statement reaches the table later, and the cached time is stored
 later still; other instances, other calls of the same instance and the clock move in between.  Instance clocks
 run ahead of real time by a fixed amount of at most `skew`.

 The dispatcher's TryLock and the ticker's renewal of one task run in different goroutines and may overlap.  A
 release overlaps neither: renewals and releases of one task are taken as serialised, and a task whose lock is
 being released is in a run, so that the dispatcher does not have it.

 `drops` says what a renewal does when its row did not match: forget the cached time, which is what the log
 message beside it announces, or store it again, which is what the source does because a return is missing.
 */
module LeaseLatency {
  import opened Wrappers
  import opened Lease

  type Key = (Instance, TaskName)

  datatype Params = Params(lease: Time, skew: nat, ahead: map<Instance, nat>, drops: bool)

  datatype Kind = Trying | Renewing | Releasing

  // One instance has at most one call of each kind for one task.
  datatype Id = Id(k: Key, kind: Kind)

  datatype Phase = Sent | Answered(matched: bool) | Broken
  datatype Call = Call(read: Time, phase: Phase)

  // `lost` is history: when the row was last taken away from the instance.
  datatype Net = Net(t: Time, db: map<TaskName, Row>, local: map<Key, Time>, calls: map<Id, Call>, lost: map<Key, Time>)

  datatype Move =
    | Pass(d: nat)
    | Start(c: Id)
    | Statement(c: Id)
    | Break(c: Id, applied: bool)  // the caller gets an error; the statement may still have been applied
    | Finish(c: Id)

  ghost predicate ValidParams(p: Params) {
    p.lease > 0 && forall i :: i in p.ahead ==> p.ahead[i] <= p.skew
  }

  function Ahead(p: Params, i: Instance): nat {
    if i in p.ahead then p.ahead[i] else 0
  }

  function Clock(p: Params, s: Net, i: Instance): Time {
    s.t + Ahead(p, i)
  }

  function RowAt(s: Net, t: TaskName): Option<Row> {
    if t in s.db then Some(s.db[t]) else None
  }

  predicate HeldBy(s: Net, k: Key) {
    k.1 in s.db && s.db[k.1].holder == k.0
  }

  predicate EntryLive(p: Params, s: Net, k: Key) {
    k in s.local && Clock(p, s, k.0) - s.local[k] < p.lease
  }

  predicate Apart(s: Net, c: Id) {
    if c.kind == Releasing then Id(c.k, Trying) !in s.calls && Id(c.k, Renewing) !in s.calls
      else Id(c.k, Releasing) !in s.calls
  }

  predicate Enabled(p: Params, s: Net, m: Move) {
    match m
    case Pass(_) => true
    case Start(c) =>
      && c.k.0 != "" && c !in s.calls && Apart(s, c)
      && (c.kind == Trying ==> !EntryLive(p, s, c.k))
      && (c.kind == Renewing ==> EntryLive(p, s, c.k))
    case Statement(c) => c in s.calls && s.calls[c].phase == Sent
    case Break(c, _) => c in s.calls && s.calls[c].phase == Sent
    case Finish(c) => c in s.calls && s.calls[c].phase != Sent
  }

  predicate Matches(s: Net, c: Id, read: Time) {
    if c.kind == Trying then Takeable(read, RowAt(s, c.k.1)) else OwnedLive(c.k.0, read, RowAt(s, c.k.1))
  }

  // The effect of the call's statement on the table.
  function Update(p: Params, s: Net, c: Id, read: Time): Net
    requires Matches(s, c, read)
  {
    var t := c.k.1;
    match c.kind
    case Trying =>
      var prior := s.db[t].holder;
      s.(db := s.db[t := Row(c.k.0, read + p.lease)],
         lost := if prior != c.k.0 && prior != "" then s.lost[(prior, t) := s.t] else s.lost)
    case Renewing => s.(db := s.db[t := Row(c.k.0, read + p.lease)])
    case Releasing => s.(db := s.db[t := Row("", 0)])
  }

  // The statement of the call reaches the table in this move, and a row matches.
  predicate Applies(s: Net, m: Move) {
    && (m.Statement? || (m.Break? && m.applied))
    && m.c in s.calls && Matches(s, m.c, s.calls[m.c].read)
  }

  function Forget(s: Net, k: Key): Net {
    s.(local := s.local - {k})
  }

  function Store(p: Params, s: Net, c: Id, call: Call): Net {
    var kept := s.(local := s.local[c.k := call.read]);
    match c.kind
    case Trying => if call.phase == Broken then s else if call.phase == Answered(true) then kept else Forget(s, c.k)
    case Renewing =>
      if call.phase == Answered(true) || (call.phase == Answered(false) && !p.drops) then kept else Forget(s, c.k)
    case Releasing => if call.phase == Broken then s else Forget(s, c.k)
  }

  function Next(p: Params, s: Net, m: Move): Net
    requires Enabled(p, s, m)
  {
    match m
    case Pass(d) => s.(t := s.t + d)
    case Start(c) => s.(calls := s.calls[c := Call(Clock(p, s, c.k.0), Sent)])
    case Statement(c) => Told(p, s, m, Answered(Matches(s, c, s.calls[c].read)))
    case Break(c, _) => Told(p, s, m, Broken)
    case Finish(c) => Store(p, s, c, s.calls[c]).(calls := s.calls - {c})
  }

  // The statement is over, with or without an effect.
  function Told(p: Params, s: Net, m: Move, phase: Phase): Net
    requires (m.Statement? || m.Break?) && m.c in s.calls
  {
    (if Applies(s, m) then Update(p, s, m.c, s.calls[m.c].read)
     else s).(calls := s.calls[m.c := s.calls[m.c].(phase := phase)])
  }

  // ---------- How long a cached time may be relied on ----------

  function Max(a: Time, b: Time): Time {
    if a < b then b else a
  }

  // The real time at which a cached time stops being live.
  function Expiry(p: Params, k: Key, entry: Time): Time {
    entry + p.lease - Ahead(p, k.0)
  }

  // Until when no other instance can have held the row for as long as the skew.
  function Horizon(p: Params, s: Net, k: Key): Time {
    if HeldBy(s, k) then Max(s.db[k.1].until + 1, s.t + p.skew)
    else if k in s.lost then Max(s.lost[k] + p.skew, s.t)
    else s.t
  }

  predicate Covered(p: Params, s: Net, k: Key, entry: Time) {
    Expiry(p, k, entry) <= Horizon(p, s, k)
  }

  predicate BeingReleased(s: Net, k: Key) {
    Id(k, Releasing) in s.calls
  }

  // TryLock answers from the cached time; it is not called while the same instance is releasing the task.
  predicate CanPass(p: Params, s: Net, k: Key) {
    EntryLive(p, s, k) && !BeingReleased(s, k)
  }

  // Passing on the cached time is honest: the row still names the instance, or it was lost less than `skew` ago.
  predicate Honest(p: Params, s: Net, k: Key) {
    CanPass(p, s, k) ==> HeldBy(s, k) || (k in s.lost && s.t < s.lost[k] + p.skew)
  }

  // ---------- The three moves that can go wrong ----------

  // The branch of the source that stores the cached time of a lost row.
  predicate LostRowFinish(p: Params, s: Net, m: Move) {
    m.Finish? && m.c in s.calls && m.c.kind == Renewing && s.calls[m.c].phase == Answered(false) && !p.drops
  }

  // A take of the same instance that is about to store its time.
  predicate HasTaken(s: Net, k: Key) {
    Id(k, Trying) in s.calls && s.calls[Id(k, Trying)].phase == Answered(true)
  }

  // If the row ended at `until`, it would still cover what the instance relies on or is about to rely on.
  predicate StillCovers(p: Params, s: Net, k: Key, until: Time) {
    && (k in s.local ==> Expiry(p, k, s.local[k]) <= Max(until + 1, s.t + p.skew))
    && (HasTaken(s, k) ==> Expiry(p, k, s.calls[Id(k, Trying)].read) <= Max(until + 1, s.t + p.skew))
  }

  // A release frees the row, but its caller will keep the cached time.
  predicate LostRelease(s: Net, m: Move) {
    m.Break? && m.c.kind == Releasing && Applies(s, m)
  }

  // What the instance relies on is covered even without the row.
  predicate Spent(p: Params, s: Net, k: Key) {
    k in s.local ==> Expiry(p, k, s.local[k]) <= if k in s.lost then Max(s.lost[k] + p.skew, s.t) else s.t
  }

  // The time stored for a lost row is covered, a late renewal does not cut short a row that its own instance
  // has taken again in between, and the reply of a release is lost only if the cached time is spent.
  predicate Allowed(p: Params, s: Net, m: Move) {
    && Enabled(p, s, m)
    && (LostRowFinish(p, s, m) ==> Covered(p, s, m.c.k, s.calls[m.c].read))
    && (Applies(s, m) && m.c.kind == Renewing ==> StillCovers(p, s, m.c.k, s.calls[m.c].read + p.lease))
    && (LostRelease(s, m) ==> Spent(p, s, m.c.k))
  }

  // ---------- The invariant ----------

  predicate CallInv(p: Params, s: Net, c: Id) {
    c in s.calls ==>
      && c.k.0 != ""
      && s.calls[c].read <= Clock(p, s, c.k.0)
      && Apart(s, c)
      && (c.kind != Releasing && s.calls[c].phase == Answered(true) ==> Covered(p, s, c.k, s.calls[c].read))
  }

  predicate EntryInv(p: Params, s: Net, k: Key) {
    k in s.local ==>
      k.0 != "" && (Covered(p, s, k, s.local[k])
                    || (BeingReleased(s, k) && s.calls[Id(k, Releasing)].phase == Answered(true)))
  }

  predicate KeyInv(p: Params, s: Net, k: Key) {
    && EntryInv(p, s, k)
    && CallInv(p, s, Id(k, Trying)) && CallInv(p, s, Id(k, Renewing)) && CallInv(p, s, Id(k, Releasing))
    && (k in s.lost ==> s.lost[k] <= s.t)
  }

  ghost predicate NetInv(p: Params, s: Net) {
    forall k :: KeyInv(p, s, k)
  }

  // The cached time and the calls of a key are as before.
  ghost predicate SameKey(s: Net, s': Net, k: Key) {
    && (k in s'.local <==> k in s.local) && (k in s.local ==> s'.local[k] == s.local[k])
    && SameCall(s, s', Id(k, Trying)) && SameCall(s, s', Id(k, Renewing)) && SameCall(s, s', Id(k, Releasing))
  }

  predicate SameCall(s: Net, s': Net, c: Id) {
    (c in s'.calls <==> c in s.calls) && (c in s.calls ==> s'.calls[c] == s.calls[c])
  }

  lemma OthersSame(p: Params, s: Net, m: Move, k: Key)
    requires Enabled(p, s, m) && (m.Pass? || k != m.c.k)
    ensures SameKey(s, Next(p, s, m), k)
  {}

  // A key that is as before, and whose horizon has not moved back.
  lemma KeyFrame(p: Params, s: Net, s': Net, k: Key)
    requires KeyInv(p, s, k) && SameKey(s, s', k)
    requires s.t <= s'.t && Horizon(p, s, k) <= Horizon(p, s', k) && (k in s'.lost ==> s'.lost[k] <= s'.t)
    ensures KeyInv(p, s', k)
  {
    hide Horizon;
  }

  // Nobody moves the horizon of another key back: who takes a row waits until it has ended on a clock that is at
  // most the skew ahead.
  lemma HorizonOfOthers(p: Params, s: Net, c: Id, read: Time, k: Key)
    requires ValidParams(p) && Matches(s, c, read) && read <= Clock(p, s, c.k.0) && c.k.0 != ""
    requires k != c.k && k.0 != "" && (k in s.lost ==> s.lost[k] <= s.t)
    ensures Horizon(p, s, k) <= Horizon(p, Update(p, s, c, read), k)
  {}

  // A take moves the taker's own horizon on, and covers the time it was read at.
  lemma HorizonOfTaker(p: Params, s: Net, c: Id, read: Time)
    requires ValidParams(p) && Matches(s, c, read) && c.kind == Trying && c.k.0 != ""
    requires read <= Clock(p, s, c.k.0) && (c.k in s.lost ==> s.lost[c.k] <= s.t)
    ensures Horizon(p, s, c.k) <= Horizon(p, Update(p, s, c, read), c.k) && Covered(p, Update(p, s, c, read), c.k, read)
  {}

  lemma CallOf(p: Params, s: Net, c: Id)
    requires KeyInv(p, s, c.k)
    ensures CallInv(p, s, c)
  {
    match c.kind
    case Trying => assert c == Id(c.k, Trying);
    case Renewing => assert c == Id(c.k, Renewing);
    case Releasing => assert c == Id(c.k, Releasing);
  }

  lemma OthersHorizon(p: Params, s: Net, m: Move, k: Key)
    requires ValidParams(p) && Enabled(p, s, m) && k.0 != "" && (k in s.lost ==> s.lost[k] <= s.t)
    requires m.Pass? || (k != m.c.k && CallInv(p, s, m.c))
    ensures var s' := Next(p, s, m);
            s.t <= s'.t && Horizon(p, s, k) <= Horizon(p, s', k) && (k in s'.lost ==> s'.lost[k] <= s'.t)
  {
    if !m.Pass? && Applies(s, m) { HorizonOfOthers(p, s, m.c, s.calls[m.c].read, k); }
  }

  // What a statement with an effect does to the caller's own horizon.
  lemma OwnHorizon(p: Params, s: Net, m: Move)
    requires ValidParams(p) && Allowed(p, s, m) && Applies(s, m) && KeyInv(p, s, m.c.k)
    ensures var k, read, s' := m.c.k, s.calls[m.c].read, Next(p, s, m);
            && (m.c.kind != Releasing ==> Covered(p, s', k, read))
            && (m.c.kind != Releasing && k in s.local ==> Covered(p, s', k, s.local[k]))
            && (m.c.kind == Trying ==> Horizon(p, s, k) <= Horizon(p, s', k))
            && (m.c.kind == Renewing && HasTaken(s, k) ==> Covered(p, s', k, s.calls[Id(k, Trying)].read))
  {
    if m.c.kind == Trying { HorizonOfTaker(p, s, m.c, s.calls[m.c].read); }
  }

  lemma ToldWithEffect(p: Params, s: Net, m: Move)
    requires ValidParams(p) && Allowed(p, s, m) && Applies(s, m) && KeyInv(p, s, m.c.k)
    ensures KeyInv(p, Next(p, s, m), m.c.k)
  {
    OwnHorizon(p, s, m);
    var s', k := Next(p, s, m), m.c.k;
    assert s'.local == s.local && s'.t == s.t && (k in s'.lost ==> s'.lost[k] <= s'.t);
    assert s'.calls == s.calls[m.c := s.calls[m.c].(phase := s'.calls[m.c].phase)];
    hide Next, Horizon, Allowed, Applies;
    assert EntryInv(p, s', k);
    assert CallInv(p, s', Id(k, Trying));
    assert CallInv(p, s', Id(k, Renewing));
    assert CallInv(p, s', Id(k, Releasing));
  }

  lemma ToldWithoutEffect(p: Params, s: Net, m: Move)
    requires Enabled(p, s, m) && (m.Statement? || m.Break?) && !Applies(s, m) && KeyInv(p, s, m.c.k)
    ensures KeyInv(p, Next(p, s, m), m.c.k)
  {
    var s', k := Next(p, s, m), m.c.k;
    assert Horizon(p, s', k) == Horizon(p, s, k)
           && s' == s.(calls := s.calls[m.c := s.calls[m.c].(phase := s'.calls[m.c].phase)]);
    hide Next, Horizon, Enabled;
  }

  lemma StartKeeps(p: Params, s: Net, c: Id)
    requires Enabled(p, s, Start(c)) && KeyInv(p, s, c.k)
    ensures KeyInv(p, Next(p, s, Start(c)), c.k)
  {
    var s' := Next(p, s, Start(c));
    assert Horizon(p, s', c.k) == Horizon(p, s, c.k);
    hide Horizon;
  }

  lemma FinishFrame(p: Params, s: Net, c: Id)
    requires Enabled(p, s, Finish(c))
    ensures var s' := Next(p, s, Finish(c));
            && s' == s.(local := s'.local, calls := s.calls - {c})
            && (s'.local == s.local || s'.local == s.local - {c.k} || s'.local == s.local[c.k := s.calls[c].read])
            && (c.kind == Releasing && s.calls[c].phase != Broken ==> s'.local == s.local - {c.k})
            && (c.kind == Releasing && s.calls[c].phase == Broken ==> s'.local == s.local)
            && (s'.local == s.local[c.k := s.calls[c].read] ==>
                  s'.local == s.local || s.calls[c].phase == Answered(true) || LostRowFinish(p, s, Finish(c)))
  {}

  lemma FinishKeeps(p: Params, s: Net, c: Id)
    requires Allowed(p, s, Finish(c)) && KeyInv(p, s, c.k)
    ensures KeyInv(p, Next(p, s, Finish(c)), c.k)
  {
    FinishFrame(p, s, c);
    CallOf(p, s, c);
    var s', k := Next(p, s, Finish(c)), c.k;
    assert Horizon(p, s', k) == Horizon(p, s, k);
    hide Horizon, Next;
    assert EntryInv(p, s', k);
  }

  // Every allowed step keeps the invariant.
  lemma NetInvStep(p: Params, s: Net, m: Move)
    requires ValidParams(p) && NetInv(p, s) && Allowed(p, s, m)
    ensures NetInv(p, Next(p, s, m))
  {
    forall k
      ensures KeyInv(p, Next(p, s, m), k)
    {
      assert KeyInv(p, s, k);
      if m.Pass? || k != m.c.k {
        if !m.Pass? { assert KeyInv(p, s, m.c.k); }
        hide KeyInv, Allowed, Next;
        StepOfOthers(p, s, m, k);
      } else {
        hide KeyInv, Allowed, Next, NetInv;
        OwnStep(p, s, m);
      }
    }
  }

  lemma StepOfOthers(p: Params, s: Net, m: Move, k: Key)
    requires ValidParams(p) && KeyInv(p, s, k) && Allowed(p, s, m)
    requires m.Pass? || (k != m.c.k && KeyInv(p, s, m.c.k))
    ensures KeyInv(p, Next(p, s, m), k)
  {
    OthersSame(p, s, m, k);
    if !m.Pass? && m.c in s.calls { CallOf(p, s, m.c); }
    if k.0 == "" {
      NamelessKey(p, s, Next(p, s, m), k);
    } else if m.Pass? || m.c in s.calls {
      assert k in s.lost ==> s.lost[k] <= s.t;
      hide KeyInv, Next, CallInv, Horizon;
      OthersHorizon(p, s, m, k);
      KeyFrame(p, s, Next(p, s, m), k);
    } else {
      assert k in s.lost ==> s.lost[k] <= s.t;
      assert Horizon(p, s, k) == Horizon(p, Next(p, s, m), k);
      hide KeyInv, CallInv, Horizon;
      KeyFrame(p, s, Next(p, s, m), k);
    }
  }

  // No instance has an empty name.
  lemma NamelessKey(p: Params, s: Net, s': Net, k: Key)
    requires k.0 == "" && KeyInv(p, s, k) && SameKey(s, s', k) && (k in s'.lost ==> s'.lost[k] <= s'.t)
    ensures KeyInv(p, s', k)
  {}

  lemma OwnStep(p: Params, s: Net, m: Move)
    requires ValidParams(p) && !m.Pass? && Allowed(p, s, m) && KeyInv(p, s, m.c.k)
    ensures KeyInv(p, Next(p, s, m), m.c.k)
  {
    hide KeyInv, Next;
    match m
    case Start(c) => StartKeeps(p, s, c);
    case Finish(c) => FinishKeeps(p, s, c);
    case _ => if Applies(s, m) { ToldWithEffect(p, s, m); } else { ToldWithoutEffect(p, s, m); }
  }

  lemma InvIsHonest(p: Params, s: Net, k: Key)
    requires ValidParams(p) && NetInv(p, s)
    ensures Honest(p, s, k)
  {
    assert KeyInv(p, s, k);
  }

  // Without skew: at most one instance passes on its cached time, and no other take can match meanwhile.
  lemma NoSkewExclusion(p: Params, s: Net, k: Key, j: Instance)
    requires ValidParams(p) && p.skew == 0 && NetInv(p, s)
    requires CanPass(p, s, k) && j != k.0
    ensures HeldBy(s, k) && !CanPass(p, s, (j, k.1))
    ensures var c := Id((j, k.1), Trying); c in s.calls ==> !Matches(s, c, s.calls[c].read)
  {
    assert KeyInv(p, s, k) && KeyInv(p, s, (j, k.1));
    assert Ahead(p, k.0) == 0 && Ahead(p, j) == 0;
  }

  // ---------- Whole runs ----------

  ghost predicate Initial(s: Net) {
    s.local == map[] && s.calls == map[] && s.lost == map[]
  }

  ghost predicate NetRun(p: Params, ss: seq<Net>, ms: seq<Move>) {
    && ValidParams(p) && |ss| == |ms| + 1 && Initial(ss[0])
    && forall n :: 0 <= n < |ms| ==> Allowed(p, ss[n], ms[n]) && ss[n + 1] == Next(p, ss[n], ms[n])
  }

  lemma {:induction false} NetInvAlways(p: Params, ss: seq<Net>, ms: seq<Move>, n: nat)
    requires NetRun(p, ss, ms) && n < |ss|
    ensures NetInv(p, ss[n])
  {
    if n > 0 {
      NetInvAlways(p, ss, ms, n - 1);
      NetInvStep(p, ss[n - 1], ms[n - 1]);
    }
  }

  // The step at which another instance's statement takes the row from k's instance.
  ghost predicate TakesFrom(p: Params, s: Net, m: Move, k: Key) {
    && (m.Statement? || m.Break?) && Enabled(p, s, m)
    && k.0 != "" && HeldBy(s, k) && m.c.k.0 != k.0 && m.c.k.1 == k.1
    && HeldBy(Next(p, s, m), m.c.k)
  }

  lemma LossNoted(p: Params, s: Net, m: Move, k: Key)
    requires TakesFrom(p, s, m, k)
    ensures var s' := Next(p, s, m); k in s'.lost && s'.lost[k] == s.t
  {}

  lemma LossStays(p: Params, s: Net, m: Move, k: Key)
    requires Enabled(p, s, m) && k in s.lost && !HeldBy(s, k)
    ensures var s' := Next(p, s, m); k in s'.lost && s'.lost[k] == s.lost[k]
  {}

  lemma {:induction false} LossIsRemembered(p: Params, ss: seq<Net>, ms: seq<Move>, a: nat, b: nat, k: Key)
    requires NetRun(p, ss, ms) && a < b < |ss|
    requires TakesFrom(p, ss[a], ms[a], k)
    requires forall n :: a < n < b ==> !HeldBy(ss[n], k)
    ensures k in ss[b].lost && ss[b].lost[k] == ss[a].t
    decreases b
  {
    hide Next, Enabled, TakesFrom, HeldBy;
    if a + 1 < b {
      LossIsRemembered(p, ss, ms, a, b - 1, k);
      LossStays(p, ss[b - 1], ms[b - 1], k);
    } else {
      LossNoted(p, ss[a], ms[a], k);
    }
  }

  // After another instance has taken an expired lease, the old holder passes on its cached time for less than
  // `skew` of real time, until it takes the row again.  With no skew it never does.
  lemma SkewBoundsOverlap(p: Params, ss: seq<Net>, ms: seq<Move>, a: nat, b: nat, k: Key)
    requires NetRun(p, ss, ms) && a < b < |ss|
    requires TakesFrom(p, ss[a], ms[a], k)
    requires forall n :: a < n <= b ==> !HeldBy(ss[n], k)
    requires CanPass(p, ss[b], k)
    ensures ss[b].t < ss[a].t + p.skew
  {
    LossIsRemembered(p, ss, ms, a, b, k);
    NetInvAlways(p, ss, ms, b);
    InvIsHonest(p, ss[b], k);
  }

  // ---------- The three conditions are exact ----------

  // The state after a list of moves, if each of them is allowed in turn.
  function AllowedPlay(p: Params, s: Net, ms: seq<Move>): Option<Net>
    decreases |ms|
  {
    if ms == [] then Some(s) else if Allowed(p, s, ms[0]) then AllowedPlay(p, Next(p, s, ms[0]), ms[1..]) else None
  }

  // Whatever allowed moves follow, passing on a cached time stays honest for everybody.
  ghost predicate AlwaysHonest(p: Params, s: Net) {
    forall ms, k :: AllowedPlay(p, s, ms).Some? ==> Honest(p, AllowedPlay(p, s, ms).value, k)
  }

  lemma {:induction false} InvAfterPlay(p: Params, s: Net, ms: seq<Move>)
    requires ValidParams(p) && NetInv(p, s) && AllowedPlay(p, s, ms).Some?
    ensures NetInv(p, AllowedPlay(p, s, ms).value)
    decreases |ms|
  {
    if ms != [] {
      NetInvStep(p, s, ms[0]);
      InvAfterPlay(p, Next(p, s, ms[0]), ms[1..]);
    }
  }

  lemma InvIsAlwaysHonest(p: Params, s: Net)
    requires ValidParams(p) && NetInv(p, s)
    ensures AlwaysHonest(p, s)
  {
    forall ms, k | AllowedPlay(p, s, ms).Some? ensures Honest(p, AllowedPlay(p, s, ms).value, k) {
      InvAfterPlay(p, s, ms);
      InvIsHonest(p, AllowedPlay(p, s, ms).value, k);
    }
  }

  lemma PlayedMore(p: Params, s: Net, m: Move)
    requires Allowed(p, s, m) && AlwaysHonest(p, s)
    ensures AlwaysHonest(p, Next(p, s, m))
  {
    forall ms, k | AllowedPlay(p, Next(p, s, m), ms).Some?
      ensures Honest(p, AllowedPlay(p, Next(p, s, m), ms).value, k) {
      assert ([m] + ms)[1..] == ms;
      assert AllowedPlay(p, s, [m] + ms) == AllowedPlay(p, Next(p, s, m), ms);
    }
  }

  lemma PlayedNone(p: Params, s: Net, k: Key)
    requires AlwaysHonest(p, s)
    ensures Honest(p, s, k)
  {
    assert AllowedPlay(p, s, []) == Some(s);
  }

  // An instance that has done nothing with the task yet, and whose clock is as far ahead as clocks may be.
  predicate FastAndIdle(p: Params, s: Net, j: Key) {
    && j.0 != "" && j !in s.local && Ahead(p, j.0) == p.skew
    && Id(j, Trying) !in s.calls && Id(j, Renewing) !in s.calls && Id(j, Releasing) !in s.calls
  }

  lemma LostGoesWrong(p: Params, s: Net, k: Key)
    requires k in s.local && !BeingReleased(s, k) && !HeldBy(s, k) && !Covered(p, s, k, s.local[k])
    ensures !AlwaysHonest(p, s)
  {
    hide AlwaysHonest;
    if AlwaysHonest(p, s) {
      var wait := Pass(Horizon(p, s, k) - s.t);
      PlayedMore(p, s, wait);
      PlayedNone(p, Next(p, s, wait), k);
      assert false;
    }
  }

  // Another instance takes the row as early as its clock permits.
  lemma TakenAtHorizon(p: Params, s: Net, k: Key, j: Key)
    requires ValidParams(p) && HeldBy(s, k) && k.0 != "" && k != j && j.1 == k.1 && FastAndIdle(p, s, j) && k in s.local
    requires s.t + p.skew == Horizon(p, s, k)
    ensures var c := Id(j, Trying);
            && Allowed(p, s, Start(c)) && Allowed(p, Next(p, s, Start(c)), Statement(c))
            && var s' := Next(p, Next(p, s, Start(c)), Statement(c));
               && s'.t == s.t && !HeldBy(s', k) && k in s'.lost && s'.lost[k] == s.t
               && s'.local == s.local && (BeingReleased(s', k) <==> BeingReleased(s, k))
  {
    assert j.0 != k.0;
  }

  lemma HeldGoesWrong(p: Params, s: Net, k: Key, j: Key)
    requires ValidParams(p) && HeldBy(s, k) && k.0 != "" && k in s.local && !BeingReleased(s, k)
             && !Covered(p, s, k, s.local[k])
    requires FastAndIdle(p, s, j) && j.0 != k.0 && j.1 == k.1
    ensures !AlwaysHonest(p, s)
  {
    var wait := Pass(Horizon(p, s, k) - p.skew - s.t);
    var s1 := Next(p, s, wait);
    assert HeldBy(s1, k) && FastAndIdle(p, s1, j) && Horizon(p, s1, k) == Horizon(p, s, k);
    TakenAtHorizon(p, s1, k, j);
    var c := Id(j, Trying);
    var s3 := Next(p, Next(p, s1, Start(c)), Statement(c));
    var s4 := Next(p, s3, Pass(p.skew));
    assert EntryLive(p, s4, k) && !HeldBy(s4, k) && s4.lost == s3.lost;
    hide AlwaysHonest, Horizon, FastAndIdle;
    if AlwaysHonest(p, s) {
      PlayedMore(p, s, wait);
      PlayedMore(p, s1, Start(c));
      PlayedMore(p, Next(p, s1, Start(c)), Statement(c));
      PlayedMore(p, s3, Pass(p.skew));
      PlayedNone(p, s4, k);
      assert false;
    }
  }

  // A cached time that is not covered leads to a dishonest pass: wait for the horizon, and if the row is still
  // held let the other instance take it as early as its clock permits.
  lemma UncoveredGoesWrong(p: Params, s: Net, k: Key, j: Key)
    requires ValidParams(p) && k in s.local && !BeingReleased(s, k) && !Covered(p, s, k, s.local[k]) && k.0 != ""
    requires FastAndIdle(p, s, j) && j.0 != k.0 && j.1 == k.1
    ensures !AlwaysHonest(p, s)
  {
    if HeldBy(s, k) { HeldGoesWrong(p, s, k, j); } else { LostGoesWrong(p, s, k); }
  }

  // The branch for a lost row as the source has it: storing the time does no harm, then or ever after, exactly when
  // the reply took at least a lease to arrive, or the instance has taken the row again in between and it covers the
  // time, or the row was lost so late that the time expires within the skew.
  lemma LostRowFinishExact(p: Params, s: Net, k: Key, j: Key)
    requires ValidParams(p) && NetInv(p, s) && LostRowFinish(p, s, Finish(Id(k, Renewing)))
    requires FastAndIdle(p, s, j) && j.0 != k.0 && j.1 == k.1
    ensures
      var read := s.calls[Id(k, Renewing)].read;
      AlwaysHonest(p, Next(p, s, Finish(Id(k, Renewing)))) <==>
      || Clock(p, s, k.0) - read >= p.lease
      || (HeldBy(s, k) && Expiry(p, k, read) <= Max(s.db[k.1].until + 1, s.t + p.skew))
      || (!HeldBy(s, k) && k in s.lost && Expiry(p, k, read) <= s.lost[k] + p.skew)
  {
    var c := Id(k, Renewing);
    var s' := Next(p, s, Finish(c));
    assert KeyInv(p, s, k);
    if Covered(p, s, k, s.calls[c].read) {
      NetInvStep(p, s, Finish(c));
      InvIsAlwaysHonest(p, s');
    } else {
      UncoveredGoesWrong(p, s', k, j);
    }
  }

  // In particular a renewal that does not cut the row short is always allowed.
  lemma ExtensionsAllowed(p: Params, s: Net, k: Key)
    requires ValidParams(p) && NetInv(p, s)
    requires var m := Statement(Id(k, Renewing)); Enabled(p, s, m) && Applies(s, m)
    requires s.db[k.1].until <= s.calls[Id(k, Renewing)].read + p.lease
    ensures Allowed(p, s, Statement(Id(k, Renewing)))
  {
    assert KeyInv(p, s, k);
  }

  // A renewal whose statement matches: it does no harm, then or ever after, exactly when the time the instance relies
  // on, and the one of a take it is about to store, both expire no later than the renewed row or within the skew.
  lemma RenewalStatementExact(p: Params, s: Net, k: Key, j: Key)
    requires ValidParams(p) && NetInv(p, s)
    requires var m := Statement(Id(k, Renewing)); Enabled(p, s, m) && Applies(s, m)
    requires FastAndIdle(p, s, j) && j.0 != k.0 && j.1 == k.1
    ensures
      var until := s.calls[Id(k, Renewing)].read + p.lease;
      AlwaysHonest(p, Next(p, s, Statement(Id(k, Renewing)))) <==>
      && (k in s.local ==> Expiry(p, k, s.local[k]) <= Max(until + 1, s.t + p.skew))
      && (HasTaken(s, k) ==> Expiry(p, k, s.calls[Id(k, Trying)].read) <= Max(until + 1, s.t + p.skew))
  {
    var c := Id(k, Renewing);
    var s' := Next(p, s, Statement(c));
    assert KeyInv(p, s, k);
    if StillCovers(p, s, k, s.calls[c].read + p.lease) {
      NetInvStep(p, s, Statement(c));
      InvIsAlwaysHonest(p, s');
    } else if k in s.local && Expiry(p, k, s.local[k]) > Max(s.calls[c].read + p.lease + 1, s.t + p.skew) {
      UncoveredGoesWrong(p, s', k, j);
    } else if AlwaysHonest(p, s') {
      var take := Id(k, Trying);
      PlayedMore(p, s', Finish(take));
      UncoveredGoesWrong(p, Next(p, s', Finish(take)), k, j);
    }
  }

  // A release that is applied and whose reply is lost: it does no harm, then or ever after, exactly when the cached
  // time that its caller keeps has run out, or runs out within the skew of an earlier loss of the row.
  lemma LostReleaseExact(p: Params, s: Net, k: Key)
    requires ValidParams(p) && NetInv(p, s)
    requires var m := Break(Id(k, Releasing), true); Enabled(p, s, m) && Applies(s, m)
    ensures
      AlwaysHonest(p, Next(p, s, Break(Id(k, Releasing), true))) <==>
      (k in s.local ==>
         var expiry := s.local[k] + p.lease - Ahead(p, k.0);
         expiry <= s.t || (k in s.lost && expiry <= s.lost[k] + p.skew))
  {
    var c := Id(k, Releasing);
    var s' := Next(p, s, Break(c, true));
    if Spent(p, s, k) {
      NetInvStep(p, s, Break(c, true));
      InvIsAlwaysHonest(p, s');
    } else if AlwaysHonest(p, s') {
      assert KeyInv(p, s, k);
      PlayedMore(p, s', Finish(c));
      LostGoesWrong(p, Next(p, s', Finish(c)), k);
    }
  }

  // ---------- The runs that go wrong ----------

  // The state after a list of moves, if each of them is enabled in turn.
  function Play(p: Params, s: Net, ms: seq<Move>): Option<Net>
    decreases |ms|
  {
    if ms == [] then Some(s) else if Enabled(p, s, ms[0]) then Play(p, Next(p, s, ms[0]), ms[1..]) else None
  }

  lemma {:induction false} PlayAppend(p: Params, s: Net, ms: seq<Move>, ms': seq<Move>)
    ensures Play(p, s, ms + ms') == match Play(p, s, ms) { case None => None case Some(s') => Play(p, s', ms') }
    decreases |ms|
  {
    if ms == [] {
      assert ms + ms' == ms';
    } else {
      assert (ms + ms')[1..] == ms[1..] + ms';
      if Enabled(p, s, ms[0]) { PlayAppend(p, Next(p, s, ms[0]), ms[1..], ms'); }
    }
  }

  lemma PlayTwo(p: Params, s: Net, a: Move, b: Move)
    requires Enabled(p, s, a) && Enabled(p, Next(p, s, a), b)
    ensures Play(p, s, [a, b]) == Some(Next(p, Next(p, s, a), b))
  {
    hide Enabled, Next;
    var s1 := Next(p, s, a);
    assert [a, b][1..] == [b] && Play(p, s1, [b]) == Play(p, Next(p, s1, b), []);
  }

  lemma PlayThree(p: Params, s: Net, a: Move, b: Move, c: Move)
    requires Enabled(p, s, a) && Enabled(p, Next(p, s, a), b) && Enabled(p, Next(p, Next(p, s, a), b), c)
    ensures Play(p, s, [a, b, c]) == Some(Next(p, Next(p, Next(p, s, a), b), c))
  {
    hide Enabled, Next;
    assert [a, b, c][1..] == [b, c];
    PlayTwo(p, Next(p, s, a), b, c);
  }

  function Take(k: Key): seq<Move> {
    [Start(Id(k, Trying)), Statement(Id(k, Trying)), Finish(Id(k, Trying))]
  }

  // An uninterrupted take of a free or expired row.
  lemma Taken(p: Params, s: Net, k: Key)
    requires Enabled(p, s, Start(Id(k, Trying))) && Takeable(Clock(p, s, k.0), RowAt(s, k.1))
    ensures
      var prior, now := s.db[k.1].holder, Clock(p, s, k.0);
      Play(p, s, Take(k)) ==
        Some(s.(db := s.db[k.1 := Row(k.0, now + p.lease)], local := s.local[k := now],
                lost := if prior != k.0 && prior != "" then s.lost[(prior, k.1) := s.t] else s.lost))
  {
    var c := Id(k, Trying);
    PlayThree(p, s, Start(c), Statement(c), Finish(c));
    var s2 := Next(p, Next(p, s, Start(c)), Statement(c));
    assert s2.calls - {c} == s.calls;
    hide Play;
  }

  // A renewal is sent one unit before the end of the lease, and has not arrived one unit after it.
  lemma WaitAndRenew(p: Params, s: Net, k: Key)
    requires k.0 != "" && s.calls == map[] && k in s.local && s.local[k] == s.t && p.lease > 0 && p.ahead == map[]
    ensures Play(p, s, [Pass(p.lease - 1), Start(Id(k, Renewing)), Pass(2)]) ==
            Some(s.(t := s.t + p.lease + 1, calls := map[Id(k, Renewing) := Call(s.t + p.lease - 1, Sent)]))
  {
    PlayThree(p, s, Pass(p.lease - 1), Start(Id(k, Renewing)), Pass(2));
    hide Play;
  }

  lemma PlayFour(p: Params, s0: Net, a: seq<Move>, s1: Net, b: seq<Move>, s2: Net, c: seq<Move>, s3: Net,
                 d: seq<Move>, s4: Net)
    requires Play(p, s0, a) == Some(s1) && Play(p, s1, b) == Some(s2) && Play(p, s2, c) == Some(s3)
             && Play(p, s3, d) == Some(s4)
    ensures Play(p, s0, a + b + c + d) == Some(s4)
  {
    hide Play, Enabled, Next;
    PlayAppend(p, s0, a + b + c, d);
    PlayAppend(p, s0, a + b, c);
    PlayAppend(p, s0, a, b);
  }

  function Free(t: TaskName): Net {
    Net(0, map[t := Row("", 0)], map[], map[], map[])
  }

  // The instance has held the row for a lease and a unit, and its renewal is still on the way.
  function Late(lease: nat, i: Instance, t: TaskName): Net {
    Net(lease + 1, map[t := Row(i, lease)], map[(i, t) := 0], map[Id((i, t), Renewing) := Call(lease - 1, Sent)], map[])
  }

  function Overdue(k: Key, lease: nat): seq<Move>
    requires lease > 0
  {
    Take(k) + [Pass(lease - 1), Start(Id(k, Renewing)), Pass(2)]
  }

  lemma OverdueIsLate(p: Params, lease: nat, i: Instance, t: TaskName)
    requires p.lease == lease > 0 && p.ahead == map[] && i != ""
    ensures Play(p, Free(t), Overdue((i, t), lease)) == Some(Late(lease, i, t))
  {
    var k := (i, t);
    var held := Net(0, map[t := Row(i, lease)], map[k := 0], map[], map[]);
    assert Play(p, Free(t), Take(k)) == Some(held) by {
      Taken(p, Free(t), k);
      assert Free(t).db[t := Row(i, lease)] == held.db && Free(t).local[k := 0] == held.local;
    }
    WaitAndRenew(p, held, k);
    PlayAppend(p, Free(t), Take(k), [Pass(lease - 1), Start(Id(k, Renewing)), Pass(2)]);
    hide Play;
  }

  // Another instance has taken the row meanwhile.
  function Overtaken(lease: nat, i: Instance, j: Instance, t: TaskName): Net {
    Net(lease + 1, map[t := Row(j, lease + 1 + lease)], map[(i, t) := 0, (j, t) := lease + 1],
        map[Id((i, t), Renewing) := Call(lease - 1, Sent)], map[(i, t) := lease + 1])
  }

  lemma LateIsOvertaken(p: Params, lease: nat, i: Instance, j: Instance, t: TaskName)
    requires p.lease == lease > 0 && p.ahead == map[] && i != "" && j != "" && i != j
    ensures Play(p, Late(lease, i, t), Take((j, t))) == Some(Overtaken(lease, i, j, t))
  {
    var s, s' := Late(lease, i, t), Overtaken(lease, i, j, t);
    Taken(p, s, (j, t));
    assert s.db[t := Row(j, lease + 1 + lease)] == s'.db;
    assert s.local[(j, t) := lease + 1] == s'.local;
    assert s.lost[(i, t) := lease + 1] == s'.lost;
    hide Play;
  }

  // The instance itself has taken the row again meanwhile.
  function Retaken(lease: nat, i: Instance, t: TaskName): Net {
    Net(lease + 1, map[t := Row(i, lease + 1 + lease)], map[(i, t) := lease + 1],
        map[Id((i, t), Renewing) := Call(lease - 1, Sent)], map[])
  }

  lemma LateIsRetaken(p: Params, lease: nat, i: Instance, t: TaskName)
    requires p.lease == lease > 0 && p.ahead == map[] && i != ""
    ensures Play(p, Late(lease, i, t), Take((i, t))) == Some(Retaken(lease, i, t))
  {
    var s, s' := Late(lease, i, t), Retaken(lease, i, t);
    Taken(p, s, (i, t));
    assert s.db[t := Row(i, lease + 1 + lease)] == s'.db;
    assert s.local[(i, t) := lease + 1] == s'.local;
    hide Play;
  }

  function LostRowRun(a: Key, b: Key, lease: nat): seq<Move>
    requires lease > 0
  {
    Overdue(a, lease) + Take(b) + [Statement(Id(a, Renewing)), Finish(Id(a, Renewing))]
  }

  // Its answer comes back empty, and the time it was read at is stored.
  function Restored(lease: nat, i: Instance, j: Instance, t: TaskName): Net {
    Overtaken(lease, i, j, t).(local := Overtaken(lease, i, j, t).local[(i, t) := lease - 1], calls := map[])
  }

  lemma LostRowRunEnds(p: Params, lease: nat, i: Instance, j: Instance, t: TaskName)
    requires p == Params(lease, 0, map[], false) && lease > 0 && i != "" && j != "" && i != j
    ensures Play(p, Free(t), LostRowRun((i, t), (j, t), lease)) == Some(Restored(lease, i, j, t))
  {
    var a := (i, t);
    LostReply(p, Overtaken(lease, i, j, t), a);
    assert Overtaken(lease, i, j, t).calls - {Id(a, Renewing)} == map[];
    OverdueIsLate(p, lease, i, t);
    LateIsOvertaken(p, lease, i, j, t);
    hide Play, Next, Enabled, Late, Overdue, Take, Overtaken;
    PlayAppend(p, Free(t), Overdue(a, lease), Take((j, t)));
    PlayAppend(p, Free(t), Overdue(a, lease) + Take((j, t)), [Statement(Id(a, Renewing)), Finish(Id(a, Renewing))]);
  }

  // As the source has it, with perfect clocks and any lease of at least three units: a renewal whose statement is
  // overtaken by another instance stores the cached time of a lock it has lost, and both instances pass.
  lemma LostRowRenewalBreaksExclusion(lease: nat, i: Instance, j: Instance, t: TaskName)
    requires lease > 2 && i != "" && j != "" && i != j
    ensures
      var p := Params(lease, 0, map[], false);
      var end := Play(p, Free(t), LostRowRun((i, t), (j, t), lease));
      end.Some? && CanPass(p, end.value, (i, t)) && CanPass(p, end.value, (j, t))
  {
    LostRowRunEnds(Params(lease, 0, map[], false), lease, i, j, t);
    hide Play, LostRowRun;
  }

  lemma LostReply(p: Params, s: Net, k: Key)
    requires Id(k, Renewing) in s.calls && s.calls[Id(k, Renewing)].phase == Sent
    requires !Matches(s, Id(k, Renewing), s.calls[Id(k, Renewing)].read) && !p.drops
    ensures Play(p, s, [Statement(Id(k, Renewing)), Finish(Id(k, Renewing))]) ==
            Some(s.(local := s.local[k := s.calls[Id(k, Renewing)].read], calls := s.calls - {Id(k, Renewing)}))
  {
    var c := Id(k, Renewing);
    PlayTwo(p, s, Statement(c), Finish(c));
    assert Next(p, s, Statement(c)).calls - {c} == s.calls - {c};
    hide Play;
  }

  // The old renewal has cut the new lease short, and the shorter one is over.
  function CutShort(lease: nat, i: Instance, t: TaskName): Net {
    Net(lease + lease, map[t := Row(i, lease - 1 + lease)], map[(i, t) := lease + 1],
        map[Id((i, t), Renewing) := Call(lease - 1, Answered(true))], map[])
  }

  lemma RetakenIsCutShort(p: Params, lease: nat, i: Instance, t: TaskName)
    requires p.lease == lease > 0 && p.ahead == map[] && i != ""
    ensures Play(p, Retaken(lease, i, t), [Statement(Id((i, t), Renewing)), Pass(lease - 1)]) ==
            Some(CutShort(lease, i, t))
  {
    var s, s', c := Retaken(lease, i, t), CutShort(lease, i, t), Id((i, t), Renewing);
    PlayTwo(p, s, Statement(c), Pass(lease - 1));
    assert s.db[t := Row(i, lease - 1 + lease)] == s'.db;
    assert s.calls[c := Call(lease - 1, Answered(true))] == s'.calls;
    hide Play;
  }

  function RetakenRun(a: Key, b: Key, lease: nat): seq<Move>
    requires lease > 0
  {
    Overdue(a, lease) + Take(a) + [Statement(Id(a, Renewing)), Pass(lease - 1)] + Take(b)
  }

  // Another instance has taken the shortened row.
  function Shared(lease: nat, i: Instance, j: Instance, t: TaskName): Net {
    Net(lease + lease, map[t := Row(j, lease + lease + lease)], map[(i, t) := lease + 1, (j, t) := lease + lease],
        map[Id((i, t), Renewing) := Call(lease - 1, Answered(true))], map[(i, t) := lease + lease])
  }

  lemma CutShortIsShared(p: Params, lease: nat, i: Instance, j: Instance, t: TaskName)
    requires p.lease == lease > 0 && p.ahead == map[] && i != "" && j != "" && i != j
    ensures Play(p, CutShort(lease, i, t), Take((j, t))) == Some(Shared(lease, i, j, t))
  {
    var s, s' := CutShort(lease, i, t), Shared(lease, i, j, t);
    Taken(p, s, (j, t));
    assert s.db[t := Row(j, lease + lease + lease)] == s'.db;
    assert s.local[(j, t) := lease + lease] == s'.local;
    assert s.lost[(i, t) := lease + lease] == s'.lost;
    hide Play;
  }

  lemma RetakenRunEnds(p: Params, lease: nat, i: Instance, j: Instance, t: TaskName)
    requires p.lease == lease > 0 && p.ahead == map[] && i != "" && j != "" && i != j
    ensures Play(p, Free(t), RetakenRun((i, t), (j, t), lease)) == Some(Shared(lease, i, j, t))
  {
    OverdueIsLate(p, lease, i, t);
    LateIsRetaken(p, lease, i, t);
    RetakenIsCutShort(p, lease, i, t);
    CutShortIsShared(p, lease, i, j, t);
    hide Play, Next, Enabled, Late, Retaken, CutShort, Shared, Overdue, Take, Free;
    PlayFour(p, Free(t), Overdue((i, t), lease), Late(lease, i, t), Take((i, t)), Retaken(lease, i, t),
             [Statement(Id((i, t), Renewing)), Pass(lease - 1)], CutShort(lease, i, t), Take((j, t)),
               Shared(lease, i, j, t));
  }

  // Even with renewals that forget a lost lock, with perfect clocks and any lease: an instance retakes a row while an
  // old renewal of its own is on the way, the renewal cuts the new lease short, and two instances pass.
  lemma RetakenRowRenewalBreaksExclusion(lease: nat, drops: bool, i: Instance, j: Instance, t: TaskName)
    requires lease > 0 && i != "" && j != "" && i != j
    ensures
      var p := Params(lease, 0, map[], drops);
      var end := Play(p, Free(t), RetakenRun((i, t), (j, t), lease));
      end.Some? && CanPass(p, end.value, (i, t)) && CanPass(p, end.value, (j, t))
  {
    RetakenRunEnds(Params(lease, 0, map[], drops), lease, i, j, t);
    hide Play, RetakenRun;
  }
}
