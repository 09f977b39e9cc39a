/**
 The hashed time wheel of pkg/scheduler/timewheel.go as a value, and how early and how late it can be.

 The unit a task is placed by, 100 ms, is not the length of a tick, and the slot number wraps around; still a
 task is handed over exactly once, never before it is due and not long after.
 */
module WheelTiming {
  type Name = string
  type Time = int  // nanoseconds

  const MILLISECOND: int := 1_000_000
  const PLACEMENT: int := 100 * MILLISECOND

  // When a task is due and, as history, the later of that time and the moment it was added.
  datatype Due = Due(at: Time, since: Time)

  datatype Wheel = Wheel(slots: seq<map<Name, Due>>, cur: nat)

  function SlotCount(tickMs: nat): (n: nat)
    requires 1 <= tickMs <= 500
    ensures n >= 1 && (tickMs <= 100 ==> n >= 5)
  {
    500 / tickMs
  }

  predicate Valid(w: Wheel) {
    w.cur < |w.slots|
  }

  function Later(a: Time, b: Time): Time {
    if a < b then b else a
  }

  function Span(at: Time, now: Time): nat {
    (Later(at, now) - now) / PLACEMENT
  }

  function Target(cur: nat, n: nat, at: Time, now: Time): (k: nat)
    requires n > 0
    ensures k < n
  {
    (cur + Span(at, now) + 1) % n
  }

  function Add(w: Wheel, name: Name, d: Due, now: Time): (r: Wheel)
    requires Valid(w)
    ensures Valid(r) && |r.slots| == |w.slots| && r.cur == w.cur
  {
    var k := Target(w.cur, |w.slots|, d.at, now);
    w.(slots := w.slots[k := w.slots[k][name := d]])
  }

  predicate Ripe(d: Due, now: Time) {
    now > d.at
  }

  function Fired(w: Wheel, now: Time): set<Name>
    requires Valid(w)
  {
    set name | name in w.slots[w.cur] && Ripe(w.slots[w.cur][name], now)
  }

  // What the sweep of the current slot puts back into slot k.
  function PutBack(w: Wheel, now: Time, k: nat): map<Name, Due>
    requires Valid(w)
  {
    map name | name in w.slots[w.cur] && !Ripe(w.slots[w.cur][name], now)
               && Target(w.cur, |w.slots|, w.slots[w.cur][name].at, now) == k :: w.slots[w.cur][name]
  }

  function Tick(w: Wheel, now: Time): (r: Wheel)
    requires Valid(w)
    ensures Valid(r) && |r.slots| == |w.slots|
  {
    Wheel(seq(|w.slots|, k requires 0 <= k < |w.slots| =>
              (if k == w.cur then map[] else w.slots[k]) + PutBack(w, now, k)),
          (w.cur + 1) % |w.slots|)
  }

  ghost predicate InSlot(w: Wheel, k: int, name: Name) {
    0 <= k < |w.slots| && name in w.slots[k]
  }

  ghost predicate OneSlotEach(w: Wheel) {
    forall k, l, name :: InSlot(w, k, name) && InSlot(w, l, name) ==> k == l
  }

  ghost predicate InWheel(w: Wheel, name: Name) {
    exists k :: InSlot(w, k, name)
  }

  // ---------- Exactly once ----------

  // A tick moves every swept task either to the queue or back into one slot, and leaves the others alone.
  lemma TickConserves(w: Wheel, now: Time, name: Name)
    requires Valid(w) && OneSlotEach(w)
    ensures OneSlotEach(Tick(w, now))
    ensures InWheel(w, name) <==> InWheel(Tick(w, now), name) || name in Fired(w, now)
    ensures !(InWheel(Tick(w, now), name) && name in Fired(w, now))
  {
    var r := Tick(w, now);
    forall k, m | InSlot(r, k, m)
      ensures InWheel(w, m) && m !in Fired(w, now)
      ensures if InSlot(w, w.cur, m) then k == Target(w.cur, |w.slots|, w.slots[w.cur][m].at, now) else InSlot(w, k, m)
    {
      if m in Fired(w, now) { assert InSlot(w, w.cur, m); }
      if k != w.cur && m in w.slots[k] { assert InSlot(w, k, m); }
      else { assert m in PutBack(w, now, k) && InSlot(w, w.cur, m); }
    }
    if InWheel(w, name) && name !in Fired(w, now) {
      var k :| InSlot(w, k, name);
      if k == w.cur {
        var l := Target(w.cur, |w.slots|, w.slots[w.cur][name].at, now);
        assert name in PutBack(w, now, l) && InSlot(r, l, name);
      } else {
        assert InSlot(r, k, name);
      }
    }
    if name in Fired(w, now) { assert InSlot(w, w.cur, name); }
  }

  lemma AddConserves(w: Wheel, name: Name, d: Due, now: Time, other: Name)
    requires Valid(w) && OneSlotEach(w) && !InWheel(w, name)
    ensures OneSlotEach(Add(w, name, d, now))
    ensures InWheel(Add(w, name, d, now), other) <==> InWheel(w, other) || other == name
  {
    var r := Add(w, name, d, now);
    forall k, m | InSlot(r, k, m)
      ensures InSlot(w, k, m) || (m == name && k == Target(w.cur, |w.slots|, d.at, now))
    {}
    assert InSlot(r, Target(w.cur, |w.slots|, d.at, now), name);
    if InWheel(w, other) {
      var k :| InSlot(w, k, other);
      assert InSlot(r, k, other);
    }
  }

  // ---------- Lateness ----------

  function Ahead(w: Wheel, k: nat): (d: nat)
    requires Valid(w)
    requires k < |w.slots|
    ensures d < |w.slots|
  {
    if k >= w.cur then k - w.cur else k + |w.slots| - w.cur
  }

  // How long after its due time (or after it was added, if that is later) a task may be handed over.
  function Slack(tick: Time, n: nat): Time {
    if tick <= PLACEMENT then 2 * tick else n * tick
  }

  // `next` is the time of the next tick: every task's slot is swept no later than its slack allows.
  ghost predicate Timely(w: Wheel, tick: Time, next: Time)
    requires Valid(w)
  {
    forall k, name :: InSlot(w, k, name) ==>
      var d := w.slots[k][name];
      && d.at <= d.since
      && next + Ahead(w, k) * tick <= d.since + Slack(tick, |w.slots|)
      && next + Ahead(w, k) * tick <= d.since + |w.slots| * tick
  }

  // Going s slots on from cur leads to a slot that is at most s ahead.
  lemma ReachedWithin(cur: nat, s: nat, n: nat)
    requires cur < n
    ensures var k := (cur + s) % n; (if k >= cur then k - cur else k + n - cur) <= s
  {
    var k, q := (cur + s) % n, (cur + s) / n;
    assert k == cur + s - n * q;
    if q == 0 {
      assert n * q == 0;
    } else {
      assert n * q == n * (q - 1) + n;
      MulLe(0, q - 1, n);
    }
  }

  lemma MulLe(a: int, b: int, c: int)
    requires a <= b && c >= 0
    ensures a * c <= b * c && c * a <= c * b
  {}

  // A slot a ticks ahead, when the remaining time is worth s placement units and a is bounded by e + s.
  lemma VisitBound(tick: Time, n: nat, a: nat, s: nat, e: nat, now: Time, since: Time)
    requires tick > 0 && a <= s + e && a <= n - 1
    requires s * PLACEMENT <= since - now
    ensures now + tick + a * tick <= since + n * tick
    ensures tick <= PLACEMENT ==> now + tick + a * tick <= since + (1 + e) * tick
  {
    MulLe(a, n - 1, tick);
    assert (n - 1) * tick == n * tick - tick;
    MulLe(a, s + e, tick);
    assert (s + e) * tick == s * tick + e * tick;
    assert (1 + e) * tick == tick + e * tick;
    if tick <= PLACEMENT { MulLe(tick, PLACEMENT, s); }
  }

  // Adding between two ticks: the slot comes around at most two ticks after the due time if a tick is no longer
  // than the placement unit, and at most one turn of the wheel after it in any case.
  lemma AddTimely(w: Wheel, tick: Time, next: Time, name: Name, at: Time, now: Time)
    requires Valid(w) && tick > 0 && Timely(w, tick, next)
    requires now <= next <= now + tick
    ensures Timely(Add(w, name, Due(at, Later(at, now)), now), tick, next)
  {
    var n, s := |w.slots|, Span(at, now);
    var r := Add(w, name, Due(at, Later(at, now)), now);
    var k := Target(w.cur, n, at, now);
    var d := Ahead(r, k);
    assert w.cur + s + 1 == w.cur + (s + 1);
    ReachedWithin(w.cur, s + 1, n);
    VisitBound(tick, n, d, s, 1, now, Later(at, now));
    forall l, m | InSlot(r, l, m) && !(l == k && m == name)
      ensures InSlot(w, l, m) && r.slots[l][m] == w.slots[l][m] && Ahead(r, l) == Ahead(w, l)
    {}
  }

  lemma NextSlot(cur: nat, n: nat)
    requires cur < n
    ensures (cur + 1) % n == if cur + 1 < n then cur + 1 else 0
  {}

  lemma AheadAfterTick(w: Wheel, now: Time, k: nat)
    requires Valid(w) && k < |w.slots|
    ensures k != w.cur ==> Ahead(Tick(w, now), k) == Ahead(w, k) - 1
    ensures Ahead(w, k) == 0 <==> k == w.cur
  {
    NextSlot(w.cur, |w.slots|);
    hide PutBack;
  }

  lemma WrapWithin(s: nat, n: nat)
    requires n > 0
    ensures (n + s) % n <= s
  {
    var q := (n + s) / n;
    assert (n + s) % n == n + s - n * q;
    MulLe(1, q, n);
  }

  // From the slot after cur, the slot s + 1 on from cur is at most s ahead.
  lemma ReachedAfterTick(cur: nat, s: nat, n: nat)
    requires cur < n
    ensures var c, k := (cur + 1) % n, (cur + s + 1) % n;
            (if k >= c then k - c else k + n - c) <= s
  {
    NextSlot(cur, n);
    if cur + 1 < n {
      assert cur + s + 1 == (cur + 1) + s;
      ReachedWithin(cur + 1, s, n);
    } else {
      assert cur + s + 1 == n + s;
      WrapWithin(s, n);
    }
  }

  lemma AheadOfTarget(w: Wheel, now: Time, at: Time)
    requires Valid(w)
    ensures Ahead(Tick(w, now), Target(w.cur, |w.slots|, at, now)) <= Span(at, now)
  {
    hide Span, PutBack;
    ReachedAfterTick(w.cur, Span(at, now), |w.slots|);
  }

  // A task put back by a tick is seen again at most one tick length (or one turn) after it is due.
  lemma PutBackTimely(w: Wheel, tick: Time, next: Time, k: nat, name: Name)
    requires Valid(w) && tick > 0 && Timely(w, tick, next) && k < |w.slots|
    requires name in PutBack(w, next, k)
    ensures var r, d := Tick(w, next), w.slots[w.cur][name];
            && d.at <= d.since
            && next + tick + Ahead(r, k) * tick <= d.since + Slack(tick, |w.slots|)
            && next + tick + Ahead(r, k) * tick <= d.since + |w.slots| * tick
  {
    var d := w.slots[w.cur][name];
    assert InSlot(w, w.cur, name);
    AheadOfTarget(w, next, d.at);
    VisitBound(tick, |w.slots|, Ahead(Tick(w, next), k), Span(d.at, next), 0, next, d.since);
  }

  lemma KeptTimely(w: Wheel, tick: Time, next: Time, k: nat, name: Name)
    requires Valid(w) && Timely(w, tick, next) && InSlot(w, k, name) && k != w.cur
    ensures var d := w.slots[k][name];
            && d.at <= d.since
            && next + tick + Ahead(Tick(w, next), k) * tick <= d.since + Slack(tick, |w.slots|)
            && next + tick + Ahead(Tick(w, next), k) * tick <= d.since + |w.slots| * tick
  {
    AheadAfterTick(w, next, k);
    assert (Ahead(w, k) - 1) * tick == Ahead(w, k) * tick - tick;
    hide Tick, Ahead, Slack;
  }

  lemma FiredTimely(w: Wheel, tick: Time, next: Time, name: Name)
    requires Valid(w) && Timely(w, tick, next) && name in Fired(w, next)
    ensures var d := w.slots[w.cur][name];
            d.at < next <= d.since + Slack(tick, |w.slots|) && next <= d.since + |w.slots| * tick
  {
    assert InSlot(w, w.cur, name);
    AheadAfterTick(w, next, w.cur);
    hide Tick, Ahead, Slack;
  }

  // A tick hands over only tasks that are due, none of them late, and keeps the rest on time.
  lemma TickTimely(w: Wheel, tick: Time, next: Time)
    requires Valid(w) && tick > 0 && Timely(w, tick, next)
    ensures Timely(Tick(w, next), tick, next + tick)
    ensures forall name :: name in Fired(w, next) ==>
      var d := w.slots[w.cur][name];
      d.at < next <= d.since + Slack(tick, |w.slots|) && next <= d.since + |w.slots| * tick
  {
    var r := Tick(w, next);
    forall k, name | InSlot(r, k, name)
      ensures var d := r.slots[k][name];
              && d.at <= d.since
              && next + tick + Ahead(r, k) * tick <= d.since + Slack(tick, |w.slots|)
              && next + tick + Ahead(r, k) * tick <= d.since + |w.slots| * tick
    {
      hide Slack, Ahead, Timely;
      if name in PutBack(w, next, k) {
        PutBackTimely(w, tick, next, k, name);
      } else {
        KeptTimely(w, tick, next, k, name);
      }
    }
    forall name | name in Fired(w, next)
      ensures var d := w.slots[w.cur][name];
              d.at < next <= d.since + Slack(tick, |w.slots|) && next <= d.since + |w.slots| * tick
    {
      FiredTimely(w, tick, next, name);
    }
    hide Slack, Ahead, Tick, Fired;
  }

  // ---------- Whole runs: regular ticks, additions atomic with respect to them ----------

  datatype Act = Added(name: Name, at: Time, now: Time) | Ticked

  ghost predicate WheelRun(tickMs: nat, ws: seq<Wheel>, nexts: seq<Time>, acts: seq<Act>) {
    && 1 <= tickMs <= 500
    && |ws| == |nexts| == |acts| + 1
    && (forall k :: 0 <= k < |ws| ==> Valid(ws[k]) && |ws[k].slots| == SlotCount(tickMs))
    && (forall k :: 0 <= k < |ws[0].slots| ==> ws[0].slots[k] == map[])
    && (forall k :: 0 <= k < |acts| ==> Moves(tickMs * MILLISECOND, ws[k], nexts[k], acts[k], ws[k + 1], nexts[k + 1]))
  }

  ghost predicate Moves(tick: Time, w: Wheel, next: Time, act: Act, w': Wheel, next': Time)
    requires Valid(w)
  {
    match act
    case Added(name, at, now) =>
      && !InWheel(w, name)  // a task is added by whoever took it out
      && now <= next <= now + tick && next' == next
      && w' == Add(w, name, Due(at, Later(at, now)), now)
    case Ticked => w' == Tick(w, next) && next' == next + tick
  }

  lemma {:induction false} RunInv(tickMs: nat, ws: seq<Wheel>, nexts: seq<Time>, acts: seq<Act>, b: nat)
    requires WheelRun(tickMs, ws, nexts, acts) && b < |ws|
    ensures OneSlotEach(ws[b]) && Timely(ws[b], tickMs * MILLISECOND, nexts[b])
  {
    if b > 0 {
      RunInv(tickMs, ws, nexts, acts, b - 1);
      var tick := tickMs * MILLISECOND;
      assert Moves(tick, ws[b - 1], nexts[b - 1], acts[b - 1], ws[b], nexts[b]);
      match acts[b - 1]
      case Added(name, at, now) =>
        AddTimely(ws[b - 1], tick, nexts[b - 1], name, at, now);
        AddConserves(ws[b - 1], name, Due(at, Later(at, now)), now, name);
      case Ticked =>
        TickTimely(ws[b - 1], tick, nexts[b - 1]);
        TickConserves(ws[b - 1], nexts[b - 1], "");
      hide Tick, Add, Timely, OneSlotEach, InWheel, Slack;
    }
  }

  ghost predicate FiresAt(ws: seq<Wheel>, nexts: seq<Time>, acts: seq<Act>, k: int, name: Name)
    requires |ws| == |nexts| == |acts| + 1
  {
    0 <= k < |acts| && acts[k].Ticked? && Valid(ws[k]) && name in Fired(ws[k], nexts[k])
  }

  ghost predicate Carries(w: Wheel, name: Name, d: Due) {
    InWheel(w, name) && forall k :: InSlot(w, k, name) ==> w.slots[k][name] == d
  }

  // From its addition on a task is either still in the wheel, as it was added, or has been handed over once.
  lemma {:induction false} CarriedOrFired(tickMs: nat, ws: seq<Wheel>, nexts: seq<Time>, acts: seq<Act>, a: nat,
                                          b: nat, name: Name, d: Due)
    requires WheelRun(tickMs, ws, nexts, acts) && a < b < |ws|
    requires acts[a].Added? && acts[a].name == name && d == Due(acts[a].at, Later(acts[a].at, acts[a].now))
    requires forall k :: a < k < b && acts[k].Added? ==> acts[k].name != name
    ensures || (Carries(ws[b], name, d) && forall k :: a < k < b ==> !FiresAt(ws, nexts, acts, k, name))
            || (!InWheel(ws[b], name)
                && exists k :: a < k < b && FiredInTime(tickMs, ws, nexts, acts, a, b, k, name, d))
    decreases b
  {
    hide Tick, Add, Timely, OneSlotEach, InWheel, InSlot, Slack, Fired;
    var tick := tickMs * MILLISECOND;
    assert Moves(tick, ws[b - 1], nexts[b - 1], acts[b - 1], ws[b], nexts[b]);
    RunInv(tickMs, ws, nexts, acts, b - 1);
    if b - 1 == a {
      CarriedFirst(tick, ws[a], nexts[a], acts[a], ws[b], nexts[b], d);
    } else {
      CarriedOrFired(tickMs, ws, nexts, acts, a, b - 1, name, d);
      GoneOnlyByFiring(tick, ws[b - 1], nexts[b - 1], acts[b - 1], ws[b], nexts[b], name);
      if Carries(ws[b - 1], name, d) {
        CarriedStep(tick, ws[b - 1], nexts[b - 1], acts[b - 1], ws[b], nexts[b], name, d);
        if FiresAt(ws, nexts, acts, b - 1, name) {
          assert FiredInTime(tickMs, ws, nexts, acts, a, b, b - 1, name, d);
        }
      } else {
        var k :| a < k < b - 1 && FiredInTime(tickMs, ws, nexts, acts, a, b - 1, k, name, d);
        assert FiredInTime(tickMs, ws, nexts, acts, a, b, k, name, d);
      }
    }
  }

  lemma CarriedFirst(tick: Time, w: Wheel, next: Time, act: Act, w': Wheel, next': Time, d: Due)
    requires Valid(w) && OneSlotEach(w) && act.Added? && Moves(tick, w, next, act, w', next')
    requires d == Due(act.at, Later(act.at, act.now))
    ensures Carries(w', act.name, d)
  {
    AddConserves(w, act.name, d, act.now, act.name);
    forall k | InSlot(w', k, act.name) ensures w'.slots[k][act.name] == d {
      assert InSlot(w, k, act.name) <==> act.name in w.slots[k];
    }
  }

  lemma GoneOnlyByFiring(tick: Time, w: Wheel, next: Time, act: Act, w': Wheel, next': Time, name: Name)
    requires Valid(w) && OneSlotEach(w) && Moves(tick, w, next, act, w', next')
    requires act.Added? ==> act.name != name
    ensures InWheel(w, name) <==> InWheel(w', name) || (act.Ticked? && name in Fired(w, next))
    ensures !(InWheel(w', name) && act.Ticked? && name in Fired(w, next))
  {
    match act
    case Added(other, at, now) => AddConserves(w, other, Due(at, Later(at, now)), now, name);
    case Ticked => TickConserves(w, next, name);
  }

  lemma CarriedStep(tick: Time, w: Wheel, next: Time, act: Act, w': Wheel, next': Time, name: Name, d: Due)
    requires Valid(w) && tick > 0 && Timely(w, tick, next) && Carries(w, name, d)
             && Moves(tick, w, next, act, w', next')
    requires act.Added? ==> act.name != name
    ensures forall k :: InSlot(w', k, name) ==> w'.slots[k][name] == d
    ensures act.Ticked? && name in Fired(w, next) ==>
      d.at < next <= d.since + Slack(tick, |w.slots|) && next <= d.since + |w.slots| * tick
  {
    forall k | InSlot(w', k, name) ensures w'.slots[k][name] == d {
      if act.Ticked? && name in PutBack(w, next, k) { assert InSlot(w, w.cur, name); }
      else { assert InSlot(w, k, name); }
    }
    if act.Ticked? {
      TickTimely(w, tick, next);
      assert InSlot(w, w.cur, name) <==> name in w.slots[w.cur];
    }
  }

  // Handed over at tick k and at no other tick of the stretch, after it was due and within its slack.
  ghost predicate FiredInTime(tickMs: nat, ws: seq<Wheel>, nexts: seq<Time>, acts: seq<Act>, a: nat, b: nat, k: int,
                              name: Name, d: Due)
    requires |ws| == |nexts| == |acts| + 1 && 1 <= tickMs <= 500
  {
    && FiresAt(ws, nexts, acts, k, name)
    && (forall l :: a < l < b && FiresAt(ws, nexts, acts, l, name) ==> l == k)
    && d.at < nexts[k]
    && nexts[k] <= d.since + Slack(tickMs * MILLISECOND, SlotCount(tickMs))
    && nexts[k] <= d.since + SlotCount(tickMs) * (tickMs * MILLISECOND)
  }

  // A task added once is handed to the queue exactly once: strictly after it is due, at most two ticks after the
  // later of its due time and its addition if a tick is at most 100 ms, and never more than one turn after it.
  lemma HandedOverOnce(tickMs: nat, ws: seq<Wheel>, nexts: seq<Time>, acts: seq<Act>, a: nat, b: nat, name: Name)
    requires WheelRun(tickMs, ws, nexts, acts) && a < b < |ws|
    requires acts[a].Added? && acts[a].name == name
    requires forall k :: a < k < b && acts[k].Added? ==> acts[k].name != name
    requires nexts[b] > Later(acts[a].at, acts[a].now) + Slack(tickMs * MILLISECOND, SlotCount(tickMs))
    ensures exists k :: a < k < b && FiredInTime(tickMs, ws, nexts, acts, a, b, k, name,
                                                 Due(acts[a].at, Later(acts[a].at, acts[a].now)))
  {
    var d := Due(acts[a].at, Later(acts[a].at, acts[a].now));
    CarriedOrFired(tickMs, ws, nexts, acts, a, b, name, d);
    RunInv(tickMs, ws, nexts, acts, b);
    if Carries(ws[b], name, d) {
      var k :| InSlot(ws[b], k, name);
      MulLe(0, Ahead(ws[b], k), tickMs * MILLISECOND);
    }
  }
}
