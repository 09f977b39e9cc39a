/**
 One scheduler instance (pkg/scheduler/scheduler.go): where its task tokens are, step by step.

 The wheel goroutine, the dispatcher and every run are interleaved at the level of single events.  An addition to
 the wheel may land in any slot, because AddTask computes the slot from a currentSlot that the wheel may be
 advancing at that moment.
 */
module Node {
  import opened Wrappers
  import B = Breaker

  type TaskName = string
  type Time = int

  datatype Config = Config(interval: map<TaskName, int>, priority: map<TaskName, int>, threshold: int, isolate: Time)

  datatype Hand = Nothing | Popped(t: TaskName) | Granted(t: TaskName) | Refused(t: TaskName)

  datatype Phase = Starting | Running | Failed | Unlocking | Ending | Retimed

  // `ended` and `tripped` are history: the clock read that ended a task's latest run, and its latest trip.
  datatype State = State(
    slots: seq<set<TaskName>>, cur: nat, sweeping: bool, swept: set<TaskName>,
    queue: multiset<TaskName>, hand: Hand, runs: map<TaskName, Phase>,
    next: map<TaskName, Time>, circuit: B.Circuit,
    ended: map<TaskName, Time>, tripped: map<TaskName, Time>)

  datatype Event =
    | Register(t: TaskName, due: Time, k: nat)
    | SweepStart | SweepPush(t: TaskName) | SweepPut(t: TaskName, k: nat) | SweepEnd
    | Pop(t: TaskName) | NoLock(t: TaskName, k: nat) | GotLock(t: TaskName)
    | Ask(t: TaskName)                                 // the breaker refuses the task or lets a new run start
    | Isolate(t: TaskName, k: nat)                     // a refused task goes back to the wheel
    | FindFailed(t: TaskName) | Begin(t: TaskName)     // around Run
    | Succeed(t: TaskName) | Fail(t: TaskName) | Panic(t: TaskName)
    | AskUnlock(t: TaskName) | UnlockDone(t: TaskName)
    | Retime(t: TaskName) | PutBack(t: TaskName, k: nat)

  predicate InPhase(s: State, t: TaskName, p: Phase) {
    t in s.runs && s.runs[t] == p
  }

  predicate TopPriority(cfg: Config, s: State, t: TaskName) {
    && t in s.queue && t in cfg.priority
    && forall u :: u in s.queue && u in cfg.priority ==> cfg.priority[u] <= cfg.priority[t]
  }

  predicate Enabled(cfg: Config, s: State, now: Time, e: Event) {
    match e
    case Register(t, _, k) => k < |s.slots| && t !in s.next && t in cfg.interval
    case SweepStart => !s.sweeping && s.cur < |s.slots|
    case SweepPush(t) => s.sweeping && t in s.swept && t in s.next && now > s.next[t]
    case SweepPut(t, k) => s.sweeping && t in s.swept && t in s.next && now <= s.next[t] && k < |s.slots|
    case SweepEnd => s.sweeping && s.swept == {} && |s.slots| > 0
    case Pop(t) => s.hand == Nothing && TopPriority(cfg, s, t)
    case NoLock(t, k) => s.hand == Popped(t) && k < |s.slots| && t in cfg.interval
    case GotLock(t) => s.hand == Popped(t)
    case Ask(t) => s.hand == Granted(t)
    case Isolate(t, k) => s.hand == Refused(t) && k < |s.slots| && t in cfg.interval
    case FindFailed(t) => InPhase(s, t, Starting)
    case Begin(t) => InPhase(s, t, Starting)
    case Succeed(t) => InPhase(s, t, Running)
    case Fail(t) => InPhase(s, t, Running)
    case Panic(t) => InPhase(s, t, Running)
    case AskUnlock(t) => InPhase(s, t, Failed)
    case UnlockDone(t) => InPhase(s, t, Unlocking)
    case Retime(t) => InPhase(s, t, Ending) && t in cfg.interval
    case PutBack(t, k) => InPhase(s, t, Retimed) && k < |s.slots|
  }

  function Into(slots: seq<set<TaskName>>, k: nat, t: TaskName): (r: seq<set<TaskName>>)
    requires k < |slots|
    ensures |r| == |slots|
  {
    slots[k := slots[k] + {t}]
  }

  function Enter(s: State, t: TaskName, p: Phase): State {
    s.(runs := s.runs[t := p])
  }

  // Back to the wheel, due one interval from now.
  function Later(cfg: Config, s: State, now: Time, t: TaskName, k: nat): State
    requires t in cfg.interval && k < |s.slots|
  {
    s.(next := s.next[t := now + cfg.interval[t]], slots := Into(s.slots, k, t))
  }

  function Apply(cfg: Config, s: State, now: Time, e: Event): State
    requires Enabled(cfg, s, now, e)
  {
    match e
    case Register(t, due, k) => s.(next := s.next[t := due], slots := Into(s.slots, k, t))
    case SweepStart => s.(sweeping := true, swept := s.slots[s.cur], slots := s.slots[s.cur := {}])
    case SweepPush(t) => s.(swept := s.swept - {t}, queue := s.queue + multiset{t})
    case SweepPut(t, k) => s.(swept := s.swept - {t}, slots := Into(s.slots, k, t))
    case SweepEnd => s.(sweeping := false, cur := (s.cur + 1) % |s.slots|)
    case Pop(t) => s.(queue := s.queue - multiset{t}, hand := Popped(t))
    case NoLock(t, k) => Later(cfg, s, now, t, k).(hand := Nothing)
    case GotLock(t) => s.(hand := Granted(t))
    case Ask(t) =>
      var s' := s.(circuit := B.Queried(cfg.isolate, s.circuit, t, now));
      if B.Isolated(cfg.isolate, s.circuit, t, now) then s'.(hand := Refused(t))
        else Enter(s', t, Starting).(hand := Nothing)
    case Isolate(t, k) => Later(cfg, s, now, t, k).(hand := Nothing)
    case FindFailed(t) => Enter(s, t, Ending)
    case Begin(t) => Enter(s, t, Running)
    case Succeed(t) => Enter(s, t, Ending).(circuit := B.Reset(s.circuit, t))
    case Fail(t) =>
      var c := B.Failed(cfg.threshold, s.circuit, t, now);
      Enter(s, t, Failed).(circuit := c, tripped := if t in c.trippedAt then s.tripped[t := now] else s.tripped)
    case Panic(t) => Enter(s, t, Ending)
    case AskUnlock(t) =>
      Enter(s, t, if B.Isolated(cfg.isolate, s.circuit, t, now) then Unlocking
            else Ending).(circuit := B.Queried(cfg.isolate, s.circuit, t, now))
    case UnlockDone(t) => Enter(s, t, Ending)
    case Retime(t) => Enter(s, t, Retimed).(next := s.next[t := now + cfg.interval[t]], ended := s.ended[t := now])
    case PutBack(t, k) => s.(runs := s.runs - {t}, slots := Into(s.slots, k, t))
  }

  // ---------- Token conservation ----------

  function SlotTokens(slots: seq<set<TaskName>>, t: TaskName): nat {
    if slots == [] then 0 else (if t in slots[0] then 1 else 0) + SlotTokens(slots[1..], t)
  }

  function One(b: bool): nat {
    if b then 1 else 0
  }

  predicate InHand(s: State, t: TaskName) {
    s.hand == Popped(t) || s.hand == Granted(t) || s.hand == Refused(t)
  }

  // In how many places a task is: wheel slots, the sweep in progress, the heap, the dispatcher's hand, a run.
  function Tokens(s: State, t: TaskName): nat {
    SlotTokens(s.slots, t) + One(t in s.swept) + s.queue[t] + One(InHand(s, t)) + One(t in s.runs)
  }

  ghost predicate TokenInv(s: State) {
    && s.cur < |s.slots| && (!s.sweeping ==> s.swept == {})
    && forall t :: Tokens(s, t) == One(t in s.next)
  }

  lemma {:induction false} SlotsWith(slots: seq<set<TaskName>>, k: nat, x: set<TaskName>, t: TaskName)
    requires k < |slots|
    ensures SlotTokens(slots[k := x], t) == SlotTokens(slots, t) - One(t in slots[k]) + One(t in x)
  {
    if k > 0 {
      assert slots[k := x][1..] == slots[1..][k - 1 := x];
      SlotsWith(slots[1..], k - 1, x, t);
    } else {
      assert slots[k := x][1..] == slots[1..];
    }
  }

  lemma {:induction false} SlotTokensBound(slots: seq<set<TaskName>>, k: nat, t: TaskName)
    requires k < |slots| && t in slots[k]
    ensures SlotTokens(slots, t) >= 1
  {
    if k > 0 { SlotTokensBound(slots[1..], k - 1, t); }
  }

  predicate IsPhaseEvent(e: Event) {
    e.FindFailed? || e.Begin? || e.Succeed? || e.Fail? || e.Panic? || e.AskUnlock? || e.UnlockDone? || e.Retime?
  }

  // Events of a run in progress leave every container but the phases alone.
  lemma PhaseEventFrame(cfg: Config, s: State, now: Time, e: Event)
    requires Enabled(cfg, s, now, e) && IsPhaseEvent(e)
    ensures var s' := Apply(cfg, s, now, e);
            && s' == s.(runs := s'.runs, circuit := s'.circuit, next := s'.next, ended := s'.ended,
                        tripped := s'.tripped)
            && s'.runs.Keys == s.runs.Keys && e.t in s.runs
            && (forall t :: t in s.runs && t != e.t ==> s'.runs[t] == s.runs[t])
            && (!e.Retime? ==> s'.next == s.next && s'.ended == s.ended)
            && s'.next.Keys == s.next.Keys + (if e.Retime? then {e.t} else {})
  {}

  lemma TokensOfPut(s: State, k: nat, t: TaskName, u: TaskName)
    requires k < |s.slots| && (forall l :: 0 <= l < |s.slots| ==> t !in s.slots[l])
    ensures SlotTokens(Into(s.slots, k, t), u) == SlotTokens(s.slots, u) + One(u == t)
  {
    SlotsWith(s.slots, k, s.slots[k] + {t}, u);
  }

  // A task that is somewhere else is in no slot.
  lemma Elsewhere(s: State, t: TaskName)
    requires TokenInv(s) && (t in s.swept || t in s.queue || InHand(s, t) || t in s.runs || t !in s.next)
    ensures forall l :: 0 <= l < |s.slots| ==> t !in s.slots[l]
    ensures One(t in s.swept) + s.queue[t] + One(InHand(s, t)) + One(t in s.runs) == One(t in s.next)
  {
    assert Tokens(s, t) == One(t in s.next);
    forall l | 0 <= l < |s.slots| ensures t !in s.slots[l] {
      if t in s.slots[l] { SlotTokensBound(s.slots, l, t); }
    }
    SlotTokensZero(s.slots, t);
  }

  lemma {:induction false} SlotTokensZero(slots: seq<set<TaskName>>, t: TaskName)
    requires forall l :: 0 <= l < |slots| ==> t !in slots[l]
    ensures SlotTokens(slots, t) == 0
  {
    if slots != [] { SlotTokensZero(slots[1..], t); }
  }

  // Taking the token of t from where it is and putting it into a slot.
  lemma TokensMoved(s: State, s': State, k: nat, t: TaskName, u: TaskName)
    requires TokenInv(s) && k < |s.slots|
             && (t in s.swept || t in s.queue || InHand(s, t) || t in s.runs || t !in s.next)
    requires s'.slots == Into(s.slots, k, t) && s'.next.Keys == s.next.Keys + {t}
    requires forall v :: v != t ==>
               && (v in s'.swept <==> v in s.swept) && s'.queue[v] == s.queue[v]
               && InHand(s', v) == InHand(s, v) && (v in s'.runs <==> v in s.runs)
    requires t !in s'.swept && t !in s'.queue && !InHand(s', t) && t !in s'.runs
    ensures Tokens(s', u) == One(u in s'.next)
  {
    Elsewhere(s, t);
    TokensOfPut(s, k, t, u);
    assert Tokens(s, u) == One(u in s.next) && Tokens(s, t) == One(t in s.next);
  }

  // The events that put a token into a slot.
  predicate PutsInSlot(e: Event) {
    e.Register? || e.SweepPut? || e.NoLock? || e.Isolate? || e.PutBack?
  }

  lemma AskFrame(cfg: Config, s: State, now: Time, t: TaskName)
    requires Enabled(cfg, s, now, Ask(t))
    ensures Apply(cfg, s, now, Ask(t)) ==
            if B.Isolated(cfg.isolate, s.circuit, t, now)
            then s.(hand := Refused(t), circuit := B.Queried(cfg.isolate, s.circuit, t, now))
            else s.(hand := Nothing, runs := s.runs[t := Starting],
                    circuit := B.Queried(cfg.isolate, s.circuit, t, now))
  {
    hide B.Queried, B.Isolated;
  }

  // What such an event does to the containers, and where the token came from.
  ghost predicate PutBy(s: State, s': State, e: Event)
    requires PutsInSlot(e)
  {
    && e.k < |s.slots| && s'.slots == Into(s.slots, e.k, e.t) && s'.queue == s.queue
    && s'.swept == (if e.SweepPut? then s.swept - {e.t} else s.swept)
    && s'.hand == (if e.NoLock? || e.Isolate? then Nothing else s.hand)
    && s'.runs == (if e.PutBack? then s.runs - {e.t} else s.runs)
    && s'.next.Keys == s.next.Keys + {e.t}
    && (if e.Register? then e.t !in s.next
        else if e.SweepPut? then e.t in s.swept
        else if e.PutBack? then e.t in s.runs
        else InHand(s, e.t))
  }

  lemma HeldIsKnown(s: State, t: TaskName)
    requires TokenInv(s) && (t in s.swept || InHand(s, t) || t in s.runs)
    ensures t in s.next
  {
    assert Tokens(s, t) == One(t in s.next);
  }

  lemma OwnerIs(cfg: Config, s: State, now: Time, e: Event)
    requires Enabled(cfg, s, now, e)
    ensures e.SweepPut? ==> e.t in s.swept
    ensures e.PutBack? ==> e.t in s.runs
    ensures e.NoLock? || e.Isolate? ==> InHand(s, e.t)
  {}

  lemma PutFrame(cfg: Config, s: State, now: Time, e: Event)
    requires TokenInv(s) && Enabled(cfg, s, now, e) && PutsInSlot(e)
    ensures PutBy(s, Apply(cfg, s, now, e), e)
  {
    OwnerIs(cfg, s, now, e);
    if !e.Register? { HeldIsKnown(s, e.t); }
    ContainersAfterPut(cfg, s, now, e);
    hide Apply, Enabled, Tokens, PutBy;
  }

  lemma ContainersAfterPut(cfg: Config, s: State, now: Time, e: Event)
    requires Enabled(cfg, s, now, e) && PutsInSlot(e) && (!e.Register? ==> e.t in s.next)
    ensures PutBy(s, Apply(cfg, s, now, e), e)
  {
    hide Into;
  }

  lemma PutMoves(s: State, s': State, e: Event, u: TaskName)
    requires TokenInv(s) && PutsInSlot(e) && PutBy(s, s', e)
    ensures Tokens(s', u) == One(u in s'.next)
  {
    Elsewhere(s, e.t);
    TokensMoved(s, s', e.k, e.t, u);
    hide Tokens, Into;
  }

  lemma TokenStepPut(cfg: Config, s: State, now: Time, e: Event, u: TaskName)
    requires TokenInv(s) && Enabled(cfg, s, now, e) && PutsInSlot(e)
    ensures Tokens(Apply(cfg, s, now, e), u) == One(u in Apply(cfg, s, now, e).next)
  {
    hide Tokens, Apply, Enabled, PutBy;
    PutFrame(cfg, s, now, e);
    PutMoves(s, Apply(cfg, s, now, e), e, u);
  }

  // The events of a run in progress keep its token where it is.
  lemma TokenStepPhase(cfg: Config, s: State, now: Time, e: Event, u: TaskName)
    requires TokenInv(s) && Enabled(cfg, s, now, e) && IsPhaseEvent(e)
    ensures Tokens(Apply(cfg, s, now, e), u) == One(u in Apply(cfg, s, now, e).next)
  {
    PhaseEventFrame(cfg, s, now, e);
    hide Apply, Enabled;
    Elsewhere(s, e.t);
    assert Tokens(s, u) == One(u in s.next);
  }

  // The other events move a token between the sweep, the heap, the dispatcher's hand and a run.
  ghost predicate MovedBy(s: State, s': State, e: Event)
    requires !IsPhaseEvent(e)
  {
    && (e.SweepStart? ==> s.cur < |s.slots| && s.swept == {})
    && (e.SweepPush? ==> e.t in s.swept)
    && (e.Pop? ==> e.t in s.queue && s.hand == Nothing)
    && (e.GotLock? ==> s.hand == Popped(e.t))
    && (e.Ask? ==> s.hand == Granted(e.t) && e.t !in s.runs)
    && s'.slots == (if e.SweepStart? then s.slots[s.cur := {}] else s.slots)
    && s'.swept == (if e.SweepStart? then s.slots[s.cur] else if e.SweepPush? then s.swept - {e.t} else s.swept)
    && s'.queue == (if e.SweepPush? then s.queue + multiset{e.t} else if e.Pop? then s.queue - multiset{e.t}
                    else s.queue)
    && (!e.Ask? ==>
          && s'.hand == (if e.Pop? then Popped(e.t) else if e.GotLock? then Granted(e.t) else s.hand)
          && s'.runs == s.runs)
    && (e.Ask? ==> || (s'.hand == Refused(e.t) && s'.runs == s.runs)
                   || (s'.hand == Nothing && s'.runs.Keys == s.runs.Keys + {e.t}))
    && s'.next == s.next
  }

  lemma MoveFrame(cfg: Config, s: State, now: Time, e: Event)
    requires TokenInv(s) && Enabled(cfg, s, now, e) && !IsPhaseEvent(e) && !PutsInSlot(e)
    ensures MovedBy(s, Apply(cfg, s, now, e), e)
  {
    if e.Ask? { AskMoves(cfg, s, now, e.t); } else { OthersMove(cfg, s, now, e); }
    hide Apply, Enabled, MovedBy;
  }

  lemma AskMoves(cfg: Config, s: State, now: Time, t: TaskName)
    requires TokenInv(s) && Enabled(cfg, s, now, Ask(t))
    ensures MovedBy(s, Apply(cfg, s, now, Ask(t)), Ask(t))
  {
    AskFrame(cfg, s, now, t);
    assert s.hand == Granted(t);
    Elsewhere(s, t);
    hide Apply, Enabled, Tokens, B.Queried, B.Isolated;
  }

  lemma OthersMove(cfg: Config, s: State, now: Time, e: Event)
    requires !s.sweeping ==> s.swept == {}
    requires Enabled(cfg, s, now, e) && !IsPhaseEvent(e) && !PutsInSlot(e) && !e.Ask?
    ensures MovedBy(s, Apply(cfg, s, now, e), e)
  {
    OnlyQueuedPops(cfg, s, now, e);
    hide TopPriority;
  }

  lemma OnlyQueuedPops(cfg: Config, s: State, now: Time, e: Event)
    requires Enabled(cfg, s, now, e)
    ensures e.Pop? ==> e.t in s.queue
  {}

  lemma MoveKeeps(s: State, s': State, e: Event, u: TaskName)
    requires TokenInv(s) && !IsPhaseEvent(e) && MovedBy(s, s', e)
    ensures Tokens(s', u) == One(u in s'.next)
  {
    assert Tokens(s, u) == One(u in s.next);
    if e.SweepStart? { SlotsWith(s.slots, s.cur, {}, u); }
    hide SlotTokens;
  }

  lemma TokenStepMove(cfg: Config, s: State, now: Time, e: Event, u: TaskName)
    requires TokenInv(s) && Enabled(cfg, s, now, e) && !IsPhaseEvent(e) && !PutsInSlot(e)
    ensures Tokens(Apply(cfg, s, now, e), u) == One(u in Apply(cfg, s, now, e).next)
  {
    hide Tokens, Apply, Enabled, MovedBy, PutsInSlot;
    MoveFrame(cfg, s, now, e);
    MoveKeeps(s, Apply(cfg, s, now, e), e, u);
  }

  lemma WheelStaysInRange(cfg: Config, s: State, now: Time, e: Event)
    requires s.cur < |s.slots| && (!s.sweeping ==> s.swept == {}) && Enabled(cfg, s, now, e)
    ensures var s' := Apply(cfg, s, now, e); s'.cur < |s'.slots| && (!s'.sweeping ==> s'.swept == {})
  {
    if IsPhaseEvent(e) {
      PhaseEventFrame(cfg, s, now, e);
      hide Apply, Enabled;
    } else {
      hide B.Queried, B.Isolated, TopPriority;
    }
  }

  // No event, in whatever order and at whatever moment, loses or duplicates a token.
  lemma TokenStep(cfg: Config, s: State, now: Time, e: Event)
    requires TokenInv(s) && Enabled(cfg, s, now, e)
    ensures TokenInv(Apply(cfg, s, now, e))
  {
    hide Apply, Enabled, Tokens;
    WheelStaysInRange(cfg, s, now, e);
    forall u ensures Tokens(Apply(cfg, s, now, e), u) == One(u in Apply(cfg, s, now, e).next) {
      if IsPhaseEvent(e) { TokenStepPhase(cfg, s, now, e, u); }
      else if PutsInSlot(e) { TokenStepPut(cfg, s, now, e, u); }
      else { TokenStepMove(cfg, s, now, e, u); }
    }
  }

  // ---------- What an event does to one task ----------

  // One task as the spacing and the breaker arguments see it.
  datatype View = View(queued: nat, held: bool, phase: Option<Phase>, next: Option<Time>, ended: Option<Time>,
                       tripped: Option<Time>, trippedAt: Option<Time>, fails: int)

  function At<T>(m: map<TaskName, T>, t: TaskName): Option<T> {
    if t in m then Some(m[t]) else None
  }

  function ViewOf(s: State, t: TaskName): View {
    View(s.queue[t], InHand(s, t), At(s.runs, t), At(s.next, t), At(s.ended, t),
         At(s.tripped, t), At(s.circuit.trippedAt, t), B.FailsOf(s.circuit, t))
  }

  predicate TrippedNow(cfg: Config, v: View, now: Time) {
    v.trippedAt.Some? && now - v.trippedAt.value <= cfg.isolate
  }

  function AfterQuery(cfg: Config, v: View, now: Time): View {
    if v.trippedAt.Some? && !TrippedNow(cfg, v, now) then v.(trippedAt := None, fails := 0) else v
  }

  function Own(cfg: Config, v: View, now: Time, e: Event): View
    requires e.NoLock? || e.Isolate? || e.Retime? ==> e.t in cfg.interval
  {
    match e
    case Register(_, due, _) => v.(next := Some(due))
    case SweepPush(_) => v.(queued := v.queued + 1)
    case Pop(_) => v.(queued := if v.queued == 0 then 0 else v.queued - 1, held := true)
    case NoLock(t, _) => v.(held := false, next := Some(now + cfg.interval[t]))
    case Ask(_) =>
      var v' := AfterQuery(cfg, v, now);
      if TrippedNow(cfg, v, now) then v' else v'.(held := false, phase := Some(Starting))
    case Isolate(t, _) => v.(held := false, next := Some(now + cfg.interval[t]))
    case FindFailed(_) => v.(phase := Some(Ending))
    case Begin(_) => v.(phase := Some(Running))
    case Succeed(_) => v.(phase := Some(Ending), trippedAt := None, fails := 0)
    case Fail(_) =>
      var at := if v.fails + 1 >= cfg.threshold then Some(now) else v.trippedAt;
      v.(phase := Some(Failed), fails := v.fails + 1, trippedAt := at, tripped := if at.Some? then Some(now)
         else v.tripped)
    case Panic(_) => v.(phase := Some(Ending))
    case AskUnlock(_) => AfterQuery(cfg, v, now).(phase := Some(if TrippedNow(cfg, v, now) then Unlocking else Ending))
    case UnlockDone(_) => v.(phase := Some(Ending))
    case Retime(t) => v.(phase := Some(Retimed), next := Some(now + cfg.interval[t]), ended := Some(now))
    case PutBack(_, _) => v.(phase := None)
    case _ => v
  }

  predicate Concerns(e: Event, t: TaskName) {
    !e.SweepStart? && !e.SweepEnd? && e.t == t
  }

  predicate MovesToken(e: Event) {
    e.Register? || e.SweepStart? || e.SweepPush? || e.SweepPut? || e.SweepEnd? || e.Pop? || e.NoLock? || e.GotLock?
      || e.Isolate?
  }

  predicate AsksBreaker(e: Event) {
    e.Ask? || e.Succeed? || e.Fail? || e.AskUnlock?
  }

  lemma OwnViewMoved(cfg: Config, s: State, now: Time, e: Event)
    requires Enabled(cfg, s, now, e) && MovesToken(e) && !e.SweepStart? && !e.SweepEnd?
    ensures ViewOf(Apply(cfg, s, now, e), e.t) == Own(cfg, ViewOf(s, e.t), now, e)
  {}

  // The breaker's maps, seen from the task they are asked about and from any other.
  lemma CircuitViews(cfg: Config, c: B.Circuit, now: Time, t: TaskName, u: TaskName)
    ensures var q := B.Queried(cfg.isolate, c, t, now);
            && At(q.trippedAt, u) == (if u == t && B.Expired(cfg.isolate, c, t, now) then None else At(c.trippedAt, u))
            && B.FailsOf(q, u) == (if u == t && B.Expired(cfg.isolate, c, t, now) then 0 else B.FailsOf(c, u))
    ensures var r := B.Reset(c, t);
            && At(r.trippedAt, u) == (if u == t then None else At(c.trippedAt, u))
            && B.FailsOf(r, u) == (if u == t then 0 else B.FailsOf(c, u))
    ensures var f := B.Failed(cfg.threshold, c, t, now);
            && At(f.trippedAt, u) == (if u == t && B.FailsOf(c, t) + 1 >= cfg.threshold then Some(now)
                                      else At(c.trippedAt, u))
            && B.FailsOf(f, u) == B.FailsOf(c, u) + One(u == t)
  {}

  lemma AskViewOf(cfg: Config, s: State, s': State, now: Time, t: TaskName, u: TaskName)
    requires s.hand == Granted(t)
    requires s' == if B.Isolated(cfg.isolate, s.circuit, t, now)
                   then s.(hand := Refused(t), circuit := B.Queried(cfg.isolate, s.circuit, t, now))
                   else s.(hand := Nothing, runs := s.runs[t := Starting],
                           circuit := B.Queried(cfg.isolate, s.circuit, t, now))
    ensures var v := ViewOf(s, u);
            ViewOf(s', u) == if u != t then v
                             else if TrippedNow(cfg, v, now) then AfterQuery(cfg, v, now)
                             else AfterQuery(cfg, v, now).(held := false, phase := Some(Starting))
  {
    CircuitViews(cfg, s.circuit, now, t, u);
    hide B.Queried, B.Reset, B.Failed, B.FailsOf;
  }

  lemma AskView(cfg: Config, s: State, now: Time, t: TaskName, u: TaskName)
    requires Enabled(cfg, s, now, Ask(t))
    ensures ViewOf(Apply(cfg, s, now, Ask(t)), u) == if u == t then Own(cfg, ViewOf(s, u), now, Ask(t))
            else ViewOf(s, u)
  {
    AskFrame(cfg, s, now, t);
    AskViewOf(cfg, s, Apply(cfg, s, now, Ask(t)), now, t, u);
    hide Apply, ViewOf, B.Queried, B.Isolated, TrippedNow, AfterQuery;
  }

  lemma SucceedView(cfg: Config, s: State, now: Time, t: TaskName, u: TaskName)
    requires Enabled(cfg, s, now, Succeed(t))
    ensures ViewOf(Apply(cfg, s, now, Succeed(t)), u) == if u == t then Own(cfg, ViewOf(s, u), now, Succeed(t))
            else ViewOf(s, u)
  {
    CircuitViews(cfg, s.circuit, now, t, u);
    hide B.Queried, B.Reset, B.Failed, B.FailsOf;
  }

  lemma FailView(cfg: Config, s: State, now: Time, t: TaskName, u: TaskName)
    requires Enabled(cfg, s, now, Fail(t))
    ensures ViewOf(Apply(cfg, s, now, Fail(t)), u) == if u == t then Own(cfg, ViewOf(s, u), now, Fail(t))
            else ViewOf(s, u)
  {
    CircuitViews(cfg, s.circuit, now, t, u);
    CircuitViews(cfg, s.circuit, now, t, t);
    hide B.Queried, B.Reset, B.Failed, B.FailsOf;
    var c := B.Failed(cfg.threshold, s.circuit, t, now);
    assert At(c.trippedAt, t).Some? <==> t in c.trippedAt;
  }

  lemma AskUnlockView(cfg: Config, s: State, now: Time, t: TaskName, u: TaskName)
    requires Enabled(cfg, s, now, AskUnlock(t))
    ensures ViewOf(Apply(cfg, s, now, AskUnlock(t)), u) == if u == t then Own(cfg, ViewOf(s, u), now, AskUnlock(t))
            else ViewOf(s, u)
  {
    CircuitViews(cfg, s.circuit, now, t, u);
    hide B.Queried, B.Reset, B.Failed, B.FailsOf;
    assert B.Isolated(cfg.isolate, s.circuit, t, now) == TrippedNow(cfg, ViewOf(s, t), now);
  }

  lemma BreakerView(cfg: Config, s: State, now: Time, e: Event, t: TaskName)
    requires Enabled(cfg, s, now, e) && AsksBreaker(e)
    ensures ViewOf(Apply(cfg, s, now, e), t) == if e.t == t then Own(cfg, ViewOf(s, t), now, e) else ViewOf(s, t)
  {
    hide Apply, ViewOf, Own;
    match e
    case Ask(u) => AskView(cfg, s, now, u, t);
    case Succeed(u) => SucceedView(cfg, s, now, u, t);
    case Fail(u) => FailView(cfg, s, now, u, t);
    case AskUnlock(u) => AskUnlockView(cfg, s, now, u, t);
  }

  lemma OwnView(cfg: Config, s: State, now: Time, e: Event, t: TaskName)
    requires Enabled(cfg, s, now, e) && Concerns(e, t)
    ensures ViewOf(Apply(cfg, s, now, e), t) == Own(cfg, ViewOf(s, t), now, e)
  {
    if MovesToken(e) { OwnViewMoved(cfg, s, now, e); }
    else if AsksBreaker(e) { BreakerView(cfg, s, now, e, t); }
  }

  lemma OtherViewMoved(cfg: Config, s: State, now: Time, e: Event, t: TaskName)
    requires Enabled(cfg, s, now, e) && MovesToken(e) && !Concerns(e, t)
    ensures ViewOf(Apply(cfg, s, now, e), t) == ViewOf(s, t)
  {}

  lemma OtherView(cfg: Config, s: State, now: Time, e: Event, t: TaskName)
    requires Enabled(cfg, s, now, e) && !Concerns(e, t)
    ensures ViewOf(Apply(cfg, s, now, e), t) == ViewOf(s, t)
  {
    if MovesToken(e) { OtherViewMoved(cfg, s, now, e, t); }
    else if AsksBreaker(e) { BreakerView(cfg, s, now, e, t); }
  }

  // ---------- Run spacing ----------

  predicate OnTheWay(v: View) {
    v.queued > 0 || v.held || v.phase == Some(Starting)
  }

  predicate Busy(v: View) {
    v.phase.Some? && v.phase.value != Starting && v.phase.value != Retimed
  }

  // Once a run has ended, the task waits for a due time no earlier than one interval on, and whatever is on its
  // way to the next run has passed that point.
  ghost predicate Spaced(cfg: Config, v: View, now: Time, t: TaskName) {
    v.ended.Some? ==>
      && v.next.Some? && t in cfg.interval && v.ended.value <= now
      && (OnTheWay(v) ==> now > v.ended.value + cfg.interval[t])
      && (!OnTheWay(v) && !Busy(v) ==> v.next.value >= v.ended.value + cfg.interval[t])
  }

  // The facts about the event's own task that token uniqueness provides.
  ghost predicate Sole(v: View, e: Event) {
    && (e.Register? ==> v.ended.None? || v.next.Some?)
    && (e.SweepPush? || e.SweepPut? ==> v.queued == 0 && !v.held && v.phase.None?)
    && (v.held ==> v.queued == 0 && v.phase.None?)
    && (v.phase.Some? ==> v.queued == 0 && !v.held)
    && (v.queued > 0 ==> !v.held && v.phase.None?)
  }

  lemma SoleView(cfg: Config, s: State, now: Time, e: Event, t: TaskName)
    requires TokenInv(s) && Enabled(cfg, s, now, e) && Concerns(e, t)
    requires t in s.ended ==> t in s.next
    ensures Sole(ViewOf(s, t), e)
  {
    if t in s.swept || t in s.queue || InHand(s, t) || t in s.runs { Elsewhere(s, t); }
  }

  // What Enabled says about the event's own task.
  predicate OwnEnabled(v: View, now: Time, e: Event) {
    match e
    case Register(_, _, _) => v.next.None?
    case SweepPush(_) => v.next.Some? && now > v.next.value
    case Pop(_) => v.queued > 0
    case NoLock(_, _) => v.held
    case GotLock(_) => v.held
    case Ask(_) => v.held
    case Isolate(_, _) => v.held
    case FindFailed(_) => v.phase == Some(Starting)
    case Begin(_) => v.phase == Some(Starting)
    case Succeed(_) => v.phase == Some(Running)
    case Fail(_) => v.phase == Some(Running)
    case Panic(_) => v.phase == Some(Running)
    case AskUnlock(_) => v.phase == Some(Failed)
    case UnlockDone(_) => v.phase == Some(Unlocking)
    case Retime(_) => v.phase == Some(Ending)
    case PutBack(_, _) => v.phase == Some(Retimed)
    case _ => true
  }

  lemma SpacedOwn(cfg: Config, v: View, now: Time, e: Event, t: TaskName)
    requires !e.SweepStart? && !e.SweepEnd? && e.t == t && OwnEnabled(v, now, e) && Sole(v, e)
    requires e.NoLock? || e.Isolate? || e.Retime? ==> t in cfg.interval
    requires e.Retime? ==> v.next.Some?
    requires Spaced(cfg, v, now, t)
    ensures Spaced(cfg, Own(cfg, v, now, e), now, t)
  {}

  // ---------- The breaker in scheduler runs ----------

  // With tokens unique, a task that is tripped is never between the breaker's check and the end of its run, so
  // its failures stop at the threshold; and once a trip is forgotten its isolation is over.
  ghost predicate Guarded(cfg: Config, v: View, now: Time) {
    && (v.trippedAt.Some? <==> v.fails >= cfg.threshold)
    && 0 <= v.fails <= cfg.threshold
    && (v.trippedAt.Some? ==> v.tripped == v.trippedAt && v.phase != Some(Starting) && v.phase != Some(Running))
    && (v.tripped.Some? && v.trippedAt.None? ==> now > v.tripped.value + cfg.isolate)
  }

  lemma GuardedOwn(cfg: Config, v: View, now: Time, e: Event)
    requires OwnEnabled(v, now, e) && Guarded(cfg, v, now) && cfg.threshold >= 1
    requires e.NoLock? || e.Isolate? || e.Retime? ==> e.t in cfg.interval
    ensures Guarded(cfg, Own(cfg, v, now, e), now)
  {}

  // ---------- Whole runs of one instance ----------

  ghost predicate Inv(cfg: Config, s: State, now: Time) {
    && TokenInv(s)
    && (forall t :: Spaced(cfg, ViewOf(s, t), now, t))
    && (forall t :: Guarded(cfg, ViewOf(s, t), now))
  }

  ghost predicate Init(s: State) {
    && s.cur < |s.slots| && (forall k :: 0 <= k < |s.slots| ==> s.slots[k] == {})
    && !s.sweeping && s.swept == {} && s.queue == multiset{} && s.hand == Nothing && s.runs == map[]
    && s.next == map[] && s.circuit == B.CLOSED && s.ended == map[] && s.tripped == map[]
  }

  lemma InitInv(cfg: Config, s: State, now: Time)
    requires Init(s) && cfg.threshold >= 1
    ensures Inv(cfg, s, now)
  {
    forall t ensures Tokens(s, t) == One(t in s.next) { SlotTokensZero(s.slots, t); }
  }

  lemma InvStep(cfg: Config, s: State, now: Time, e: Event)
    requires Inv(cfg, s, now) && Enabled(cfg, s, now, e) && cfg.threshold >= 1
    ensures Inv(cfg, Apply(cfg, s, now, e), now)
  {
    TokenStep(cfg, s, now, e);
    forall t
      ensures Spaced(cfg, ViewOf(Apply(cfg, s, now, e), t), now, t)
              && Guarded(cfg, ViewOf(Apply(cfg, s, now, e), t), now)
    {
      ViewStep(cfg, s, now, e, t);
    }
  }

  lemma ViewStep(cfg: Config, s: State, now: Time, e: Event, t: TaskName)
    requires TokenInv(s) && Enabled(cfg, s, now, e) && cfg.threshold >= 1
    requires Spaced(cfg, ViewOf(s, t), now, t) && Guarded(cfg, ViewOf(s, t), now)
    ensures Spaced(cfg, ViewOf(Apply(cfg, s, now, e), t), now, t) && Guarded(cfg, ViewOf(Apply(cfg, s, now, e), t), now)
  {
    if Concerns(e, t) {
      OwnView(cfg, s, now, e, t);
      SoleView(cfg, s, now, e, t);
      if e.Retime? { Elsewhere(s, t); }
      SpacedOwn(cfg, ViewOf(s, t), now, e, t);
      GuardedOwn(cfg, ViewOf(s, t), now, e);
    } else {
      OtherView(cfg, s, now, e, t);
    }
  }

  lemma InvLater(cfg: Config, s: State, now: Time, now': Time)
    requires Inv(cfg, s, now) && now <= now'
    ensures Inv(cfg, s, now')
  {
    forall t ensures Spaced(cfg, ViewOf(s, t), now', t) { assert Spaced(cfg, ViewOf(s, t), now, t); }
    forall t ensures Guarded(cfg, ViewOf(s, t), now') { assert Guarded(cfg, ViewOf(s, t), now); }
  }

  // Event k happens at time nows[k]; time does not run backwards.
  ghost predicate IsRun(cfg: Config, ss: seq<State>, nows: seq<Time>, es: seq<Event>) {
    && cfg.threshold >= 1
    && |ss| == |es| + 1 && |nows| == |es| && Init(ss[0])
    && (forall k :: 0 <= k < |es| ==>
          Enabled(cfg, ss[k], nows[k], es[k]) && ss[k + 1] == Apply(cfg, ss[k], nows[k], es[k]))
    && (forall k, l :: 0 <= k <= l < |es| ==> nows[k] <= nows[l])
  }

  lemma {:induction false} InvAlways(cfg: Config, ss: seq<State>, nows: seq<Time>, es: seq<Event>, k: nat)
    requires IsRun(cfg, ss, nows, es) && k < |es|
    ensures Inv(cfg, ss[k], nows[k])
  {
    if k == 0 {
      InitInv(cfg, ss[0], nows[0]);
    } else {
      InvAlways(cfg, ss, nows, es, k - 1);
      InvStep(cfg, ss[k - 1], nows[k - 1], es[k - 1]);
      InvLater(cfg, ss[k], nows[k - 1], nows[k]);
    }
  }

  // At every point of every run a registered task is in exactly one of its places, and nothing else is anywhere.
  lemma TokenConservation(cfg: Config, ss: seq<State>, nows: seq<Time>, es: seq<Event>, k: nat, t: TaskName)
    requires IsRun(cfg, ss, nows, es) && k < |ss|
    ensures Tokens(ss[k], t) == One(t in ss[k].next)
    ensures (exists j :: 0 <= j < k && es[j].Register? && es[j].t == t) ==> Tokens(ss[k], t) == 1
    decreases k
  {
    if k == 0 {
      InitInv(cfg, ss[0], 0);
      assert Tokens(ss[0], t) == One(t in ss[0].next);
    } else {
      InvAlways(cfg, ss, nows, es, k - 1);
      TokenStep(cfg, ss[k - 1], nows[k - 1], es[k - 1]);
      assert Tokens(ss[k], t) == One(t in ss[k].next);
      NextGrows(cfg, ss[k - 1], nows[k - 1], es[k - 1], t);
      TokenConservation(cfg, ss, nows, es, k - 1, t);
    }
  }

  // History only moves forward.
  lemma ViewFollows(cfg: Config, s: State, now: Time, e: Event, t: TaskName)
    requires Enabled(cfg, s, now, e)
    ensures var v, v' := ViewOf(s, t), ViewOf(Apply(cfg, s, now, e), t);
            && (e == Retime(t) ==> v'.ended == Some(now))
            && (e == Fail(t) && v'.trippedAt.Some? ==> v'.tripped == Some(now))
            && (v.ended.Some? ==> v'.ended == v.ended || v'.ended == Some(now))
            && (v.tripped.Some? ==> v'.tripped == v.tripped || v'.tripped == Some(now))
  {
    if Concerns(e, t) { OwnView(cfg, s, now, e, t); } else { OtherView(cfg, s, now, e, t); }
  }

  lemma NextGrows(cfg: Config, s: State, now: Time, e: Event, t: TaskName)
    requires TokenInv(s) && Enabled(cfg, s, now, e)
    ensures t in s.next ==> t in Apply(cfg, s, now, e).next
    ensures e.Register? && e.t == t ==> t in Apply(cfg, s, now, e).next
  {
    if IsPhaseEvent(e) {
      PhaseEventFrame(cfg, s, now, e);
      hide Apply, Enabled;
    } else if e.Ask? {
      AskFrame(cfg, s, now, e.t);
      hide Apply, Enabled;
    }
    hide TokenInv, B.Queried, TopPriority;
  }

  lemma {:induction false} EndedOnlyLater(cfg: Config, ss: seq<State>, nows: seq<Time>, es: seq<Event>, a: nat,
                                          b: nat, t: TaskName)
    requires IsRun(cfg, ss, nows, es) && a < b < |es| && es[a] == Retime(t)
    ensures t in ss[b].ended && ss[b].ended[t] >= nows[a]
    decreases b
  {
    hide Apply, Enabled;
    ViewFollows(cfg, ss[b - 1], nows[b - 1], es[b - 1], t);
    if a + 1 < b {
      EndedOnlyLater(cfg, ss, nows, es, a, b - 1, t);
    }
  }

  // A run starts strictly more than one interval after the clock read that ended any earlier run of the task.
  lemma RunSpacing(cfg: Config, ss: seq<State>, nows: seq<Time>, es: seq<Event>, a: nat, b: nat, t: TaskName)
    requires IsRun(cfg, ss, nows, es) && a < b < |es|
    requires es[a] == Retime(t) && es[b] == Begin(t)
    ensures t in cfg.interval && nows[b] > nows[a] + cfg.interval[t]
  {
    EndedOnlyLater(cfg, ss, nows, es, a, b, t);
    InvAlways(cfg, ss, nows, es, b);
    assert Spaced(cfg, ViewOf(ss[b], t), nows[b], t);
  }

  lemma {:induction false} TrippedOnlyLater(cfg: Config, ss: seq<State>, nows: seq<Time>, es: seq<Event>, a: nat,
                                            b: nat, t: TaskName)
    requires IsRun(cfg, ss, nows, es) && a < b < |es| && es[a] == Fail(t) && t in ss[a + 1].circuit.trippedAt
    ensures t in ss[b].tripped && ss[b].tripped[t] >= nows[a]
    decreases b
  {
    hide Apply, Enabled;
    ViewFollows(cfg, ss[b - 1], nows[b - 1], es[b - 1], t);
    if a + 1 < b {
      TrippedOnlyLater(cfg, ss, nows, es, a, b - 1, t);
    }
  }

  // After a failure that trips the breaker, no run of the task starts on this instance until the isolation is over.
  lemma NoRunWhileIsolated(cfg: Config, ss: seq<State>, nows: seq<Time>, es: seq<Event>, a: nat, b: nat, t: TaskName)
    requires IsRun(cfg, ss, nows, es) && a < b < |es|
    requires es[a] == Fail(t) && t in ss[a + 1].circuit.trippedAt && es[b] == Begin(t)
    ensures nows[b] > nows[a] + cfg.isolate
  {
    TrippedOnlyLater(cfg, ss, nows, es, a, b, t);
    InvAlways(cfg, ss, nows, es, b);
    assert Guarded(cfg, ViewOf(ss[b], t), nows[b]);
  }

  // A failure count never passes the threshold, and the breaker is tripped exactly when it is reached.
  lemma FailuresStopAtThreshold(cfg: Config, ss: seq<State>, nows: seq<Time>, es: seq<Event>, k: nat, t: TaskName)
    requires IsRun(cfg, ss, nows, es) && k < |ss|
    ensures B.FailsOf(ss[k].circuit, t) <= cfg.threshold
    ensures t in ss[k].circuit.trippedAt <==> B.FailsOf(ss[k].circuit, t) == cfg.threshold
  {
    if k == 0 {
      InitInv(cfg, ss[0], 0);
      assert Guarded(cfg, ViewOf(ss[0], t), 0);
    } else {
      hide Apply, Enabled, Spaced, TokenInv;
      InvAlways(cfg, ss, nows, es, k - 1);
      InvStep(cfg, ss[k - 1], nows[k - 1], es[k - 1]);
      assert Guarded(cfg, ViewOf(ss[k], t), nows[k - 1]);
    }
  }

  // The dispatcher never has a task that is in a run, so that TryLock of a task never meets its release.
  lemma NoTryDuringRun(cfg: Config, ss: seq<State>, nows: seq<Time>, es: seq<Event>, k: nat, t: TaskName)
    requires IsRun(cfg, ss, nows, es) && k < |ss|
    ensures InHand(ss[k], t) ==> t !in ss[k].runs
  {
    TokenConservation(cfg, ss, nows, es, k, t);
  }
}
