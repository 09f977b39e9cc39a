/**
 The whole pipeline (pkg/pipeline/core.go): the bounded queue, the processor's select loop with its batches, the
 orderly close, and the delivery side of module Engine, in every interleaving.
 */
module Pipeline {
  import opened Wrappers
  import opened Framing
  import E = Engine
  import X = Losses

  // `ran`: the two goroutines have been started.  `stopping`, `cancelled` and `closed` are the three steps of Close,
  // which then waits for the processor to be `done` and for the recovery monitor to return, `unwatched`.
  // History: `accepted` is every pushed item in order, `out` every flushed batch in order.
  datatype State = State(
    queue: seq<Elem>, batch: seq<Elem>, started: bool, ran: bool,
    stopping: bool, cancelled: bool, closed: bool, draining: bool, done: bool, unwatched: bool,
    accepted: seq<Elem>, out: seq<Elem>, engine: E.State)

  datatype PushResult = Accepted | PipelineBlocked | NotStarted | QueueFull

  function Capacity(cfg: E.Config): nat {
    10 * cfg.size
  }

  function PushOutcome(cfg: E.Config, s: State): PushResult {
    if s.engine.status == E.Blocked then PipelineBlocked
    else if !s.started then NotStarted
    else if |s.queue| < Capacity(cfg) then Accepted
    else QueueFull
  }

  datatype Step =
    | Start
    | Push(it: Elem)
    | Receive(calls: seq<E.Call>)   // the select takes the queue case; a full batch is flushed
    | Timeout(calls: seq<E.Call>)   // the select takes the timer case
    | StopAccepting | Cancel | CloseQueue
    | Drain                         // the select takes the done case
    | DrainOne | DrainEnd(calls: seq<E.Call>)
    | StopWatching                  // the recovery monitor takes its done case
    | Deliver(step: E.Step)         // a recovery tick or the end of a removal

  predicate Selecting(s: State) {
    s.ran && !s.draining && !s.done
  }

  // What a receive from the queue yields: its head or, once it is closed and empty, nil.
  function Received(s: State): Elem {
    if s.queue != [] then s.queue[0] else Nil
  }

  function Tail(s: State): seq<Elem> {
    if s.queue != [] then s.queue[1..] else []
  }

  // The step of the delivery side that a step involves, if any.
  function Delivery(cfg: E.Config, s: State, step: Step): Option<E.Step> {
    match step
    case Receive(calls) => if |s.batch| + 1 >= cfg.size then Some(E.Flush(s.batch + [Received(s)], calls)) else None
    case Timeout(calls) => if s.batch != [] then Some(E.Flush(s.batch, calls)) else None
    case DrainEnd(calls) => if s.batch != [] then Some(E.Flush(s.batch, calls)) else None
    case Deliver(e) => Some(e)
    case _ => None
  }

  predicate Ready(cfg: E.Config, s: State, step: Step) {
    match step
    case Start => !s.started && !s.stopping
    case Push(it) => PushOutcome(cfg, s) == Accepted && it.Item? && it !in s.accepted
    case Receive(_) => Selecting(s) && (s.queue != [] || s.closed)
    case Timeout(_) => Selecting(s)
    case StopAccepting => s.started
    case Cancel => s.stopping
    case CloseQueue => s.cancelled
    case Drain => Selecting(s) && s.cancelled
    case DrainOne => s.draining && !s.done && s.queue != []
    case DrainEnd(_) => s.draining && !s.done && s.queue == [] && s.closed
    case StopWatching => s.ran && s.cancelled && !s.unwatched
    case Deliver(e) => !e.Flush? && (e.Replay? || e.SaveBlocked? ==> s.ran && !s.unwatched)
  }

  ghost predicate Enabled(cfg: E.Config, s: State, step: Step)
    requires cfg.size > 0
  {
    Ready(cfg, s, step) && (Delivery(cfg, s, step).Some? ==> E.Enabled(cfg, s.engine, Delivery(cfg, s, step).value))
  }

  // A batch leaves for flushBatch.
  function Handed(s: State, batch: seq<Elem>): State {
    s.(out := s.out + batch, batch := [])
  }

  function Move(cfg: E.Config, s: State, step: Step): State {
    match step
    case Start => s.(started := true, ran := true)
    case Push(it) => s.(queue := s.queue + [it], accepted := s.accepted + [it])
    case Receive(_) =>
      var s' := s.(queue := Tail(s), batch := s.batch + [Received(s)]);
      if |s'.batch| >= cfg.size then Handed(s', s'.batch) else s'
    case Timeout(_) => Handed(s, s.batch)
    case StopAccepting => s.(started := false, stopping := true)
    case Cancel => s.(cancelled := true)
    case CloseQueue => s.(closed := true)
    case Drain => s.(draining := true)
    case DrainOne => s.(batch := s.batch + [Received(s)], queue := Tail(s))
    case DrainEnd(_) => Handed(s, s.batch).(done := true)
    case StopWatching => s.(unwatched := true)
    case Deliver(_) => s
  }

  function Apply(cfg: E.Config, s: State, step: Step): State
    requires cfg.size > 0
  {
    var d := Delivery(cfg, s, step);
    Move(cfg, s, step).(engine := if d.Some? then E.Apply(cfg, s.engine, d.value) else s.engine)
  }

  function Items(s: seq<Elem>): seq<Elem> {
    if s == [] then [] else (if s[0].Item? then [s[0]] else []) + Items(s[1..])
  }

  lemma {:induction false} ItemsConcat(a: seq<Elem>, b: seq<Elem>)
    ensures Items(a + b) == Items(a) + Items(b)
    ensures |Items(a)| <= |a|
  {
    if a == [] {
      assert a + b == b;
    } else {
      assert (a + b)[1..] == a[1..] + b;
      ItemsConcat(a[1..], b);
    }
  }

  lemma {:induction false} ItemsIn(s: seq<Elem>, it: Elem)
    ensures it in Items(s) <==> it in s && it.Item?
  {
    if s != [] {
      ItemsIn(s[1..], it);
      assert s == [s[0]] + s[1..];
    }
  }

  // Nothing is lost, repeated or reordered on the way from Push to flushBatch.
  ghost predicate OrderInv(cfg: E.Config, s: State) {
    && Items(s.out) + Items(s.batch) + s.queue == s.accepted
    && (forall it :: it in s.queue ==> it.Item?)
    && |s.queue| <= Capacity(cfg)
    && (!s.draining ==> |s.batch| < cfg.size)
    && (s.draining ==> |Items(s.batch)| + |s.queue| <= 11 * cfg.size - 1)
    && (s.cancelled ==> s.stopping) && (s.closed ==> s.cancelled) && (s.draining ==> s.cancelled)
       && (s.stopping ==> !s.started)
    && (s.done ==> s.draining && s.closed && s.queue == [] && s.batch == [])
  }

  // What was flushed has reached the delivery side one way or another.
  ghost predicate HandedOver(cfg: E.Config, s: State) {
    && (forall it :: it in s.out ==> it in s.engine.flushed || it in s.engine.parked || it in s.engine.dropped)
    && (forall it :: it in s.engine.dropped ==> !cfg.keep(it))
    && (forall it :: it in s.engine.flushed ==> cfg.keep(it))
  }

  ghost predicate Inv(cfg: E.Config, s: State) {
    E.Inv(cfg, s.engine) && OrderInv(cfg, s) && HandedOver(cfg, s)
  }

  lemma ItemsOfQueue(q: seq<Elem>)
    requires forall it :: it in q ==> it.Item?
    ensures Items(q) == q
  {
    if q != [] {
      assert q[0] in q;
      assert forall it :: it in q[1..] ==> it in q;
      ItemsOfQueue(q[1..]);
    }
  }

  lemma TakeOne(cfg: E.Config, s: State)
    requires OrderInv(cfg, s) && (s.queue != [] || s.closed)
    ensures Items(s.out) + Items(s.batch + [Received(s)]) + Tail(s) == s.accepted
    ensures forall it :: it in Tail(s) ==> it.Item?
    ensures |Items(s.batch + [Received(s)])| + |Tail(s)| == |Items(s.batch)| + |s.queue|
  {
    var x := Received(s);
    ItemsConcat(s.batch, [x]);
    assert Items([x]) == (if x.Item? then [x] else []) + Items([]);
    if s.queue != [] {
      assert s.queue == [x] + Tail(s) && x in s.queue;
      assert forall it :: it in Tail(s) ==> it in s.queue;
    }
  }

  lemma HandedOrder(cfg: E.Config, s: State)
    requires cfg.size > 0
    ensures var h := Handed(s, s.batch); Items(h.out) + Items(h.batch) == Items(s.out) + Items(s.batch)
  {
    ItemsConcat(s.out, s.batch);
  }

  lemma TakeMove(cfg: E.Config, s: State, step: Step)
    requires cfg.size > 0 && OrderInv(cfg, s) && Ready(cfg, s, step) && (step.Receive? || step.DrainOne?)
    ensures OrderInv(cfg, Move(cfg, s, step))
  {
    TakeOne(cfg, s);
    HandedOrder(cfg, s.(queue := Tail(s), batch := s.batch + [Received(s)]));
    hide Items, Received;
    assert |Tail(s)| <= |s.queue|;
  }

  lemma DrainMove(cfg: E.Config, s: State)
    requires cfg.size > 0 && OrderInv(cfg, s) && Ready(cfg, s, Drain)
    ensures OrderInv(cfg, Move(cfg, s, Drain))
  {
    ItemsConcat(s.batch, []);
  }

  lemma OrderMove(cfg: E.Config, s: State, step: Step)
    requires cfg.size > 0 && OrderInv(cfg, s) && Ready(cfg, s, step)
    ensures OrderInv(cfg, Move(cfg, s, step))
  {
    if step.Receive? || step.DrainOne? {
      TakeMove(cfg, s, step);
    } else if step.Drain? {
      DrainMove(cfg, s);
    } else {
      HandedOrder(cfg, s);
      assert Items([]) == [];
      hide Items;
    }
  }

  lemma OrderStep(cfg: E.Config, s: State, step: Step)
    requires cfg.size > 0 && OrderInv(cfg, s) && Ready(cfg, s, step)
    ensures OrderInv(cfg, Apply(cfg, s, step))
  {
    OrderMove(cfg, s, step);
    hide Move, Delivery, E.Apply, Ready;
  }

  function FlushedBy(cfg: E.Config, s: State, step: Step): seq<Elem> {
    match step
    case Receive(_) => if |s.batch| + 1 >= cfg.size then s.batch + [Received(s)] else []
    case Timeout(_) => s.batch
    case DrainEnd(_) => s.batch
    case _ => []
  }

  lemma OutGrowsByFlush(cfg: E.Config, s: State, step: Step)
    requires cfg.size > 0 && Ready(cfg, s, step)
    ensures Move(cfg, s, step).out == s.out + FlushedBy(cfg, s, step)
    ensures match Delivery(cfg, s, step)
            { case Some(Flush(batch, _)) => batch == FlushedBy(cfg, s, step) case _ => FlushedBy(cfg, s, step) == [] }
  {
    DeliveredIsFlushed(cfg, s, step);
    assert s.out + [] == s.out;
    hide Received, Tail, Ready, Delivery;
  }

  lemma DeliveredIsFlushed(cfg: E.Config, s: State, step: Step)
    requires Ready(cfg, s, step)
    ensures match Delivery(cfg, s, step)
            { case Some(Flush(batch, _)) => batch == FlushedBy(cfg, s, step) case _ => FlushedBy(cfg, s, step) == [] }
  {
    if !step.Deliver? { hide Received, Ready; }
  }

  lemma EngineStep(cfg: E.Config, s: State, step: Step)
    requires E.Inv(cfg, s.engine) && Enabled(cfg, s, step)
    ensures E.Inv(cfg, Apply(cfg, s, step).engine)
  {
    var d := Delivery(cfg, s, step);
    if d.Some? { E.InvStep(cfg, s.engine, d.value); }
    hide E.Inv, E.Enabled, E.Apply, Ready, Delivery, Move;
  }

  // The delivery side sorts every flushed item into one of three sets.
  ghost predicate Sorts(cfg: E.Config, batch: seq<Elem>, e: E.State, e': E.State) {
    && e.flushed <= e'.flushed && e.parked <= e'.parked && e.dropped <= e'.dropped
    && (forall it :: it in batch ==> it in e'.flushed || it in e'.parked || it in e'.dropped)
    && (forall it :: it in e'.dropped ==> it in e.dropped || !cfg.keep(it))
    && (forall it :: it in e'.flushed ==> it in e.flushed || cfg.keep(it))
  }

  lemma DeliverySorts(cfg: E.Config, e: E.State, d: E.Step)
    requires E.Inv(cfg, e) && E.Enabled(cfg, e, d)
    ensures Sorts(cfg, if d.Flush? then d.batch else [], e, E.Apply(cfg, e, d))
  {
    if d.Flush? { E.FlushSorts(cfg, e, d.batch, d.calls); } else { E.OnlyFlushSorts(cfg, e, d); }
    hide E.FlushBatch, E.Enabled, E.Inv;
  }

  lemma SortedStays(cfg: E.Config, s: State, s': State, batch: seq<Elem>)
    requires HandedOver(cfg, s) && Sorts(cfg, batch, s.engine, s'.engine) && s'.out == s.out + batch
    ensures HandedOver(cfg, s')
  {}

  lemma HandedOverStep(cfg: E.Config, s: State, step: Step)
    requires E.Inv(cfg, s.engine) && HandedOver(cfg, s) && Enabled(cfg, s, step)
    ensures HandedOver(cfg, Apply(cfg, s, step))
  {
    var d := Delivery(cfg, s, step);
    OutGrowsByFlush(cfg, s, step);
    if d.Some? { DeliverySorts(cfg, s.engine, d.value); }
    SortedStays(cfg, s, Apply(cfg, s, step), FlushedBy(cfg, s, step));
    hide E.Inv, E.Enabled, E.Apply, Ready, Move, Delivery, FlushedBy, HandedOver;
  }

  lemma InvStep(cfg: E.Config, s: State, step: Step)
    requires Inv(cfg, s) && Enabled(cfg, s, step)
    ensures Inv(cfg, Apply(cfg, s, step))
  {
    OrderStep(cfg, s, step);
    EngineStep(cfg, s, step);
    HandedOverStep(cfg, s, step);
    hide OrderInv, E.Inv, HandedOver, Apply, Enabled;
  }

  // ---------- Whole runs ----------

  ghost predicate Init(cfg: E.Config, s: State) {
    && s == State([], [], false, false, false, false, false, false, false, false, [], [], s.engine)
    && E.Fresh(cfg, s.engine)
  }

  ghost predicate IsRun(cfg: E.Config, ss: seq<State>, steps: seq<Step>) {
    && ValidCodec(cfg.codec) && cfg.size > 0
    && |ss| == |steps| + 1 && Init(cfg, ss[0])
    && forall k :: 0 <= k < |steps| ==> Enabled(cfg, ss[k], steps[k]) && ss[k + 1] == Apply(cfg, ss[k], steps[k])
  }

  lemma {:induction false} InvAlways(cfg: E.Config, ss: seq<State>, steps: seq<Step>, k: nat)
    requires IsRun(cfg, ss, steps) && k < |ss|
    ensures Inv(cfg, ss[k])
  {
    if k == 0 {
      E.FreshInv(cfg, ss[0].engine);
    } else {
      hide Inv, Apply, Enabled;
      InvAlways(cfg, ss, steps, k - 1);
      InvStep(cfg, ss[k - 1], steps[k - 1]);
    }
  }

  // Flushed batches, the current batch and the queue together are the accepted items in order, under every choice
  // of the select loop and through Close; between its iterations the loop holds less than a full batch, and the
  // batch it drains at the end has fewer than eleven batch sizes of items.
  lemma BatchingKeepsOrder(cfg: E.Config, ss: seq<State>, steps: seq<Step>, k: nat)
    requires IsRun(cfg, ss, steps) && k < |ss|
    ensures Items(ss[k].out + ss[k].batch + ss[k].queue) == ss[k].accepted
    ensures Selecting(ss[k]) ==> |ss[k].batch| < cfg.size
    ensures k < |steps| && steps[k].DrainEnd? ==> |Items(ss[k].batch)| <= 11 * cfg.size - 1
    ensures ss[k].done ==> Items(ss[k].out) == ss[k].accepted
  {
    var s := ss[k];
    InvAlways(cfg, ss, steps, k);
    ItemsConcat(s.out + s.batch, s.queue);
    ItemsConcat(s.out, s.batch);
    ItemsOfQueue(s.queue);
  }

  lemma RunAt(cfg: E.Config, ss: seq<State>, steps: seq<Step>, k: nat)
    requires IsRun(cfg, ss, steps) && k < |steps|
    ensures cfg.size > 0 && Inv(cfg, ss[k]) && Enabled(cfg, ss[k], steps[k]) && ss[k + 1] == Apply(cfg, ss[k], steps[k])
  {
    InvAlways(cfg, ss, steps, k);
    hide Inv, Enabled, Apply;
  }

  lemma StoppingStep(cfg: E.Config, s: State, step: Step)
    requires cfg.size > 0 && OrderInv(cfg, s) && Ready(cfg, s, step)
    ensures var s' := Apply(cfg, s, step);
            s.stopping || step.StopAccepting? ==> s'.stopping && s'.accepted == s.accepted
  {
    hide OrderInv, E.Apply, Items;
    assert s.stopping ==> !s.started by { NotStartedOnceStopping(cfg, s); }
  }

  lemma NotStartedOnceStopping(cfg: E.Config, s: State)
    requires OrderInv(cfg, s)
    ensures s.stopping ==> !s.started
  {}

  lemma {:induction false} StoppingStays(cfg: E.Config, ss: seq<State>, steps: seq<Step>, a: nat, b: nat)
    requires IsRun(cfg, ss, steps) && a < b < |ss| && steps[a].StopAccepting?
    ensures ss[b].stopping && ss[b].accepted == ss[a].accepted
    decreases b
  {
    hide Apply, Ready, E.Inv, OrderInv, HandedOver, Delivery, E.Enabled, Init, ValidCodec;
    RunAt(cfg, ss, steps, b - 1);
    StoppingStep(cfg, ss[b - 1], steps[b - 1]);
    if a + 1 < b {
      StoppingStays(cfg, ss, steps, a, b - 1);
    }
  }

  // Once Close has begun no push is accepted.
  lemma NoPushAfterClose(cfg: E.Config, ss: seq<State>, steps: seq<Step>, a: nat, b: nat)
    requires IsRun(cfg, ss, steps) && a < b < |ss| && steps[a].StopAccepting?
    ensures PushOutcome(cfg, ss[b]) == NotStarted || PushOutcome(cfg, ss[b]) == PipelineBlocked
    ensures ss[b].accepted == ss[a].accepted
  {
    StoppingStays(cfg, ss, steps, a, b);
    InvAlways(cfg, ss, steps, b);
  }

  // End to end: at every point of every run an accepted item is still in the queue or the batch, was turned down by
  // the filters, was flushed while the pipeline was blocked and is in the buffer or accounted for under the
  // pipeline's own name, or is accounted for with every exporter.
  lemma EveryItemAccounted(cfg: E.Config, ss: seq<State>, steps: seq<Step>, k: nat, it: Elem, x: string)
    requires IsRun(cfg, ss, steps) && k < |ss| && it in ss[k].accepted && x in cfg.exporters
    ensures var s := ss[k];
            || it in s.queue || it in s.batch
            || !cfg.keep(it)
            || (it in s.engine.parked && (it in s.engine.blockData || E.Accounted(cfg, s.engine, cfg.pipeline, it)))
            || E.Accounted(cfg, s.engine, x, it)
  {
    var s := ss[k];
    InvAlways(cfg, ss, steps, k);
    hide E.Accounted, E.DiskInv;
    assert it in Items(s.out) + Items(s.batch) + s.queue;
    ItemsIn(s.out, it);
    ItemsIn(s.batch, it);
    if it in s.engine.flushed { assert E.Owed(cfg, s.engine, x, it); }
    if it in s.engine.parked && it !in s.engine.blockData { assert E.Owed(cfg, s.engine, cfg.pipeline, it); }
  }

  // On a run that so far has met neither kind of loss, every item flushed while not blocked and kept by the filters
  // has been delivered to every exporter or waits on a backup file.
  lemma NothingLost(cfg: E.Config, ss: seq<State>, steps: seq<Step>, k: nat, it: Elem, x: string)
    requires IsRun(cfg, ss, steps) && k < |ss| && it in ss[k].engine.flushed && x in cfg.exporters
    requires ss[k].engine.saveLost == {} && ss[k].engine.appendLost == {}
    ensures (x, it) in ss[k].engine.delivered || E.OnFile(cfg, ss[k].engine, x, it)
  {
    InvAlways(cfg, ss, steps, k);
    assert E.Owed(cfg, ss[k].engine, x, it) && E.Accounted(cfg, ss[k].engine, x, it);
  }

  // Whatever is neither delivered nor on any file has been lost in one of the two ways.
  lemma LossesAreKnown(cfg: E.Config, ss: seq<State>, steps: seq<Step>, k: nat, it: Elem, x: string)
    requires IsRun(cfg, ss, steps) && k < |ss| && it in ss[k].engine.flushed && x in cfg.exporters
    requires X.Gone(cfg, ss[k].engine, x, it)
    ensures (x, it) in ss[k].engine.saveLost || (x, it) in ss[k].engine.appendLost
  {
    InvAlways(cfg, ss, steps, k);
    assert E.Owed(cfg, ss[k].engine, x, it) && E.Accounted(cfg, ss[k].engine, x, it);
  }

  // Buffered data means blocked, and blocked never turns into normal in one step.
  lemma StatusMachine(cfg: E.Config, ss: seq<State>, steps: seq<Step>, k: nat)
    requires IsRun(cfg, ss, steps) && k < |steps|
    ensures ss[k].engine.blockData != [] ==> ss[k].engine.status == E.Blocked
    ensures ss[k].engine.status == E.Blocked ==> ss[k + 1].engine.status != E.Normal
  {
    InvAlways(cfg, ss, steps, k);
    var d := Delivery(cfg, ss[k], steps[k]);
    if d.Some? { E.InvStep(cfg, ss[k].engine, d.value); }
  }

  // Saves fail only for a full disk, files are readable, removals succeed.
  ghost predicate Smooth(cfg: E.Config, s: State, step: Step)
    requires cfg.size > 0
  {
    Delivery(cfg, s, step).Some? ==> E.Smooth(cfg, s.engine, Delivery(cfg, s, step).value)
  }

  // With that and a directory that starts empty, normal status means that no backup file that is yet to be replayed
  // holds a record, and that every record on a file that is being removed has been delivered.
  lemma {:induction false} NormalMeansClean(cfg: E.Config, ss: seq<State>, steps: seq<Step>, k: nat)
    requires IsRun(cfg, ss, steps) && k < |ss| && ss[0].engine.store.dir == map[]
    requires forall j :: 0 <= j < |steps| ==> Smooth(cfg, ss[j], steps[j])
    ensures E.NormalIsClean(cfg, ss[k].engine) && E.NormalIsDelivered(cfg, ss[k].engine)
  {
    if k > 0 {
      hide Ready, Move, E.Apply, E.Inv, OrderInv, HandedOver, Delivery, E.Enabled, E.Smooth, E.NormalIsClean,
        E.NormalIsDelivered;
      NormalMeansClean(cfg, ss, steps, k - 1);
      RunAt(cfg, ss, steps, k - 1);
      assert Smooth(cfg, ss[k - 1], steps[k - 1]);
      var d := Delivery(cfg, ss[k - 1], steps[k - 1]);
      if d.Some? {
        E.SmoothStep(cfg, ss[k - 1].engine, d.value);
        E.DeliveredStep(cfg, ss[k - 1].engine, d.value);
      }
    }
  }

  // A push is accepted exactly if the pipeline is not blocked, has been started and has room; the first of these that
  // fails is the reason given.
  lemma PushExactly(cfg: E.Config, s: State, it: Elem)
    ensures Ready(cfg, s, Push(it)) <==>
            s.engine.status != E.Blocked && s.started && |s.queue| < 10 * cfg.size && it.Item? && it !in s.accepted
    ensures match PushOutcome(cfg, s)
            case Accepted => s.engine.status != E.Blocked && s.started && |s.queue| < 10 * cfg.size
            case PipelineBlocked => s.engine.status == E.Blocked
            case NotStarted => s.engine.status != E.Blocked && !s.started
            case QueueFull => s.engine.status != E.Blocked && s.started && |s.queue| >= 10 * cfg.size
  {}

  // No step of a run adds an item while the status is blocked, and whatever adds one is a push with room for it.
  lemma NothingAcceptedWhileBlocked(cfg: E.Config, ss: seq<State>, steps: seq<Step>, k: nat)
    requires IsRun(cfg, ss, steps) && k < |steps|
    ensures ss[k].engine.status == E.Blocked ==> ss[k + 1].accepted == ss[k].accepted
    ensures ss[k + 1].accepted != ss[k].accepted ==>
              && ss[k].started && |ss[k].queue| < 10 * cfg.size
              && exists it :: ss[k + 1].accepted == ss[k].accepted + [it] && ss[k + 1].queue == ss[k].queue + [it]
  {
    RunAt(cfg, ss, steps, k);
    AcceptedGrows(cfg, ss[k], steps[k]);
    if steps[k].Push? {
      PushExactly(cfg, ss[k], steps[k].it);
      hide E.Apply, Ready, Inv;
      assert ss[k + 1].queue == ss[k].queue + [steps[k].it];
    }
  }

  // ---------- Batches ----------

  // A batch leaves when it is full, when time is up and it is not empty, or at the end; in no other step.
  lemma BatchesLeaveWhenDue(cfg: E.Config, ss: seq<State>, steps: seq<Step>, k: nat)
    requires IsRun(cfg, ss, steps) && k < |steps|
    ensures var s, s', step := ss[k], ss[k + 1], steps[k];
            match step
            case Receive(_) =>
              var grown := s.batch + [if s.queue != [] then s.queue[0] else Nil];
              if |grown| == cfg.size then s'.out == s.out + grown && s'.batch == []
              else |grown| < cfg.size && s'.out == s.out && s'.batch == grown
            case Timeout(_) => s'.out == s.out + s.batch && s'.batch == []
            case DrainOne => s'.out == s.out && s.queue != [] && s'.batch == s.batch + [s.queue[0]]
            case DrainEnd(_) => s'.out == s.out + s.batch && s'.batch == [] && s'.queue == []
            case _ => s'.out == s.out && s'.batch == s.batch
  {
    RunAt(cfg, ss, steps, k);
    InvAlways(cfg, ss, steps, k);
    assert OrderInv(cfg, ss[k]);
    hide E.Apply, E.Inv, HandedOver, Items, E.Enabled;
  }

  // ---------- Losses are for good, and have names ----------

  ghost predicate AllDifferent(items: seq<Elem>) {
    forall i, j :: 0 <= i < j < |items| ==> items[i] != items[j]
  }

  lemma {:induction false} AcceptedOnce(cfg: E.Config, ss: seq<State>, steps: seq<Step>, k: nat)
    requires IsRun(cfg, ss, steps) && k < |ss|
    ensures AllDifferent(ss[k].accepted)
  {
    if k > 0 {
      hide E.Apply, E.Enabled, Init, ValidCodec;
      AcceptedOnce(cfg, ss, steps, k - 1);
      AcceptedStep(cfg, ss[k - 1], steps[k - 1]);
      hide Apply, Ready, Delivery;
    }
  }

  lemma AcceptedGrows(cfg: E.Config, s: State, step: Step)
    requires cfg.size > 0
    ensures Apply(cfg, s, step).accepted == s.accepted + if step.Push? then [step.it] else []
  {
    assert s.accepted + [] == s.accepted;
    MoveAccepts(cfg, s, step);
    hide E.Apply, Delivery, Move;
  }

  lemma MoveAccepts(cfg: E.Config, s: State, step: Step)
    ensures Move(cfg, s, step).accepted == if step.Push? then s.accepted + [step.it] else s.accepted
  {
    hide Received, Tail;
  }

  lemma AcceptedStep(cfg: E.Config, s: State, step: Step)
    requires cfg.size > 0 && Ready(cfg, s, step) && AllDifferent(s.accepted)
    ensures AllDifferent(Apply(cfg, s, step).accepted)
  {
    AcceptedGrows(cfg, s, step);
    assert step.Push? ==> step.it !in s.accepted;
    hide Apply, Ready;
  }

  // An item that has been flushed is in no batch and in no queue again.
  lemma FlushedOnce(cfg: E.Config, s: State, it: Elem)
    requires OrderInv(cfg, s) && AllDifferent(s.accepted) && it in s.out && it.Item?
    ensures it !in s.batch && it !in s.queue
  {
    ItemsIn(s.out, it);
    ItemsIn(s.batch, it);
    var i :| 0 <= i < |Items(s.out)| && Items(s.out)[i] == it;
    assert s.accepted[i] == it;
    forall j | 0 <= j < |Items(s.batch)| ensures Items(s.batch)[j] != it {
      assert s.accepted[i] != s.accepted[|Items(s.out)| + j];
    }
    forall j | 0 <= j < |s.queue| ensures s.queue[j] != it {
      assert s.accepted[i] != s.accepted[|Items(s.out)| + |Items(s.batch)| + j];
    }
  }

  // A step leaves a flushed item alone.
  lemma FlushedAlone(cfg: E.Config, s: State, step: Step, it: Elem, x: string)
    requires OrderInv(cfg, s) && AllDifferent(s.accepted) && it in s.out && it.Item? && Ready(cfg, s, step)
    requires !(x == cfg.pipeline && it in s.engine.blockData)
    ensures Delivery(cfg, s, step).Some? ==> X.LeavesAlone(cfg, s.engine, Delivery(cfg, s, step).value, x, it)
  {
    FlushedOnce(cfg, s, it);
    DeliveredIsFlushed(cfg, s, step);
    hide OrderInv, AllDifferent;
  }

  lemma GoneStep(cfg: E.Config, s: State, step: Step, it: Elem, x: string)
    requires Inv(cfg, s) && Enabled(cfg, s, step) && AllDifferent(s.accepted) && it in s.out && it.Item?
    requires !(x == cfg.pipeline && it in s.engine.blockData) && X.Gone(cfg, s.engine, x, it)
    ensures var s' := Apply(cfg, s, step);
            it in s'.out && !(x == cfg.pipeline && it in s'.engine.blockData) && X.Gone(cfg, s'.engine, x, it)
  {
    FlushedAlone(cfg, s, step, it, x);
    OutGrowsByFlush(cfg, s, step);
    var d := Delivery(cfg, s, step);
    if d.Some? {
      X.GoneStays(cfg, s.engine, d.value, x, it);
      X.StepPlaces(cfg, s.engine, d.value, x, it);
    }
    hide OrderInv, E.Inv, HandedOver, E.Enabled, Ready, E.Apply, Move, Delivery, X.Gone, X.LeavesAlone, AllDifferent,
      E.Has;
  }

  // An item that was flushed, and is neither delivered to an exporter nor on a file for it, never will be.
  lemma {:induction false} LostForGood(cfg: E.Config, ss: seq<State>, steps: seq<Step>, a: nat, b: nat, it: Elem,
                                       x: string)
    requires IsRun(cfg, ss, steps) && a <= b < |ss| && it in ss[a].out && it.Item?
    requires !(x == cfg.pipeline && it in ss[a].engine.blockData) && X.Gone(cfg, ss[a].engine, x, it)
    ensures it in ss[b].out && !(x == cfg.pipeline && it in ss[b].engine.blockData) && X.Gone(cfg, ss[b].engine, x, it)
    decreases b
  {
    hide Inv, Apply, Enabled, Init, X.Gone, AllDifferent, ValidCodec;
    if a < b {
      LostForGood(cfg, ss, steps, a, b - 1, it, x);
      RunAt(cfg, ss, steps, b - 1);
      AcceptedOnce(cfg, ss, steps, b - 1);
      GoneStep(cfg, ss[b - 1], steps[b - 1], it, x);
    }
  }

  // In a run from an empty directory a replay would meet a name without an exporter exactly if the pipeline's own name
  // has none and there is a record under it, of data that was buffered while the pipeline was blocked.
  lemma {:induction false} NamesAlways(cfg: E.Config, ss: seq<State>, steps: seq<Step>, k: nat)
    requires IsRun(cfg, ss, steps) && k < |ss| && ss[0].engine.store.dir == map[]
    ensures X.NamesInv(cfg, ss[k].engine)
  {
    if k > 0 {
      hide Ready, Move, E.Apply, E.Inv, OrderInv, HandedOver, Delivery, E.Enabled, X.NamesInv;
      NamesAlways(cfg, ss, steps, k - 1);
      RunAt(cfg, ss, steps, k - 1);
      var d := Delivery(cfg, ss[k - 1], steps[k - 1]);
      if d.Some? {
        X.NamesStep(cfg, ss[k - 1].engine, d.value);
      } else {
        X.NamesFrame(cfg, ss[k - 1].engine, ss[k].engine);
      }
    }
  }

  lemma UnregisteredExactly(cfg: E.Config, ss: seq<State>, steps: seq<Step>, k: nat, files: seq<string>)
    requires IsRun(cfg, ss, steps) && k < |ss| && ss[0].engine.store.dir == map[]
    ensures var stream := E.StreamAt(cfg, ss[k].engine, files);
            && (!E.Registered(cfg, ss[k].engine, files) <==>
                cfg.pipeline !in cfg.exporters && exists r :: r in stream && !r.finish && r.name == cfg.pipeline)
            && forall r :: r in stream && !r.finish && r.name !in cfg.exporters ==>
                 forall it :: it in r.data ==> it in ss[k].engine.parked
  {
    InvAlways(cfg, ss, steps, k);
    NamesAlways(cfg, ss, steps, k);
    hide E.Inv, X.NamesInv, E.StreamAt;
    X.UnregisteredExactly(cfg, ss[k].engine, files);
  }
}
