/**
 What cannot be made good any more: after a failed rotation no later save succeeds, and after Close nothing that is
 still buffered leaves the buffer.
 */
module Endings {
  import opened Wrappers
  import opened Framing
  import opened Storage
  import E = Engine
  import X = Losses
  import P = Pipeline

  // ---------- A failed rotation ----------

  // The directory has at most lost files.
  predicate OnlyRemoved(s: Store, s': Store) {
    forall f :: f in s'.dir ==> f in s.dir && s'.dir[f] == s.dir[f]
  }

  // A save through a closed handle changes nothing, and succeeds for the empty batch only.
  lemma ShutSave(c: Codec, size: nat, s: Store, name: string, batch: seq<Elem>, env: SaveEnv)
    requires size > 0 && s.open.Shut?
    ensures var o := Save(c, size, s, name, batch, env);
            o.store == s && o.written == [] && (o.result == Saved <==> batch == [] && !env.full)
  {
    SaveRound(c, size, s, name, batch, 0, env.chunks, []);
    hide SaveChunks;
  }

  lemma {:induction false} ShutExports(cfg: E.Config, s: E.State, batch: seq<Elem>, calls: seq<E.Call>)
    requires cfg.size > 0 && s.store.open.Shut?
    ensures E.ExportAll(cfg, s, batch, calls).store == s.store
    decreases |calls|
  {
    if calls != [] {
      ShutSave(cfg.codec, cfg.size, s.store, calls[0].exporter, batch, calls[0].env);
      hide Save;
      ShutExports(cfg, E.ExportOne(cfg, s, batch, calls[0]), batch, calls[1..]);
    }
  }

  // What an exporter then refuses is lost to it.
  lemma ShutLoses(cfg: E.Config, s: E.State, x: string, batch: seq<Elem>, env: SaveEnv, it: Elem)
    requires cfg.size > 0 && s.store.open.Shut? && X.Gone(cfg, s, x, it)
    ensures X.Gone(cfg, E.HandleExportError(cfg, s, x, batch, env), x, it)
  {
    ShutSave(cfg.codec, cfg.size, s.store, x, batch, env);
    hide Save;
  }

  lemma ShutStep(cfg: E.Config, s: E.State, step: E.Step)
    requires cfg.size > 0 && s.store.open.Shut? && E.Enabled(cfg, s, step)
    ensures var s' := E.Apply(cfg, s, step);
            && s'.store.open.Shut? && OnlyRemoved(s.store, s'.store)
            && (s.status == E.Blocked && s.blockData != [] ==> s'.status == E.Blocked && s.blockData <= s'.blockData)
  {
    match step
    case Flush(batch, calls) =>
      if s.status != E.Blocked {
        var kept := E.Filter(batch, cfg.keep);
        var s0 := s.(flushed := s.flushed + E.Range(kept), dropped := s.dropped + (E.Range(batch) - E.Range(kept)));
        ShutExports(cfg, s0, kept, calls);
      }
      hide E.ExportAll, E.Filter, E.Range;
    case SaveBlocked(full, env) =>
      ShutSave(cfg.codec, cfg.size, s.store, cfg.pipeline, s.blockData, env);
      hide Save, FreshNames;
    case Replay(_, _) =>
      hide E.StreamAt, E.Redelivered;
    case _ =>
  }

  // A rotation that fails leaves a closed handle for good: from then on no file gains a record, and a pipeline that is
  // blocked with data in its buffer stays blocked with it.
  lemma {:induction false} ShutForGood(cfg: E.Config, ss: seq<P.State>, steps: seq<P.Step>, a: nat, b: nat)
    requires P.IsRun(cfg, ss, steps) && a <= b < |ss| && ss[a].engine.store.open.Shut?
    ensures ss[b].engine.store.open.Shut? && OnlyRemoved(ss[a].engine.store, ss[b].engine.store)
    ensures ss[a].engine.status == E.Blocked && ss[a].engine.blockData != [] ==>
              ss[b].engine.status == E.Blocked && ss[a].engine.blockData <= ss[b].engine.blockData
    decreases b
  {
    hide P.Ready, P.Move, E.Apply, P.Inv, P.Delivery, E.Enabled, P.Init;
    if a < b {
      ShutForGood(cfg, ss, steps, a, b - 1);
      P.RunAt(cfg, ss, steps, b - 1);
      var d := P.Delivery(cfg, ss[b - 1], steps[b - 1]);
      if d.Some? { ShutStep(cfg, ss[b - 1].engine, d.value); }
    }
  }

  // ---------- After Close ----------

  // Close has waited for both goroutines.
  predicate Closed(s: P.State) {
    s.done && s.unwatched
  }

  // Only the removal of replayed files goes on.
  lemma ClosedStep(cfg: E.Config, s: P.State, step: P.Step)
    requires cfg.size > 0 && P.OrderInv(cfg, s) && P.Enabled(cfg, s, step) && Closed(s)
    ensures step.StopAccepting? || step.Cancel? || step.CloseQueue? ||
            (step.Deliver? && (step.step.RemoveDone? || step.step.RemoveFailed?))
  {
    hide P.Items, E.Enabled, P.Delivery;
  }

  // The same but for removals.
  predicate Remains(s: P.State, s': P.State) {
    && s'.queue == s.queue && s'.batch == s.batch && s'.out == s.out
    && s'.engine == s.engine.(store := s'.engine.store, doomed := s'.engine.doomed)
    && OnlyRemoved(s.engine.store, s'.engine.store)
  }

  lemma RemainsItself(s: P.State)
    ensures Remains(s, s)
  {}

  lemma RemainsTwice(s: P.State, s': P.State, s'': P.State)
    requires Remains(s, s') && Remains(s', s'')
    ensures Remains(s, s'')
  {}

  lemma ClosedFrame(cfg: E.Config, s: P.State, step: P.Step)
    requires cfg.size > 0 && P.OrderInv(cfg, s) && P.Enabled(cfg, s, step) && Closed(s)
    ensures Closed(P.Apply(cfg, s, step)) && Remains(s, P.Apply(cfg, s, step))
  {
    ClosedStep(cfg, s, step);
    hide P.OrderInv, P.Enabled;
  }

  lemma ClosedNext(cfg: E.Config, ss: seq<P.State>, steps: seq<P.Step>, k: nat)
    requires P.IsRun(cfg, ss, steps) && k < |steps| && Closed(ss[k])
    ensures Closed(ss[k + 1]) && Remains(ss[k], ss[k + 1])
  {
    P.RunAt(cfg, ss, steps, k);
    hide P.IsRun, P.Apply, P.Inv, P.Enabled, P.OrderInv, Closed, Remains;
    InvHasOrder(cfg, ss[k]);
    ClosedFrame(cfg, ss[k], steps[k]);
  }

  // From the end of Close on the engine changes only by removals of files that were replayed: what is buffered then
  // stays in the buffer, and nothing is delivered or written any more.
  lemma {:induction false} ClosedForGood(cfg: E.Config, ss: seq<P.State>, steps: seq<P.Step>, a: nat, b: nat)
    requires P.IsRun(cfg, ss, steps) && a <= b < |ss| && Closed(ss[a])
    ensures Closed(ss[b]) && Remains(ss[a], ss[b])
    decreases b
  {
    RemainsItself(ss[a]);
    assert |ss| == |steps| + 1;
    hide P.IsRun, P.Apply, P.Inv, P.Enabled, P.OrderInv, Closed, Remains;
    if a < b {
      ClosedForGood(cfg, ss, steps, a, b - 1);
      ClosedNext(cfg, ss, steps, b - 1);
      RemainsTwice(ss[a], ss[b - 1], ss[b]);
    }
  }

  // An item in the buffer at the end of Close is never delivered under the pipeline's name, and on a file under it
  // only if a save that failed half-way had put it there.
  lemma LeftInBuffer(cfg: E.Config, ss: seq<P.State>, steps: seq<P.Step>, a: nat, b: nat, it: Elem)
    requires P.IsRun(cfg, ss, steps) && a <= b < |ss| && Closed(ss[a])
    requires it in ss[a].engine.blockData && X.Gone(cfg, ss[a].engine, cfg.pipeline, it)
    ensures it in ss[b].engine.blockData && X.Gone(cfg, ss[b].engine, cfg.pipeline, it)
  {
    ClosedForGood(cfg, ss, steps, a, b);
    hide P.IsRun, Closed, Records, E.Has;
  }

  lemma InvHasOrder(cfg: E.Config, s: P.State)
    requires P.Inv(cfg, s)
    ensures P.OrderInv(cfg, s)
  {}

  // ---------- A run that leaves data in the buffer ----------

  // Two items are pushed; the export of the first one meets a full disk, and the second one is buffered as the pipeline
  // closes.
  function ClosingSteps(a: Elem, b: Elem, x: string, f: string): seq<P.Step> {
    [P.Start, P.Push(a), P.Push(b), P.Receive(X.OnFullDisk(x, f)), P.Timeout(X.OnFullDisk(x, f))] +
    [P.StopAccepting, P.Cancel, P.CloseQueue, P.Drain, P.DrainOne, P.DrainEnd(X.OnFullDisk(x, f)), P.StopWatching]
  }

  const IDLE := P.State([], [], false, false, false, false, false, false, false, false, [], [], E.START)

  function Pushed(a: Elem, b: Elem): P.State {
    IDLE.(started := true, ran := true, queue := [a, b], accepted := [a, b])
  }

  function Flushed(cfg: E.Config, a: Elem, b: Elem, x: string, f: string): P.State
    requires cfg.size > 0
  {
    Pushed(a, b).(queue := [b], out := [a], engine := E.Apply(cfg, E.START, E.Flush([a], X.OnFullDisk(x, f))))
  }

  function Draining(s: P.State): P.State {
    s.(started := false, stopping := true, cancelled := true, closed := true, draining := true)
  }

  ghost predicate Leads(cfg: E.Config, ss: seq<P.State>, steps: seq<P.Step>)
    requires cfg.size > 0
  {
    && |ss| == |steps| + 1
    && forall k :: 0 <= k < |steps| ==> P.Enabled(cfg, ss[k], steps[k]) && ss[k + 1] == P.Apply(cfg, ss[k], steps[k])
  }

  lemma LeadsOn(cfg: E.Config, ss: seq<P.State>, steps: seq<P.Step>, step: P.Step)
    requires cfg.size > 0 && Leads(cfg, ss, steps) && P.Enabled(cfg, ss[|steps|], step)
    ensures Leads(cfg, ss + [P.Apply(cfg, ss[|steps|], step)], steps + [step])
  {
    hide P.Enabled, P.Apply;
  }

  lemma PushBoth(cfg: E.Config, a: Elem, b: Elem) returns (ss: seq<P.State>)
    requires cfg.size > 0 && a.Item? && b.Item? && a != b
    ensures |ss| == 4 && ss[0] == IDLE && ss[3] == Pushed(a, b)
    ensures Leads(cfg, ss, [P.Start, P.Push(a), P.Push(b)])
  {
    var s1 := P.Apply(cfg, IDLE, P.Start);
    var s2 := P.Apply(cfg, s1, P.Push(a));
    var s3 := P.Apply(cfg, s2, P.Push(b));
    assert P.Enabled(cfg, IDLE, P.Start) && P.Enabled(cfg, s1, P.Push(a)) && P.Enabled(cfg, s2, P.Push(b));
    hide P.Apply, P.Enabled;
    LeadsOn(cfg, [IDLE], [], P.Start);
    LeadsOn(cfg, [IDLE, s1], [P.Start], P.Push(a));
    LeadsOn(cfg, [IDLE, s1, s2], [P.Start, P.Push(a)], P.Push(b));
    ss := [IDLE, s1, s2, s3];
  }

  // With any batch size the first item is flushed by the time-out at the latest.
  lemma FlushFirst(cfg: E.Config, a: Elem, b: Elem, x: string, f: string) returns (s: P.State)
    requires cfg.size > 0 && E.Enabled(cfg, E.START, E.Flush([a], X.OnFullDisk(x, f)))
    ensures var calls := X.OnFullDisk(x, f);
            && P.Enabled(cfg, Pushed(a, b), P.Receive(calls)) && s == P.Apply(cfg, Pushed(a, b), P.Receive(calls))
            && P.Enabled(cfg, s, P.Timeout(calls)) && P.Apply(cfg, s, P.Timeout(calls)) == Flushed(cfg, a, b, x, f)
  {
    hide E.Apply, E.Enabled;
    s := P.Apply(cfg, Pushed(a, b), P.Receive(X.OnFullDisk(x, f)));
    assert [] + [a] == [a] && [a, b][1..] == [b] && [a] + [] == [a];
    if cfg.size == 1 { assert s == Flushed(cfg, a, b, x, f); } else { assert s.batch == [a]; }
  }

  lemma FlushSecond(cfg: E.Config, s: P.State, b: Elem, calls: seq<E.Call>) returns (s': P.State)
    requires cfg.size > 0 && s.queue == [b] && s.batch == [] && s.draining && !s.done && s.closed
    requires E.Enabled(cfg, s.engine, E.Flush([b], calls))
    ensures P.Enabled(cfg, s, P.DrainOne) && s' == P.Apply(cfg, s, P.DrainOne)
    ensures P.Enabled(cfg, s', P.DrainEnd(calls))
    ensures P.Apply(cfg, s', P.DrainEnd(calls)) ==
            s.(queue := [], out := s.out + [b], done := true, engine := E.Apply(cfg, s.engine, E.Flush([b], calls)))
  {
    hide E.Apply, E.Enabled;
    s' := P.Apply(cfg, s, P.DrainOne);
    assert [] + [b] == [b] && [b][1..] == [];
  }

  lemma CloseSteps(cfg: E.Config, s: P.State) returns (ss: seq<P.State>)
    requires cfg.size > 0 && s.started && s.ran && !s.stopping && !s.cancelled && !s.closed && !s.draining && !s.done
    ensures |ss| == 5 && ss[0] == s && ss[4] == Draining(s)
    ensures Leads(cfg, ss, [P.StopAccepting, P.Cancel, P.CloseQueue, P.Drain])
  {
    var s1 := P.Apply(cfg, s, P.StopAccepting);
    var s2 := P.Apply(cfg, s1, P.Cancel);
    var s3 := P.Apply(cfg, s2, P.CloseQueue);
    var s4 := P.Apply(cfg, s3, P.Drain);
    assert P.Enabled(cfg, s, P.StopAccepting) && P.Enabled(cfg, s1, P.Cancel) && P.Enabled(cfg, s2, P.CloseQueue);
    assert P.Enabled(cfg, s3, P.Drain);
    hide P.Apply, P.Enabled;
    ss := [s, s1, s2, s3, s4];
  }

  lemma LeadsOver(cfg: E.Config, ss: seq<P.State>, steps: seq<P.Step>, ss': seq<P.State>, steps': seq<P.Step>)
    returns (tt: seq<P.State>)
    requires cfg.size > 0 && Leads(cfg, ss, steps) && Leads(cfg, ss', steps') && ss[|ss| - 1] == ss'[0]
    ensures Leads(cfg, tt, steps + steps') && tt[0] == ss[0] && tt[|tt| - 1] == ss'[|ss'| - 1]
  {
    hide P.Enabled, P.Apply;
    tt := ss + ss'[1..];
    var us := steps + steps';
    forall k | 0 <= k < |us| ensures P.Enabled(cfg, tt[k], us[k]) && tt[k + 1] == P.Apply(cfg, tt[k], us[k]) {
      if k >= |steps| {
        assert tt[k] == ss'[k - |steps|] && tt[k + 1] == ss'[k + 1 - |steps|] && us[k] == steps'[k - |steps|];
      } else {
        assert tt[k] == ss[k] && tt[k + 1] == ss[k + 1] && us[k] == steps[k];
      }
    }
  }

  // The disk is full for as long as the pipeline runs: the second item ends in the buffer of a closed pipeline, neither
  // delivered nor on any file.
  lemma LeftInBufferRun(cfg: E.Config, a: Elem, b: Elem, x: string, f: string)
    returns (ss: seq<P.State>, steps: seq<P.Step>)
    requires ValidCodec(cfg.codec) && cfg.size > 0 && cfg.exporters == {x} && cfg.keep(a)
    requires a.Item? && b.Item? && a != b
    ensures steps == ClosingSteps(a, b, x, f) && P.IsRun(cfg, ss, steps)
    ensures var s := ss[|steps|];
            Closed(s) && s.accepted == [a, b] && s.engine.blockData == [b] && X.Gone(cfg, s.engine, cfg.pipeline, b)
  {
    var calls := X.OnFullDisk(x, f);
    X.FirstFlushBlocks(cfg, a, x, f);
    var e := E.Apply(cfg, E.START, E.Flush([a], calls));
    X.SecondFlushParks(cfg, e, b, x, f);
    var e' := E.Apply(cfg, e, E.Flush([b], calls));
    EmptyFileHoldsNothing(cfg, e', f, cfg.pipeline, b);
    E.FreshInv(cfg, E.START);
    steps := ClosingSteps(a, b, x, f);
    ss := ClosingLeads(cfg, a, b, x, f);
    hide E.Apply, E.Enabled, X.Gone, E.Fresh, X.OnFullDisk, P.Apply, P.Enabled;
  }

  lemma TwoLead(cfg: E.Config, s: P.State, p: P.Step, q: P.Step)
    requires cfg.size > 0 && P.Enabled(cfg, s, p) && P.Enabled(cfg, P.Apply(cfg, s, p), q)
    ensures Leads(cfg, [s, P.Apply(cfg, s, p), P.Apply(cfg, P.Apply(cfg, s, p), q)], [p, q])
  {
    hide P.Enabled, P.Apply;
  }

  // The pieces of the run, put together.
  lemma ClosingLeads(cfg: E.Config, a: Elem, b: Elem, x: string, f: string) returns (ss: seq<P.State>)
    requires cfg.size > 0 && a.Item? && b.Item? && a != b
    requires E.Enabled(cfg, E.START, E.Flush([a], X.OnFullDisk(x, f)))
    requires E.Enabled(cfg, E.Apply(cfg, E.START, E.Flush([a], X.OnFullDisk(x, f))), E.Flush([b], X.OnFullDisk(x, f)))
    ensures Leads(cfg, ss, ClosingSteps(a, b, x, f)) && ss[0] == IDLE
    ensures var calls, s := X.OnFullDisk(x, f), ss[|ss| - 1];
            && Closed(s) && s.accepted == [a, b]
            && s.engine == E.Apply(cfg, E.Apply(cfg, E.START, E.Flush([a], calls)), E.Flush([b], calls))
  {
    var calls := X.OnFullDisk(x, f);
    hide E.Apply, E.Enabled, X.OnFullDisk;
    var pushed := PushBoth(cfg, a, b);
    var received := FlushFirst(cfg, a, b, x, f);
    var flushed := Flushed(cfg, a, b, x, f);
    var closing := CloseSteps(cfg, flushed);
    var draining := Draining(flushed);
    var drained := FlushSecond(cfg, draining, b, calls);
    var done := P.Apply(cfg, drained, P.DrainEnd(calls));
    var end := P.Apply(cfg, done, P.StopWatching);
    assert P.Enabled(cfg, done, P.StopWatching) && Closed(end) && end.accepted == [a, b];
    hide P.Apply, P.Enabled, Flushed, Draining;
    TwoLead(cfg, pushed[3], P.Receive(calls), P.Timeout(calls));
    TwoLead(cfg, draining, P.DrainOne, P.DrainEnd(calls));
    LeadsOne(cfg, done, P.StopWatching);
    assert |closing| == 5;
    hide Leads;
    var first, second := [P.Start, P.Push(a), P.Push(b)], [P.Receive(calls), P.Timeout(calls)];
    var third, fourth := [P.StopAccepting, P.Cancel, P.CloseQueue, P.Drain], [P.DrainOne, P.DrainEnd(calls)];
    ss := LeadsOver(cfg, pushed, first, [pushed[3], received, flushed], second);
    ss := LeadsOver(cfg, ss, first + second, closing, third);
    ss := LeadsOver(cfg, ss, first + second + third, [draining, drained, done], fourth);
    ss := LeadsOver(cfg, ss, first + second + third + fourth, [done, end], [P.StopWatching]);
    assert ClosingSteps(a, b, x, f) == first + second + third + fourth + [P.StopWatching];
  }

  lemma LeadsOne(cfg: E.Config, s: P.State, p: P.Step)
    requires cfg.size > 0 && P.Enabled(cfg, s, p)
    ensures Leads(cfg, [s, P.Apply(cfg, s, p)], [p])
  {
    hide P.Enabled, P.Apply;
  }

  lemma EmptyFileHoldsNothing(cfg: E.Config, s: E.State, f: string, x: string, it: Elem)
    requires ValidCodec(cfg.codec) && s.store.dir == map[f := ""] && s.delivered == {}
    ensures X.Gone(cfg, s, x, it)
  {
    X.RoundTrip.EmptyFileOk(cfg.codec, 0, 0);
    hide Records;
  }
}
