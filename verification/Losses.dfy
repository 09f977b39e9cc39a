/**
 What the delivery side of the pipeline really loses: exactly when a failed export, an append to a replayed file and
 the removal of a file leave an item neither delivered to its exporter nor on any backup file; a run in which it
 happens; and exactly when a replay meets a name that no exporter has.
 */
module Losses {
  import opened Wrappers
  import opened Framing
  import opened FileNames
  import opened Storage
  import opened SaveGuards
  import opened Engine
  import RoundTrip
  import Recovery

  // On a backup file that still has a name, replayed or not.
  ghost predicate OnAnyFile(cfg: Config, s: State, x: string, it: Elem) {
    exists f :: f in s.store.dir && Has(Records(cfg.codec, s.store.dir[f]), x, it)
  }

  // Neither delivered nor anywhere it could still be delivered from.
  ghost predicate Gone(cfg: Config, s: State, x: string, it: Elem) {
    (x, it) !in s.delivered && !OnAnyFile(cfg, s, x, it)
  }

  // ---------- One save ----------

  // The item was written through a handle on the file f.
  ghost predicate LoggedAt(log: seq<(Handle, Rec)>, f: string, x: string, it: Elem) {
    exists k :: 0 <= k < |log| && log[k].0 == Linked(f) && log[k].1.name == x && it in log[k].1.data
  }

  lemma {:induction false} LoggedToHas(log: seq<(Handle, Rec)>, f: string, x: string, it: Elem)
    ensures Has(LoggedTo(log, f), x, it) <==> LoggedAt(log, f, x, it)
  {
    if log != [] {
      var n := |log| - 1;
      var e := log[n];
      LoggedToHas(log[..n], f, x, it);
      HasConcat(LoggedTo(log[..n], f), if e.0 == Linked(f) then [e.1] else [], x, it);
      LoggedAtLast(log, f, x, it);
    }
  }

  lemma LoggedAtLast(log: seq<(Handle, Rec)>, f: string, x: string, it: Elem)
    requires log != []
    ensures var e := log[|log| - 1];
            LoggedAt(log, f, x, it) <==>
              LoggedAt(log[..|log| - 1], f, x, it) || (e.0 == Linked(f) && e.1.name == x && it in e.1.data)
  {
    var n := |log| - 1;
    if LoggedAt(log[..n], f, x, it) {
      var k :| 0 <= k < n && log[..n][k].0 == Linked(f) && log[..n][k].1.name == x && it in log[..n][k].1.data;
      assert log[k].0 == Linked(f);
    }
    if LoggedAt(log, f, x, it) {
      var k :| 0 <= k < |log| && log[k].0 == Linked(f) && log[k].1.name == x && it in log[k].1.data;
      if k < n { assert log[..n][k] == log[k]; }
    }
  }

  lemma HasConcat(a: seq<Rec>, b: seq<Rec>, x: string, it: Elem)
    ensures Has(a + b, x, it) <==> Has(a, x, it) || Has(b, x, it)
    ensures |b| == 1 ==> (Has(b, x, it) <==> b[0].name == x && it in b[0].data)
  {
    if Has(a, x, it) { var r :| r in a && r.name == x && it in r.data; assert r in a + b; }
    if Has(b, x, it) { var r :| r in b && r.name == x && it in r.data; assert r in a + b; }
    if |b| == 1 { assert b[0] in b; }
  }

  function LogOf(cfg: Config, s: State, x: string, batch: seq<Elem>, env: SaveEnv): seq<(Handle, Rec)>
    requires cfg.size > 0
  {
    Save(cfg.codec, cfg.size, s.store, x, batch, env).written
  }

  // A save puts an item on a file exactly by writing it through a handle on that file.
  lemma SpillPlaces(cfg: Config, s: State, x: string, batch: seq<Elem>, env: SaveEnv, f: string, y: string, it: Elem)
    requires ValidCodec(cfg.codec) && cfg.size > 0 && DiskInv(cfg, s)
    requires FreshNames(cfg.codec, cfg.size, s.store, x, batch, env, s.used)
    ensures Has(RecordsAt(cfg.codec, Spill(cfg, s, x, batch, env).store.dir, f), y, it) <==>
            Has(RecordsAt(cfg.codec, s.store.dir, f), y, it) || LoggedAt(LogOf(cfg, s, x, batch, env), f, y, it)
  {
    var log := LogOf(cfg, s, x, batch, env);
    SaveExactly(cfg.codec, cfg.size, s.store, x, batch, env, s.used, f);
    HasConcat(RecordsAt(cfg.codec, s.store.dir, f), LoggedTo(log, f), y, it);
    LoggedToHas(log, f, y, it);
  }

  // Only files that exist hold anything.
  lemma OnSomeFile(cfg: Config, s: State, x: string, it: Elem)
    ensures OnAnyFile(cfg, s, x, it) <==> exists f :: Has(RecordsAt(cfg.codec, s.store.dir, f), x, it)
  {
    if OnAnyFile(cfg, s, x, it) {
      var f :| f in s.store.dir && Has(Records(cfg.codec, s.store.dir[f]), x, it);
      assert Has(RecordsAt(cfg.codec, s.store.dir, f), x, it);
    }
  }

  lemma SpillOnFile(cfg: Config, s: State, x: string, batch: seq<Elem>, env: SaveEnv, y: string, it: Elem)
    requires ValidCodec(cfg.codec) && cfg.size > 0 && DiskInv(cfg, s)
    requires FreshNames(cfg.codec, cfg.size, s.store, x, batch, env, s.used)
    ensures OnAnyFile(cfg, Spill(cfg, s, x, batch, env), y, it) <==>
            OnAnyFile(cfg, s, y, it) || LoggedByName(LogOf(cfg, s, x, batch, env), y, it)
  {
    var s', log := Spill(cfg, s, x, batch, env), LogOf(cfg, s, x, batch, env);
    OnSomeFile(cfg, s, y, it);
    OnSomeFile(cfg, s', y, it);
    hide Spill, LogOf, RecordsAt, OnAnyFile, Has, DiskInv;
    forall f ensures Has(RecordsAt(cfg.codec, s'.store.dir, f), y, it) <==>
                     Has(RecordsAt(cfg.codec, s.store.dir, f), y, it) || LoggedAt(log, f, y, it)
    {
      SpillPlaces(cfg, s, x, batch, env, f, y, it);
    }
    if LoggedByName(log, y, it) {
      var k :| 0 <= k < |log| && log[k].0.Linked? && log[k].1.name == y && it in log[k].1.data;
      assert LoggedAt(log, log[k].0.name, y, it);
    }
  }

  // A failed export of an item that is nowhere else loses it exactly if the disk is full or no chunk that holds it
  // reaches a file with a name: because the file is not open or has been removed, or because that chunk or one before
  // it is not encoded or written, or a rotation before it fails.
  lemma ErrorLosesExactly(cfg: Config, s: State, x: string, batch: seq<Elem>, env: SaveEnv, it: Elem)
    requires ValidCodec(cfg.codec) && cfg.size > 0 && DiskInv(cfg, s) && Gone(cfg, s, x, it)
    requires FreshNames(cfg.codec, cfg.size, s.store, x, batch, env, s.used)
    ensures var load, start := Load(cfg.codec, cfg.size, x, batch, env.chunks), OpensWith(s.store, env);
            Gone(cfg, HandleExportError(cfg, s, x, batch, env), x, it) <==>
            env.full || !exists k: nat :: Lands(load, start.0, start.1, k) && it in Chunk(load, k)
  {
    SpillOnFile(cfg, s, x, batch, env, x, it);
    SameStore(cfg, s, x, batch, env);
    SaveLands(cfg.codec, cfg.size, s.store, x, batch, env, it);
    hide Spill, SaveResult, HandleExportError, LoggedByName, Lands, Chunk;
  }

  lemma SameStore(cfg: Config, s: State, x: string, batch: seq<Elem>, env: SaveEnv)
    requires cfg.size > 0
    ensures var s', s1 := HandleExportError(cfg, s, x, batch, env), Spill(cfg, s, x, batch, env);
            s'.store == s1.store && s'.delivered == s.delivered == s1.delivered
  {}

  // The batch whose save meets a full disk is dropped: nothing of it, or of anything else, gets onto a file.
  lemma DiskFullDrops(cfg: Config, s: State, x: string, batch: seq<Elem>, env: SaveEnv)
    requires ValidCodec(cfg.codec) && cfg.size > 0 && DiskInv(cfg, s)
    requires FreshNames(cfg.codec, cfg.size, s.store, x, batch, env, s.used)
             && SaveResult(cfg, s, x, batch, env) == DiskFull
    ensures forall y, it :: Gone(cfg, HandleExportError(cfg, s, x, batch, env), y, it) <==> Gone(cfg, s, y, it)
  {
    SaveGrew(cfg.codec, cfg.size, s.store, x, batch, env, s.used);
    assert LogOf(cfg, s, x, batch, env) == [];
    SameStore(cfg, s, x, batch, env);
    forall y, it ensures Gone(cfg, HandleExportError(cfg, s, x, batch, env), y, it) <==> Gone(cfg, s, y, it) {
      SpillOnFile(cfg, s, x, batch, env, y, it);
      hide Spill, LogOf, SaveResult, HandleExportError;
    }
  }

  // ---------- Any step ----------

  lemma LogIsOfBatch(cfg: Config, s: State, x: string, batch: seq<Elem>, env: SaveEnv, f: string, y: string, it: Elem)
    requires cfg.size > 0 && LoggedAt(LogOf(cfg, s, x, batch, env), f, y, it)
    ensures y == x && it in batch
  {
    WrittenIsOfBatch(cfg.codec, cfg.size, Opened(s.store, env), x, batch, 0, env.chunks, []);
    hide SaveChunks;
  }

  // The files that hold an item are the same.
  ghost predicate SamePlaces(cfg: Config, s: State, s': State, x: string, it: Elem) {
    forall f :: Has(RecordsAt(cfg.codec, s'.store.dir, f), x, it) <==> Has(RecordsAt(cfg.codec, s.store.dir, f), x, it)
  }

  lemma SpillElsewhere(cfg: Config, s: State, x: string, batch: seq<Elem>, env: SaveEnv, y: string, it: Elem)
    requires ValidCodec(cfg.codec) && cfg.size > 0 && DiskInv(cfg, s)
    requires FreshNames(cfg.codec, cfg.size, s.store, x, batch, env, s.used) && (y != x || it !in batch)
    ensures SamePlaces(cfg, s, Spill(cfg, s, x, batch, env), y, it)
  {
    forall f
      ensures Has(RecordsAt(cfg.codec, Spill(cfg, s, x, batch, env).store.dir, f), y, it) <==>
              Has(RecordsAt(cfg.codec, s.store.dir, f), y, it)
    {
      SpillPlaces(cfg, s, x, batch, env, f, y, it);
      if LoggedAt(LogOf(cfg, s, x, batch, env), f, y, it) { LogIsOfBatch(cfg, s, x, batch, env, f, y, it); }
      hide Spill, LogOf, RecordsAt, Has;
    }
  }

  lemma {:induction false} ExportElsewhere(cfg: Config, s: State, batch: seq<Elem>, calls: seq<Call>, x: string,
                                           it: Elem)
    requires ValidCodec(cfg.codec) && cfg.size > 0 && DiskInv(cfg, s) && FreshCalls(cfg, s, batch, calls)
             && it !in batch
    ensures SamePlaces(cfg, s, ExportAll(cfg, s, batch, calls), x, it)
    decreases |calls|
  {
    if calls != [] {
      var c := calls[0];
      if c.fails {
        SpillElsewhere(cfg, s, c.exporter, batch, c.env, x, it);
        SpillAccounts(cfg, s, c.exporter, batch, c.env);
        SameStore(cfg, s, c.exporter, batch, c.env);
        HandleErrorAccounts(cfg, s, c.exporter, batch, c.env);
      }
      hide Spill, HandleExportError, DiskInv, RecordsAt, Has, ValidCodec, Accounted, Extends;
      var s1 := ExportOne(cfg, s, batch, c);
      assert SamePlaces(cfg, s, s1, x, it);
      assert DiskInv(cfg, s1) by { DiskInvAfterOne(cfg, s, batch, c); }
      ExportElsewhere(cfg, s1, batch, calls[1..], x, it);
    }
  }

  lemma DiskInvAfterOne(cfg: Config, s: State, batch: seq<Elem>, c: Call)
    requires ValidCodec(cfg.codec) && cfg.size > 0 && DiskInv(cfg, s)
    requires c.fails ==> FreshNames(cfg.codec, cfg.size, s.store, c.exporter, batch, c.env, s.used)
    ensures DiskInv(cfg, ExportOne(cfg, s, batch, c))
  {
    if c.fails { HandleErrorAccounts(cfg, s, c.exporter, batch, c.env); }
    hide HandleExportError;
  }

  // The step neither flushes the item nor saves it out of the buffer.
  predicate LeavesAlone(cfg: Config, s: State, step: Step, x: string, it: Elem) {
    (step.Flush? ==> it !in step.batch) && !(x == cfg.pipeline && it in s.blockData)
  }

  lemma FlushElsewhere(cfg: Config, s: State, batch: seq<Elem>, calls: seq<Call>, x: string, it: Elem)
    requires Inv(cfg, s) && Enabled(cfg, s, Flush(batch, calls)) && it !in batch
    ensures var s' := FlushBatch(cfg, s, batch, calls);
            && SamePlaces(cfg, s, s', x, it) && ((x, it) in s'.delivered <==> (x, it) in s.delivered)
            && (it in s'.blockData <==> it in s.blockData)
  {
    if s.status != Blocked {
      var kept := Filter(batch, cfg.keep);
      var s0 := s.(flushed := s.flushed + Range(kept), dropped := s.dropped + (Range(batch) - Range(kept)));
      FreshCallsFrame(cfg, s, s0, kept, calls);
      assert DiskInv(cfg, s0);
      ExportAllAccounts(cfg, s0, kept, calls);
      ExportElsewhere(cfg, s0, kept, calls, x, it);
      ExportAllHonest(cfg, s0, kept, calls, x, it);
      hide ExportAll, FreshCalls, Outcomes, DiskInv, Accounted, Extends, RecordsAt, Has;
    }
  }

  // After a step that leaves an item alone the same files hold it, unless one was removed, and it has been delivered
  // if it had been or if the step is a replay that delivers it.
  lemma StepPlaces(cfg: Config, s: State, step: Step, x: string, it: Elem)
    requires Inv(cfg, s) && Enabled(cfg, s, step) && LeavesAlone(cfg, s, step, x, it)
    ensures var s' := Apply(cfg, s, step);
            && (forall f :: Has(RecordsAt(cfg.codec, s'.store.dir, f), x, it) <==>
                            Has(RecordsAt(cfg.codec, s.store.dir, f), x, it) && step != RemoveDone(f))
            && ((x, it) in s'.delivered <==>
                (x, it) in s.delivered || (step.Replay?
                                           && (x, it) in Redelivered(StreamAt(cfg, s, step.files), step.ok)))
            && !(x == cfg.pipeline && it in s'.blockData)
  {
    match step
    case Flush(batch, calls) =>
      FlushElsewhere(cfg, s, batch, calls, x, it);
      hide FlushBatch, RecordsAt, Has, Inv, Enabled;
    case Replay(files, ok) =>
      hide RecordsAt, Has, Inv, Enabled, StreamAt, Redelivered, Recovery.Consume;
    case SaveBlocked(full, env) =>
      if !full { SpillElsewhere(cfg, s, cfg.pipeline, s.blockData, env, x, it); }
      hide RecordsAt, Has, Inv, Enabled, SaveResult;
    case RemoveDone(f) =>
    case RemoveFailed(f) =>
  }

  // A replay delivers only what is on a file.
  lemma {:induction false} StreamIsOnFile(cfg: Config, s: State, files: seq<string>, r: Rec)
    requires ValidCodec(cfg.codec) && WellKept(cfg.codec, s.store)
    requires r in RoundTrip.Stream(cfg.codec, cfg.cap, s.store.dir, files) && !r.finish
    ensures exists f :: f in s.store.dir && r in Records(cfg.codec, s.store.dir[f])
  {
    if files != [] {
      var n := |files| - 1;
      var f := files[n];
      var scan := RoundTrip.ScanAt(cfg.codec, cfg.cap, s.store.dir, f);
      if r in RoundTrip.Stream(cfg.codec, cfg.cap, s.store.dir, files[..n]) {
        StreamIsOnFile(cfg, s, files[..n], r);
      } else {
        assert r in scan.batches && f in s.store.dir;
        var recs := Records(cfg.codec, s.store.dir[f]);
        assert Kept(cfg.codec, s.store.dir[f]);
        ScanHeld(cfg.codec, cfg.cap, s.store.dir[f], recs);
      }
    }
  }

  lemma RedeliveredIsOnFile(cfg: Config, s: State, files: seq<string>, ok: nat -> bool, x: string, it: Elem)
    requires ValidCodec(cfg.codec) && WellKept(cfg.codec, s.store)
    requires (x, it) in Redelivered(StreamAt(cfg, s, files), ok)
    ensures OnAnyFile(cfg, s, x, it)
  {
    var stream := StreamAt(cfg, s, files);
    var k :| 0 <= k < |stream| && !stream[k].finish && ok(k) && it in stream[k].data && stream[k].name == x;
    StreamIsOnFile(cfg, s, files, stream[k]);
    var f :| f in s.store.dir && stream[k] in Records(cfg.codec, s.store.dir[f]);
    assert Has(Records(cfg.codec, s.store.dir[f]), x, it);
  }

  // What is gone stays gone, unless it is flushed again.
  lemma GoneStays(cfg: Config, s: State, step: Step, x: string, it: Elem)
    requires Inv(cfg, s) && Enabled(cfg, s, step) && LeavesAlone(cfg, s, step, x, it) && Gone(cfg, s, x, it)
    ensures Gone(cfg, Apply(cfg, s, step), x, it)
  {
    StepPlaces(cfg, s, step, x, it);
    OnSomeFile(cfg, s, x, it);
    OnSomeFile(cfg, Apply(cfg, s, step), x, it);
    if step.Replay? && (x, it) in Redelivered(StreamAt(cfg, s, step.files), step.ok) {
      RedeliveredIsOnFile(cfg, s, step.files, step.ok, x, it);
    }
    hide RecordsAt, Has, OnAnyFile, Apply, Enabled, Redelivered, StreamAt, Inv, LeavesAlone;
  }

  // ---------- From an append to the removal of the file ----------

  ghost predicate IsRun(cfg: Config, ss: seq<State>, steps: seq<Step>) {
    && |ss| == |steps| + 1 && Inv(cfg, ss[0])
    && forall n :: 0 <= n < |steps| ==> Enabled(cfg, ss[n], steps[n]) && ss[n + 1] == Apply(cfg, ss[n], steps[n])
  }

  lemma {:induction false} InvAlways(cfg: Config, ss: seq<State>, steps: seq<Step>, n: nat)
    requires IsRun(cfg, ss, steps) && n < |ss|
    ensures Inv(cfg, ss[n])
  {
    hide Inv, Apply, Enabled;
    if n > 0 {
      InvAlways(cfg, ss, steps, n - 1);
      InvStep(cfg, ss[n - 1], steps[n - 1]);
    }
  }

  ghost predicate OnlyOn(cfg: Config, s: State, f: string, x: string, it: Elem) {
    forall g :: Has(RecordsAt(cfg.codec, s.store.dir, g), x, it) <==> g == f
  }

  // The step is a replay that delivers the item.
  ghost predicate DeliversAgain(cfg: Config, s: State, step: Step, x: string, it: Elem) {
    step.Replay? && (x, it) in Redelivered(StreamAt(cfg, s, step.files), step.ok)
  }

  // The item is left alone at every step up to n, and its file is not removed.
  ghost predicate Waits(cfg: Config, ss: seq<State>, steps: seq<Step>, n: nat, f: string, x: string, it: Elem)
    requires n <= |steps| < |ss|
  {
    forall m :: 0 <= m < n ==> LeavesAlone(cfg, ss[m], steps[m], x, it) && steps[m] != RemoveDone(f)
  }

  // Some replay among the first n steps delivers the item.
  ghost predicate DeliveredBy(cfg: Config, ss: seq<State>, steps: seq<Step>, n: nat, x: string, it: Elem)
    requires n <= |steps| < |ss|
  {
    exists m :: 0 <= m < n && DeliversAgain(cfg, ss[m], steps[m], x, it)
  }

  lemma DeliveredByNext(cfg: Config, ss: seq<State>, steps: seq<Step>, n: nat, x: string, it: Elem)
    requires 0 < n <= |steps| < |ss|
    ensures DeliveredBy(cfg, ss, steps, n, x, it) <==>
            DeliveredBy(cfg, ss, steps, n - 1, x, it) || DeliversAgain(cfg, ss[n - 1], steps[n - 1], x, it)
  {
    hide DeliversAgain;
  }

  lemma WaitStep(cfg: Config, s: State, step: Step, f: string, x: string, it: Elem)
    requires Inv(cfg, s) && Enabled(cfg, s, step) && LeavesAlone(cfg, s, step, x, it) && step != RemoveDone(f)
    requires OnlyOn(cfg, s, f, x, it)
    ensures var s' := Apply(cfg, s, step);
            && OnlyOn(cfg, s', f, x, it)
            && ((x, it) in s'.delivered <==> (x, it) in s.delivered || DeliversAgain(cfg, s, step, x, it))
  {
    StepPlaces(cfg, s, step, x, it);
    hide RecordsAt, Has, Apply, Enabled, Redelivered, StreamAt, Inv, LeavesAlone;
  }

  lemma {:induction false} WaitsOnFile(cfg: Config, ss: seq<State>, steps: seq<Step>, n: nat, f: string, x: string,
                                       it: Elem)
    requires IsRun(cfg, ss, steps) && n <= |steps| && Waits(cfg, ss, steps, n, f, x, it)
    requires OnlyOn(cfg, ss[0], f, x, it) && (x, it) !in ss[0].delivered
    ensures OnlyOn(cfg, ss[n], f, x, it) && ((x, it) in ss[n].delivered <==> DeliveredBy(cfg, ss, steps, n, x, it))
  {
    if n > 0 {
      hide OnlyOn, DeliversAgain, DeliveredBy, Apply, Enabled, Inv, LeavesAlone;
      WaitsOnFile(cfg, ss, steps, n - 1, f, x, it);
      InvAlways(cfg, ss, steps, n - 1);
      WaitStep(cfg, ss[n - 1], steps[n - 1], f, x, it);
      DeliveredByNext(cfg, ss, steps, n, x, it);
    }
  }

  // An item on one file only, replayed before or not, is lost with the file exactly if no replay
  // in between delivers it.
  lemma RemovalLosesExactly(cfg: Config, ss: seq<State>, steps: seq<Step>, f: string, x: string, it: Elem)
    requires IsRun(cfg, ss, steps) && steps != [] && steps[|steps| - 1] == RemoveDone(f)
    requires Waits(cfg, ss, steps, |steps| - 1, f, x, it) && LeavesAlone(cfg, ss[|steps| - 1], RemoveDone(f), x, it)
    requires OnlyOn(cfg, ss[0], f, x, it) && (x, it) !in ss[0].delivered
    ensures Gone(cfg, ss[|steps|], x, it) <==> !DeliveredBy(cfg, ss, steps, |steps| - 1, x, it)
  {
    var n := |steps| - 1;
    WaitsOnFile(cfg, ss, steps, n, f, x, it);
    InvAlways(cfg, ss, steps, n);
    StepPlaces(cfg, ss[n], steps[n], x, it);
    OnSomeFile(cfg, ss[n + 1], x, it);
    hide RecordsAt, Has, OnAnyFile, Apply, Enabled, Redelivered, StreamAt, Inv, DeliveredBy, Waits, LeavesAlone;
  }

  // ---------- A run that loses an item ----------

  // Every write succeeds, and a first file gets the name f.
  function Plain(f: string): SaveEnv {
    SaveEnv(Created(f), false, _ => ChunkEnv(true, CreateFails))
  }

  predicate RoomFor(c: Codec, s: Store, x: string, it: Elem) {
    c.enc(x, [it]).Some? && s.size + |c.enc(x, [it]).value| + 1 <= MAX_FILE_SIZE
  }

  // One item, one line, no rotation.
  lemma SaveOne(c: Codec, size: nat, s: Store, x: string, it: Elem, f: string, used: set<string>)
    requires size > 0 && s.open == Linked(f) && f in s.dir && RoomFor(c, s, x, it)
    ensures Save(c, size, s, x, [it], Plain(f)) ==
            Out(Append(s, c.enc(x, [it]).value + "\n"), Saved, [(Linked(f), Rec(x, [it], false))])
    ensures FreshNames(c, size, s, x, [it], Plain(f), used)
  {
    var env, batch, line := Plain(f).chunks, [it], c.enc(x, [it]).value;
    var s', e := Append(s, line + "\n"), (Linked(f), Rec(x, [it], false));
    assert batch[0..Min(size, 1)] == batch && batch[Min(0, 1)..Min(0 + size, 1)] == batch && [] + [e] == [e];
    assert AfterChunk(s, line + "\n", env(0).rotation) == s';
    assert FreshChunks(c, size, s', x, batch, size, env, used + s.dir.Keys + s'.dir.Keys);
    assert FreshChunks(c, size, s, x, batch, 0, env, used + s.dir.Keys);
    ChunkStep(c, size, s, x, batch, 0, env, [], used + s.dir.Keys);
    ChunkStep(c, size, s', x, batch, size, env, [e], used + s.dir.Keys + s'.dir.Keys);
    hide SaveChunks, FreshChunks, Append, AfterChunk;
  }

  function Failing(x: string, f: string): seq<Call> {
    [Call(x, true, Plain(f))]
  }

  lemma OneCall(cfg: Config, s: State, batch: seq<Elem>, c: Call)
    requires cfg.size > 0 && cfg.exporters == {c.exporter}
    ensures ExportAll(cfg, s, batch, [c]) == ExportOne(cfg, s, batch, c) && EachOnce(cfg, [c])
    ensures FreshCalls(cfg, s, batch, [c]) <==>
            (c.fails ==> FreshNames(cfg.codec, cfg.size, s.store, c.exporter, batch, c.env, s.used))
  {
    assert [c][1..] == [] && [c][0].exporter == c.exporter;
    hide FreshNames, ExportOne;
  }

  lemma KeepOne(it: Elem, keep: Elem -> bool)
    requires keep(it)
    ensures Filter([it], keep) == [it] && Range([it]) == {it}
  {
    assert [it][..0] == [] && Filter([], keep) == [];
  }

  // A flush of one item whose only export fails and whose save succeeds.
  lemma FlushOne(cfg: Config, s: State, it: Elem, x: string, f: string)
    requires cfg.size > 0 && cfg.exporters == {x} && cfg.keep(it) && s.status != Blocked
    requires SaveResult(cfg, s, x, [it], Plain(f)) == Saved
    requires FreshNames(cfg.codec, cfg.size, s.store, x, [it], Plain(f), s.used)
    ensures Enabled(cfg, s, Flush([it], Failing(x, f)))
    ensures var s' := Apply(cfg, s, Flush([it], Failing(x, f)));
            && s'.store == Save(cfg.codec, cfg.size, s.store, x, [it], Plain(f)).store && s'.status == Recovering
            && s'.delivered == s.delivered && s'.doomed == s.doomed && s'.flushed == s.flushed + {it}
  {
    KeepOne(it, cfg.keep);
    OneCall(cfg, s, [it], Failing(x, f)[0]);
    var s0 := s.(flushed := s.flushed + {it}, dropped := s.dropped + ({it} - {it}));
    OneCall(cfg, s0, [it], Failing(x, f)[0]);
    hide Save, FreshNames, FreshCalls, ExportAll, EachOnce, Filter, Range;
  }

  // The open file holds one record.
  ghost predicate HoldsOne(cfg: Config, s: State, x: string, it: Elem, f: string) {
    && s.store.open == Linked(f) && s.store.dir.Keys == {f} && cfg.codec.enc(x, [it]).Some?
    && s.store.dir[f] == cfg.codec.enc(x, [it]).value + "\n"
  }

  lemma StreamOne(cfg: Config, s: State, x: string, it: Elem, f: string)
    requires ValidCodec(cfg.codec) && HoldsOne(cfg, s, x, it, f) && |cfg.codec.enc(x, [it]).value| < cfg.cap
    ensures StreamAt(cfg, s, [f]) == [Rec(x, [it], false), Rec(f, [], true)]
  {
    var content, r := s.store.dir[f], Rec(x, [it], false);
    HoldsNothing(cfg.codec);
    HoldsMore(cfg.codec, "", [], x, [it]);
    assert "" + cfg.codec.enc(x, [it]).value + "\n" == content && [] + [r] == [r];
    ScanHeld(cfg.codec, cfg.cap, content, [r]);
    hide ScanFile, ValidCodec, Holds;
    assert [f][..0] == [] && RoundTrip.Stream(cfg.codec, cfg.cap, s.store.dir, []) == [];
  }

  // Replaying a file with one record.
  lemma ReplayOne(cfg: Config, s: State, x: string, it: Elem, f: string)
    requires ValidCodec(cfg.codec) && cfg.exporters == {x} && cfg.size > 0 && s.status == Recovering
             && HoldsOne(cfg, s, x, it, f)
    requires |cfg.codec.enc(x, [it]).value| < cfg.cap
    ensures Enabled(cfg, s, Replay([f], _ => true))
    ensures Apply(cfg, s, Replay([f], _ => true)) ==
            s.(delivered := s.delivered + {(x, it)}, doomed := s.doomed + {f}, status := Normal)
  {
    var r, mark := Rec(x, [it], false), Rec(f, [], true);
    StreamOne(cfg, s, x, it, f);
    ConsumeOne(r, mark);
    RedeliveredOne(r, mark, it);
    assert (set g | g in [f]) == {f};
    hide StreamAt, Recovery.Consume, Redelivered, ValidCodec;
  }

  lemma ConsumeOne(r: Rec, mark: Rec)
    requires !r.finish && mark.finish && |r.data| == 1
    ensures Recovery.Consume([r, mark], _ => true) == Recovery.Pass(1, 0, [mark.name], true)
  {
    assert [r, mark][..1] == [r] && [r][..0] == [];
    assert Recovery.Consume([r], _ => true) == Recovery.Pass(1, 0, [], true);
  }

  lemma RedeliveredOne(r: Rec, mark: Rec, it: Elem)
    requires !r.finish && mark.finish && r.data == [it]
    ensures Redelivered([r, mark], _ => true) == {(r.name, it)}
  {
    assert [r, mark][0] == r && it in r.data;
  }

  // A refused batch starts a file, the file is replayed, a second refused batch is appended to it before it is removed,
  // and the item of that batch is gone.
  lemma LostAppendRun(cfg: Config, a: Elem, b: Elem, x: string, f: string) returns (ss: seq<State>, steps: seq<Step>)
    requires ValidCodec(cfg.codec) && cfg.size > 0 && cfg.exporters == {x} && a != b && cfg.keep(a) && cfg.keep(b)
    requires cfg.codec.enc(x, [a]).Some? && |cfg.codec.enc(x, [a]).value| < cfg.cap && cfg.codec.enc(x, [b]).Some?
    requires |cfg.codec.enc(x, [a]).value| + |cfg.codec.enc(x, [b]).value| + 2 <= MAX_FILE_SIZE
    ensures steps == [Flush([a], Failing(x, f)), Replay([f], _ => true), Flush([b], Failing(x, f)), RemoveDone(f)]
    ensures IsRun(cfg, ss, steps) && ss[0] == START
    ensures b in ss[4].flushed && Gone(cfg, ss[4], x, b)
  {
    steps := [Flush([a], Failing(x, f)), Replay([f], _ => true), Flush([b], Failing(x, f)), RemoveDone(f)];
    hide Save, FreshNames, Enabled, Apply, Append, Inv, HoldsOne;
    FirstFlush(cfg, a, x, f);
    var s1 := Apply(cfg, START, steps[0]);
    ReplayOne(cfg, s1, x, a, f);
    var s2 := Apply(cfg, s1, steps[1]);
    SecondFlush(cfg, s1, s2, a, b, x, f);
    var s3 := Apply(cfg, s2, steps[2]);
    Removed(cfg, s3, f);
    var s4 := Apply(cfg, s3, steps[3]);
    ss := [START, s1, s2, s3, s4];
    FreshInv(cfg, START);
  }

  lemma Removed(cfg: Config, s: State, f: string)
    requires cfg.size > 0 && f in s.doomed && s.store.dir.Keys == {f}
    ensures Enabled(cfg, s, RemoveDone(f))
    ensures var s' := Apply(cfg, s, RemoveDone(f));
            s'.store.dir == map[] && s'.delivered == s.delivered && s'.flushed == s.flushed
  {}

  // The first flush of all creates the file.
  lemma FirstFlush(cfg: Config, it: Elem, x: string, f: string)
    requires cfg.size > 0 && cfg.exporters == {x} && cfg.keep(it)
    requires cfg.codec.enc(x, [it]).Some? && |cfg.codec.enc(x, [it]).value| + 1 <= MAX_FILE_SIZE
    ensures Enabled(cfg, START, Flush([it], Failing(x, f)))
    ensures var s' := Apply(cfg, START, Flush([it], Failing(x, f)));
            && HoldsOne(cfg, s', x, it, f) && s'.status == Recovering
               && s'.store.size == |cfg.codec.enc(x, [it]).value| + 1
            && s'.delivered == {} && s'.doomed == {}
  {
    SaveFirst(cfg.codec, cfg.size, x, it, f);
    hide Save, FreshNames;
    FlushOne(cfg, START, it, x, f);
    hide Apply, Enabled;
  }

  lemma SaveFirst(c: Codec, size: nat, x: string, it: Elem, f: string)
    requires size > 0 && c.enc(x, [it]).Some? && |c.enc(x, [it]).value| + 1 <= MAX_FILE_SIZE
    ensures FreshNames(c, size, EMPTY, x, [it], Plain(f), {})
    ensures var o, line := Save(c, size, EMPTY, x, [it], Plain(f)), c.enc(x, [it]).value + "\n";
            o.result == Saved && o.store == Store(map[f := line], Linked(f), |line|)
  {
    var created := Store(map[f := ""], Linked(f), 0);
    SaveOne(c, size, created, x, it, f, {});
    assert Opened(EMPTY, Plain(f)) == created && Opened(created, Plain(f)) == created;
    assert "" + (c.enc(x, [it]).value + "\n") == c.enc(x, [it]).value + "\n";
    assert created.dir[f := c.enc(x, [it]).value + "\n"] == map[f := c.enc(x, [it]).value + "\n"];
    hide SaveChunks, FreshChunks;
  }

  // The second one, after the replay, appends to it.
  lemma SecondFlush(cfg: Config, s1: State, s2: State, a: Elem, b: Elem, x: string, f: string)
    requires cfg.size > 0 && cfg.exporters == {x} && cfg.keep(b) && HoldsOne(cfg, s1, x, a, f)
    requires s2 == s1.(delivered := s1.delivered + {(x, a)}, doomed := s1.doomed + {f}, status := Normal)
    requires RoomFor(cfg.codec, s1.store, x, b)
    ensures Enabled(cfg, s2, Flush([b], Failing(x, f)))
    ensures var s3 := Apply(cfg, s2, Flush([b], Failing(x, f)));
            s3.store.dir.Keys == {f} && s3.delivered == s2.delivered && s3.doomed == s2.doomed && b in s3.flushed
  {
    SaveOne(cfg.codec, cfg.size, s2.store, x, b, f, s2.used);
    hide Save, FreshNames;
    FlushOne(cfg, s2, b, x, f);
    hide Apply, Enabled;
  }

  // ---------- Names that no exporter has ----------

  // Every record is under an exporter's name, or under the pipeline's own name and holds data that was buffered.
  ghost predicate NamedWell(cfg: Config, s: State, r: Rec) {
    r.name in cfg.exporters || (r.name == cfg.pipeline && forall it :: it in r.data ==> it in s.parked)
  }

  ghost predicate NamesInv(cfg: Config, s: State) {
    && (forall f, r :: r in RecordsAt(cfg.codec, s.store.dir, f) ==> NamedWell(cfg, s, r))
    && (forall it :: it in s.blockData ==> it in s.parked)
  }

  lemma {:induction false} LoggedToIn(log: seq<(Handle, Rec)>, f: string, r: Rec)
    requires r in LoggedTo(log, f)
    ensures exists k :: 0 <= k < |log| && log[k].1 == r
  {
    var n := |log| - 1;
    if r in LoggedTo(log[..n], f) {
      LoggedToIn(log[..n], f, r);
      var k :| 0 <= k < n && log[..n][k].1 == r;
      assert log[k].1 == r;
    } else {
      assert log[n].1 == r;
    }
  }

  lemma SpillNames(cfg: Config, s: State, x: string, batch: seq<Elem>, env: SaveEnv)
    requires ValidCodec(cfg.codec) && cfg.size > 0 && DiskInv(cfg, s) && NamesInv(cfg, s)
    requires FreshNames(cfg.codec, cfg.size, s.store, x, batch, env, s.used)
    requires x in cfg.exporters || (x == cfg.pipeline && forall it :: it in batch ==> it in s.parked)
    ensures NamesInv(cfg, Spill(cfg, s, x, batch, env))
  {
    var s', log := Spill(cfg, s, x, batch, env), LogOf(cfg, s, x, batch, env);
    WrittenIsOfBatch(cfg.codec, cfg.size, Opened(s.store, env), x, batch, 0, env.chunks, []);
    assert forall e :: e in log ==> e.1.name == x && forall it :: it in e.1.data ==> it in batch;
    assert s'.parked == s.parked && s'.blockData == s.blockData;
    forall f, r | r in RecordsAt(cfg.codec, s'.store.dir, f) ensures NamedWell(cfg, s', r) {
      SaveExactly(cfg.codec, cfg.size, s.store, x, batch, env, s.used, f);
      if r in RecordsAt(cfg.codec, s.store.dir, f) {
        assert NamedWell(cfg, s, r);
      } else {
        LoggedToIn(log, f, r);
        var k :| 0 <= k < |log| && log[k].1 == r;
        assert log[k] in log;
      }
    }
    hide Save, SaveChunks, RecordsAt, Spill;
  }

  // Nothing on the files changes, and the buffer and what was ever buffered keep their relation.
  lemma NamesFrame(cfg: Config, s: State, s': State)
    requires NamesInv(cfg, s) && s.parked <= s'.parked && (forall it :: it in s'.blockData ==> it in s'.parked)
    requires forall f, r :: r in RecordsAt(cfg.codec, s'.store.dir, f) ==> r in RecordsAt(cfg.codec, s.store.dir, f)
    ensures NamesInv(cfg, s')
  {
    forall f, r | r in RecordsAt(cfg.codec, s'.store.dir, f) ensures NamedWell(cfg, s', r) {
      assert NamedWell(cfg, s, r);
    }
  }

  lemma {:induction false} ExportNames(cfg: Config, s: State, batch: seq<Elem>, calls: seq<Call>)
    requires ValidCodec(cfg.codec) && cfg.size > 0 && DiskInv(cfg, s) && FreshCalls(cfg, s, batch, calls)
             && NamesInv(cfg, s)
    requires forall k :: 0 <= k < |calls| ==> calls[k].exporter in cfg.exporters
    ensures NamesInv(cfg, ExportAll(cfg, s, batch, calls))
    decreases |calls|
  {
    if calls != [] {
      var c := calls[0];
      DiskInvAfterOne(cfg, s, batch, c);
      OneExportNames(cfg, s, batch, c);
      assert forall k :: 0 <= k < |calls[1..]| ==> calls[1..][k] == calls[k + 1];
      hide ExportOne, DiskInv, NamesInv, ValidCodec;
      ExportNames(cfg, ExportOne(cfg, s, batch, c), batch, calls[1..]);
    }
  }

  lemma OneExportNames(cfg: Config, s: State, batch: seq<Elem>, c: Call)
    requires ValidCodec(cfg.codec) && cfg.size > 0 && DiskInv(cfg, s) && NamesInv(cfg, s) && c.exporter in cfg.exporters
    requires c.fails ==> FreshNames(cfg.codec, cfg.size, s.store, c.exporter, batch, c.env, s.used)
    ensures NamesInv(cfg, ExportOne(cfg, s, batch, c))
  {
    if c.fails {
      SpillNames(cfg, s, c.exporter, batch, c.env);
      SameStore(cfg, s, c.exporter, batch, c.env);
      hide Spill, RecordsAt;
      NamesFrame(cfg, Spill(cfg, s, c.exporter, batch, c.env), ExportOne(cfg, s, batch, c));
    } else {
      NamesFrame(cfg, s, ExportOne(cfg, s, batch, c));
    }
  }

  lemma FlushNames(cfg: Config, s: State, batch: seq<Elem>, calls: seq<Call>)
    requires Inv(cfg, s) && Enabled(cfg, s, Flush(batch, calls)) && NamesInv(cfg, s)
    ensures NamesInv(cfg, FlushBatch(cfg, s, batch, calls))
  {
    if s.status == Blocked {
      NamesFrame(cfg, s, FlushBatch(cfg, s, batch, calls));
    } else {
      var kept := Filter(batch, cfg.keep);
      var s0 := s.(flushed := s.flushed + Range(kept), dropped := s.dropped + (Range(batch) - Range(kept)));
      FreshCallsFrame(cfg, s, s0, kept, calls);
      assert DiskInv(cfg, s0);
      NamesFrame(cfg, s, s0);
      hide FreshCalls, ExportAll, NamesInv;
      ExportNames(cfg, s0, kept, calls);
    }
  }

  lemma NamesStep(cfg: Config, s: State, step: Step)
    requires Inv(cfg, s) && Enabled(cfg, s, step) && NamesInv(cfg, s)
    ensures NamesInv(cfg, Apply(cfg, s, step))
  {
    var s' := Apply(cfg, s, step);
    match step
    case Flush(batch, calls) =>
      hide FlushBatch, NamesInv, Inv, Enabled;
      FlushNames(cfg, s, batch, calls);
    case SaveBlocked(full, env) =>
      if !full {
        SpillNames(cfg, s, cfg.pipeline, s.blockData, env);
        hide Spill, SaveResult, RecordsAt;
        NamesFrame(cfg, Spill(cfg, s, cfg.pipeline, s.blockData, env), s');
      }
    case _ => NamesFrame(cfg, s, s');
  }

  // A replay of records named so meets a name without an exporter exactly if the pipeline's own name has none and
  // there is a record under it, which holds data that was buffered while the pipeline was blocked.
  lemma UnregisteredExactly(cfg: Config, s: State, files: seq<string>)
    requires Inv(cfg, s) && NamesInv(cfg, s)
    ensures !Registered(cfg, s, files) <==>
            cfg.pipeline !in cfg.exporters
            && exists r :: r in StreamAt(cfg, s, files) && !r.finish && r.name == cfg.pipeline
    ensures forall r :: r in StreamAt(cfg, s, files) && !r.finish && r.name !in cfg.exporters ==>
              forall it :: it in r.data ==> it in s.parked
  {
    forall r | r in StreamAt(cfg, s, files) && !r.finish ensures NamedWell(cfg, s, r) {
      StreamIsOnFile(cfg, s, files, r);
      var f :| f in s.store.dir && r in Records(cfg.codec, s.store.dir[f]);
      assert r in RecordsAt(cfg.codec, s.store.dir, f);
    }
  }

  function OnFullDisk(x: string, f: string): seq<Call> {
    [Call(x, true, SaveEnv(Created(f), true, _ => ChunkEnv(true, CreateFails)))]
  }

  // The very first flush meets a full disk: the file is created and nothing is written to it.
  lemma FirstFlushBlocks(cfg: Config, a: Elem, x: string, f: string)
    requires cfg.size > 0 && cfg.exporters == {x} && cfg.keep(a)
    ensures Enabled(cfg, START, Flush([a], OnFullDisk(x, f)))
    ensures var s' := Apply(cfg, START, Flush([a], OnFullDisk(x, f)));
            && s'.store == Store(map[f := ""], Linked(f), 0) && s'.status == Blocked && s'.blockData == []
            && s'.delivered == {}
  {
    var c := OnFullDisk(x, f)[0];
    KeepOne(a, cfg.keep);
    OneCall(cfg, START, [a], c);
    var s0 := START.(flushed := START.flushed + {a}, dropped := START.dropped + ({a} - {a}));
    OneCall(cfg, s0, [a], c);
    assert EMPTY.dir[f := ""] == map[f := ""];
    assert SaveResult(cfg, s0, x, [a], c.env) == DiskFull;
    hide FreshCalls, ExportAll, EachOnce, Filter, Range;
  }

  lemma SecondFlushParks(cfg: Config, s: State, b: Elem, x: string, f: string)
    requires cfg.size > 0 && cfg.exporters == {x} && s.status == Blocked && s.blockData == []
    ensures Enabled(cfg, s, Flush([b], OnFullDisk(x, f)))
    ensures Apply(cfg, s, Flush([b], OnFullDisk(x, f))) == s.(blockData := [b], parked := s.parked + Range([b]))
  {
    OneCall(cfg, s, [b], OnFullDisk(x, f)[0]);
    hide FreshCalls, ExportAll, EachOnce, Range;
  }

  lemma BufferSaved(cfg: Config, s: State, b: Elem, f: string)
    requires cfg.size > 0 && s.status == Blocked && s.blockData == [b] && s.store == Store(map[f := ""], Linked(f), 0)
    requires RoomFor(cfg.codec, s.store, cfg.pipeline, b)
    ensures Enabled(cfg, s, SaveBlocked(false, Plain(f)))
    ensures var s' := Apply(cfg, s, SaveBlocked(false, Plain(f)));
            s'.status == Recovering && HoldsOne(cfg, s', cfg.pipeline, b, f)
  {
    SaveOne(cfg.codec, cfg.size, s.store, cfg.pipeline, b, f, s.used);
    assert "" + (cfg.codec.enc(cfg.pipeline, [b]).value + "\n") == cfg.codec.enc(cfg.pipeline, [b]).value + "\n";
    hide Save, FreshNames;
  }

  // A full disk, a batch flushed meanwhile, and room again: the next recovery tick meets a name that no exporter has.
  lemma UnregisteredRun(cfg: Config, a: Elem, b: Elem, x: string, f: string) returns (ss: seq<State>, steps: seq<Step>)
    requires ValidCodec(cfg.codec) && cfg.size > 0 && cfg.exporters == {x} && cfg.pipeline != x && cfg.keep(a)
    requires cfg.codec.enc(cfg.pipeline, [b]).Some? && |cfg.codec.enc(cfg.pipeline, [b]).value| < cfg.cap
    requires |cfg.codec.enc(cfg.pipeline, [b]).value| + 1 <= MAX_FILE_SIZE
    ensures steps == [Flush([a], OnFullDisk(x, f)), Flush([b], OnFullDisk(x, f)), SaveBlocked(false, Plain(f))]
    ensures IsRun(cfg, ss, steps) && ss[0] == START
    ensures ss[3].status == Recovering && IsListing([f], ss[3].store.dir.Keys) && !Registered(cfg, ss[3], [f])
  {
    steps := [Flush([a], OnFullDisk(x, f)), Flush([b], OnFullDisk(x, f)), SaveBlocked(false, Plain(f))];
    hide Apply, Enabled, Inv, Registered, HoldsOne, Range, RoomFor;
    FirstFlushBlocks(cfg, a, x, f);
    var s1 := Apply(cfg, START, steps[0]);
    SecondFlushParks(cfg, s1, b, x, f);
    var s2 := Apply(cfg, s1, steps[1]);
    assert RoomFor(cfg.codec, s2.store, cfg.pipeline, b) by { RoomInEmptyFile(cfg.codec, s2.store, cfg.pipeline, b); }
    BufferSaved(cfg, s2, b, f);
    var s3 := Apply(cfg, s2, steps[2]);
    MeetsPipelineName(cfg, s3, b, f);
    FreshInv(cfg, START);
    ss := [START, s1, s2, s3];
  }

  lemma RoomInEmptyFile(c: Codec, s: Store, x: string, it: Elem)
    requires s.size == 0 && c.enc(x, [it]).Some? && |c.enc(x, [it]).value| + 1 <= MAX_FILE_SIZE
    ensures RoomFor(c, s, x, it)
  {}

  lemma MeetsPipelineName(cfg: Config, s: State, b: Elem, f: string)
    requires ValidCodec(cfg.codec) && HoldsOne(cfg, s, cfg.pipeline, b, f) && cfg.pipeline !in cfg.exporters
    requires |cfg.codec.enc(cfg.pipeline, [b]).value| < cfg.cap
    ensures IsListing([f], s.store.dir.Keys) && !Registered(cfg, s, [f])
  {
    StreamOne(cfg, s, cfg.pipeline, b, f);
    assert StreamAt(cfg, s, [f])[0] in StreamAt(cfg, s, [f]);
  }
}
