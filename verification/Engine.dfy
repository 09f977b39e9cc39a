/**
 The delivery side of the pipeline (pkg/pipeline/core.go and state.go): flushing a batch to every exporter, spilling
 what an exporter refuses to backup files, replaying the files, and the status that goes with it.

 A flush, a recovery tick and the removal of a replayed file are one step each.  Removal happens some time after the
 replay; until then, and forever if it hits the file that is still open, appends to that file are not replayed.
 */
module Engine {
  import opened Wrappers
  import opened Framing
  import opened FileNames
  import opened Storage
  import RoundTrip
  import Recovery

  datatype Status = Normal | Blocked | Recovering

  datatype Config = Config(codec: Codec, size: nat, cap: nat, pipeline: string, exporters: set<string>,
                           keep: Elem -> bool)

  // `doomed`: replayed files whose removal is under way.  `used`: every file name ever created.
  // History: what was flushed while not blocked and kept by the filters, what was flushed while blocked, what the
  // filters dropped, what each exporter was given successfully, and the two ways an item can be lost to it: the save
  // returned an error, or the record went to a file that was already replayed or removed.
  datatype State = State(
    status: Status, blockData: seq<Elem>, store: Store, doomed: set<string>, used: set<string>,
    flushed: set<Elem>, parked: set<Elem>, dropped: set<Elem>,
    delivered: set<(string, Elem)>, saveLost: set<(string, Elem)>, appendLost: set<(string, Elem)>)

  const START := State(Normal, [], EMPTY, {}, {}, {}, {}, {}, {}, {}, {})

  // How one exporter's call ends, and what the environment does to the save if it fails.
  datatype Call = Call(exporter: string, fails: bool, env: SaveEnv)

  datatype Step =
    | Flush(batch: seq<Elem>, calls: seq<Call>)
    | Replay(files: seq<string>, ok: nat -> bool)  // a recovery tick while recovering
    | SaveBlocked(full: bool, env: SaveEnv)        // a recovery tick while blocked
    | RemoveDone(f: string)
    | RemoveFailed(f: string)

  function Pairs(x: string, items: seq<Elem>): set<(string, Elem)> {
    set it | it in items :: (x, it)
  }

  predicate Dead(h: Handle, doomed: set<string>) {
    h.Unlinked? || (h.Linked? && h.name in doomed)
  }

  function DeadItems(log: seq<(Handle, Rec)>, doomed: set<string>): set<Elem> {
    set k, it | 0 <= k < |log| && Dead(log[k].0, doomed) && it in log[k].1.data :: it
  }

  // Saving a batch under a name: the store afterwards, and what went to a file that will not be replayed.
  function Spill(cfg: Config, s: State, x: string, batch: seq<Elem>, env: SaveEnv): State
    requires cfg.size > 0
  {
    var o := Save(cfg.codec, cfg.size, s.store, x, batch, env);
    s.(store := o.store, used := s.used + o.store.dir.Keys,
       appendLost := s.appendLost + set it | it in DeadItems(o.written, s.doomed) :: (x, it))
  }

  function SaveResult(cfg: Config, s: State, x: string, batch: seq<Elem>, env: SaveEnv): Result
    requires cfg.size > 0
  {
    Save(cfg.codec, cfg.size, s.store, x, batch, env).result
  }

  function HandleExportError(cfg: Config, s: State, x: string, batch: seq<Elem>, env: SaveEnv): State
    requires cfg.size > 0
  {
    var s' := Spill(cfg, s, x, batch, env);
    match SaveResult(cfg, s, x, batch, env)
    case Saved => s'.(status := Recovering)
    case DiskFull => s'.(status := Blocked, saveLost := s.saveLost + Pairs(x, batch))
    case Failed => s'.(saveLost := s.saveLost + Pairs(x, batch))
  }

  function ExportOne(cfg: Config, s: State, batch: seq<Elem>, c: Call): State
    requires cfg.size > 0
  {
    if c.fails then HandleExportError(cfg, s, c.exporter, batch, c.env)
    else s.(delivered := s.delivered + Pairs(c.exporter, batch))
  }

  function ExportAll(cfg: Config, s: State, batch: seq<Elem>, calls: seq<Call>): State
    requires cfg.size > 0
    decreases |calls|
  {
    if calls == [] then s else ExportAll(cfg, ExportOne(cfg, s, batch, calls[0]), batch, calls[1..])
  }

  function Filter(batch: seq<Elem>, keep: Elem -> bool): (r: seq<Elem>)
    ensures forall it :: it in r <==> it in batch && keep(it)
  {
    if batch == [] then []
    else
      var last := batch[|batch| - 1];
      assert batch == batch[..|batch| - 1] + [last];
      Filter(batch[..|batch| - 1], keep) + if keep(last) then [last] else []
  }

  // Filtering keeps every item that passes as often as it was there, and no other.
  lemma {:induction false} FilterCounts(batch: seq<Elem>, keep: Elem -> bool, it: Elem)
    ensures multiset(Filter(batch, keep))[it] == if keep(it) then multiset(batch)[it] else 0
  {
    if batch != [] {
      var n := |batch| - 1;
      FilterCounts(batch[..n], keep, it);
      assert batch == batch[..n] + [batch[n]];
      assert multiset(batch) == multiset(batch[..n]) + multiset{batch[n]};
    }
  }

  // The places of the kept items in the batch, from the front to the back.
  ghost predicate Picks(batch: seq<Elem>, places: seq<nat>, kept: seq<Elem>) {
    && |places| == |kept|
    && (forall i, j :: 0 <= i < j < |places| ==> places[i] < places[j])
    && forall i :: 0 <= i < |places| ==> places[i] < |batch| && kept[i] == batch[places[i]]
  }

  // It keeps their order.
  lemma {:induction false} FilterPicks(batch: seq<Elem>, keep: Elem -> bool)
    ensures exists places :: Picks(batch, places, Filter(batch, keep))
  {
    if batch == [] {
      assert Picks(batch, [], Filter(batch, keep));
    } else {
      var n := |batch| - 1;
      FilterPicks(batch[..n], keep);
      var kept := Filter(batch[..n], keep);
      var places :| Picks(batch[..n], places, kept);
      assert Filter(batch, keep) == kept + if keep(batch[n]) then [batch[n]] else [];
      hide Filter;
      var places' := PicksMore(batch, n, places, kept, keep(batch[n]));
    }
  }

  lemma PicksMore(batch: seq<Elem>, n: nat, places: seq<nat>, kept: seq<Elem>, keeps: bool) returns (places': seq<nat>)
    requires n < |batch| && Picks(batch[..n], places, kept)
    ensures Picks(batch, places', kept + if keeps then [batch[n]] else [])
  {
    places' := places + if keeps then [n] else [];
    var kept' := kept + if keeps then [batch[n]] else [];
    forall i, j | 0 <= i < j < |places'| ensures places'[i] < places'[j] { assert i < |places|; }
    forall i | 0 <= i < |places'| ensures places'[i] < |batch| && kept'[i] == batch[places'[i]] {}
  }

  lemma FilterLast(batch: seq<Elem>, last: Elem, keep: Elem -> bool)
    ensures Filter(batch + [last], keep) == Filter(batch, keep) + if keep(last) then [last] else []
  {
    assert (batch + [last])[..|batch|] == batch;
  }

  lemma Regroup(a: seq<Elem>, b: seq<Elem>, c: seq<Elem>)
    ensures (a + b) + c == a + (b + c)
  {}

  lemma FilterAppend(a: seq<Elem>, b: seq<Elem>, last: Elem, keep: Elem -> bool)
    requires Filter(a + b, keep) == Filter(a, keep) + Filter(b, keep)
    ensures Filter(a + (b + [last]), keep) == Filter(a, keep) + Filter(b + [last], keep)
  {
    Regroup(a, b, [last]);
    Regroup(Filter(a, keep), Filter(b, keep), if keep(last) then [last] else []);
    FilterLast(a + b, last, keep);
    FilterLast(b, last, keep);
    hide Filter;
  }

  lemma {:induction false} FilterConcat(a: seq<Elem>, b: seq<Elem>, keep: Elem -> bool)
    ensures Filter(a + b, keep) == Filter(a, keep) + Filter(b, keep)
    decreases |b|
  {
    if b == [] {
      assert a + b == a;
    } else {
      var n := |b| - 1;
      FilterConcat(a, b[..n], keep);
      FilterAppend(a, b[..n], b[n], keep);
      assert b[..n] + [b[n]] == b;
      hide Filter;
    }
  }

  lemma {:induction false} FilterAll(batch: seq<Elem>, keep: Elem -> bool)
    requires forall it :: it in batch ==> keep(it)
    ensures Filter(batch, keep) == batch
  {
    if batch != [] {
      var n := |batch| - 1;
      FilterAll(batch[..n], keep);
      assert batch == batch[..n] + [batch[n]];
    }
  }

  function Range(s: seq<Elem>): set<Elem> {
    set it | it in s
  }

  function FlushBatch(cfg: Config, s: State, batch: seq<Elem>, calls: seq<Call>): State
    requires cfg.size > 0
  {
    if s.status == Blocked then s.(blockData := s.blockData + batch, parked := s.parked + Range(batch))
    else
      var kept := Filter(batch, cfg.keep);
      ExportAll(cfg, s.(flushed := s.flushed + Range(kept), dropped := s.dropped + (Range(batch) - Range(kept))),
                kept, calls)
  }

  function StreamAt(cfg: Config, s: State, files: seq<string>): seq<Rec> {
    RoundTrip.Stream(cfg.codec, cfg.cap, s.store.dir, files)
  }

  function Redelivered(stream: seq<Rec>, ok: nat -> bool): set<(string, Elem)> {
    set k, it | 0 <= k < |stream| && !stream[k].finish && ok(k) && it in stream[k].data :: (stream[k].name, it)
  }

  function TryRecover(cfg: Config, s: State, files: seq<string>, ok: nat -> bool): State {
    var stream := StreamAt(cfg, s, files);
    var p := Recovery.Consume(stream, ok);
    s.(delivered := s.delivered + Redelivered(stream, ok),
       doomed := s.doomed + (set f | f in p.removed),
       status := if p.successCount > 0 && p.errorCount == 0 then Normal else s.status)
  }

  function SaveBlockData(cfg: Config, s: State, full: bool, env: SaveEnv): State
    requires cfg.size > 0
  {
    if full then s
    else
      var s' := Spill(cfg, s, cfg.pipeline, s.blockData, env);
      if SaveResult(cfg, s, cfg.pipeline, s.blockData, env) == Saved then s'.(blockData := [], status := Recovering)
        else s'
  }

  function Apply(cfg: Config, s: State, step: Step): State
    requires cfg.size > 0
  {
    match step
    case Flush(batch, calls) => FlushBatch(cfg, s, batch, calls)
    case Replay(files, ok) => TryRecover(cfg, s, files, ok)
    case SaveBlocked(full, env) => SaveBlockData(cfg, s, full, env)
    case RemoveDone(f) => s.(store := Remove(s.store, f), doomed := s.doomed - {f})
    case RemoveFailed(f) => s.(doomed := s.doomed - {f})
  }

  // ---------- What the environment may do ----------

  predicate FreshCalls(cfg: Config, s: State, batch: seq<Elem>, calls: seq<Call>)
    requires cfg.size > 0
    decreases |calls|
  {
    calls != [] ==>
      && (calls[0].fails ==> FreshNames(cfg.codec, cfg.size, s.store, calls[0].exporter, batch, calls[0].env, s.used))
      && FreshCalls(cfg, ExportOne(cfg, s, batch, calls[0]), batch, calls[1..])
  }

  // Every name that a replay meets is the name of an exporter; the source dereferences nil otherwise.
  predicate Registered(cfg: Config, s: State, files: seq<string>) {
    forall r :: r in StreamAt(cfg, s, files) && !r.finish ==> r.name in cfg.exporters
  }

  // The exporters are called once each, in any order.
  predicate EachOnce(cfg: Config, calls: seq<Call>) {
    && (forall x :: x in cfg.exporters ==> exists k :: 0 <= k < |calls| && calls[k].exporter == x)
    && (forall k :: 0 <= k < |calls| ==> calls[k].exporter in cfg.exporters)
    && (forall k, l :: 0 <= k < l < |calls| ==> calls[k].exporter != calls[l].exporter)
  }

  // New backup files get names not used before; a replay lists the directory and meets registered names only.
  ghost predicate Enabled(cfg: Config, s: State, step: Step)
    requires cfg.size > 0
  {
    match step
    case Flush(batch, calls) => EachOnce(cfg, calls)
      && (s.status != Blocked ==> FreshCalls(cfg, s, Filter(batch, cfg.keep), calls))
    case Replay(files, ok) => s.status == Recovering && IsListing(files, s.store.dir.Keys) && Registered(cfg, s, files)
    case SaveBlocked(full, env) =>
      s.status == Blocked && FreshNames(cfg.codec, cfg.size, s.store, cfg.pipeline, s.blockData, env, s.used)
    case RemoveDone(f) => f in s.doomed
    case RemoveFailed(f) => f in s.doomed
  }

  // ---------- Accounting ----------

  ghost predicate Has(recs: seq<Rec>, x: string, it: Elem) {
    exists r :: r in recs && r.name == x && it in r.data
  }

  // On a backup file that has a name and is yet to be replayed.
  ghost predicate OnFile(cfg: Config, s: State, x: string, it: Elem) {
    exists f :: f in s.store.dir && f !in s.doomed && Has(Records(cfg.codec, s.store.dir[f]), x, it)
  }

  ghost predicate Accounted(cfg: Config, s: State, x: string, it: Elem) {
    (x, it) in s.delivered || OnFile(cfg, s, x, it) || (x, it) in s.saveLost || (x, it) in s.appendLost
  }

  ghost predicate DiskInv(cfg: Config, s: State) {
    WellKept(cfg.codec, s.store) && s.store.dir.Keys <= s.used && s.doomed <= s.store.dir.Keys
  }

  // Kept items are owed to every exporter; items flushed while blocked are owed to the pipeline's own name once
  // they have left the buffer.
  predicate Owed(cfg: Config, s: State, x: string, it: Elem) {
    (x in cfg.exporters && it in s.flushed) || (x == cfg.pipeline && it in s.parked && it !in s.blockData)
  }

  ghost predicate Inv(cfg: Config, s: State) {
    && ValidCodec(cfg.codec) && cfg.size > 0
    && DiskInv(cfg, s)
    && (forall x, it :: Owed(cfg, s, x, it) ==> Accounted(cfg, s, x, it))
    && (s.blockData != [] ==> s.status == Blocked)
  }

  // Records, deliveries and losses are only ever added to.
  ghost predicate Extends(cfg: Config, s: State, s': State) {
    && Grew(cfg.codec, s.store, s'.store) && s'.doomed == s.doomed && s'.flushed == s.flushed
    && s.delivered <= s'.delivered && s.saveLost <= s'.saveLost && s.appendLost <= s'.appendLost
  }

  lemma ExtendsAccounted(cfg: Config, s: State, s': State, x: string, it: Elem)
    requires Extends(cfg, s, s') && Accounted(cfg, s, x, it)
    ensures Accounted(cfg, s', x, it)
  {
    if OnFile(cfg, s, x, it) {
      var f :| f in s.store.dir && f !in s.doomed && Has(Records(cfg.codec, s.store.dir[f]), x, it);
      assert Has(Records(cfg.codec, s'.store.dir[f]), x, it);
    }
  }

  // Saving keeps everything that was accounted for; if it succeeds, the batch is accounted for as well.
  lemma SpillAccounts(cfg: Config, s: State, x: string, batch: seq<Elem>, env: SaveEnv)
    requires ValidCodec(cfg.codec) && cfg.size > 0 && DiskInv(cfg, s)
    requires FreshNames(cfg.codec, cfg.size, s.store, x, batch, env, s.used)
    ensures var s' := Spill(cfg, s, x, batch, env);
            && DiskInv(cfg, s') && Extends(cfg, s, s')
            && (SaveResult(cfg, s, x, batch, env) == Saved ==> forall it :: it in batch ==> Accounted(cfg, s', x, it))
  {
    var s' := Spill(cfg, s, x, batch, env);
    var o := Save(cfg.codec, cfg.size, s.store, x, batch, env);
    SaveGrew(cfg.codec, cfg.size, s.store, x, batch, env, s.used);
    forall it | it in batch && o.result == Saved ensures Accounted(cfg, s', x, it) {
      assert InLog(o.written, it);
      var k :| 0 <= k < |o.written| && it in o.written[k].1.data;
      if Dead(o.written[k].0, s.doomed) {
        assert it in DeadItems(o.written, s.doomed);
      } else {
        assert Has(Records(cfg.codec, o.store.dir[o.written[k].0.name]), x, it);
      }
    }
  }

  lemma HandleErrorAccounts(cfg: Config, s: State, x: string, batch: seq<Elem>, env: SaveEnv)
    requires ValidCodec(cfg.codec) && cfg.size > 0 && DiskInv(cfg, s)
    requires FreshNames(cfg.codec, cfg.size, s.store, x, batch, env, s.used)
    ensures var s' := HandleExportError(cfg, s, x, batch, env);
            DiskInv(cfg, s') && Extends(cfg, s, s') && forall it :: it in batch ==> Accounted(cfg, s', x, it)
  {
    SpillAccounts(cfg, s, x, batch, env);
    hide Spill, SaveResult;
    var s1, s' := Spill(cfg, s, x, batch, env), HandleExportError(cfg, s, x, batch, env);
    assert Extends(cfg, s1, s');
    forall it | it in batch ensures Accounted(cfg, s', x, it) {
      if SaveResult(cfg, s, x, batch, env) == Saved { ExtendsAccounted(cfg, s1, s', x, it); }
      else { assert (x, it) in Pairs(x, batch); }
    }
  }

  lemma {:induction false} ExportAllAccounts(cfg: Config, s: State, batch: seq<Elem>, calls: seq<Call>)
    requires ValidCodec(cfg.codec) && cfg.size > 0 && DiskInv(cfg, s) && FreshCalls(cfg, s, batch, calls)
    ensures var s' := ExportAll(cfg, s, batch, calls);
            && DiskInv(cfg, s') && Extends(cfg, s, s') && s'.blockData == s.blockData && s'.parked == s.parked
            && forall k, it :: 0 <= k < |calls| && it in batch ==> Accounted(cfg, s', calls[k].exporter, it)
    decreases |calls|
  {
    if calls != [] {
      var s1 := ExportOne(cfg, s, batch, calls[0]);
      if calls[0].fails { HandleErrorAccounts(cfg, s, calls[0].exporter, batch, calls[0].env); }
      assert forall it :: it in batch ==> Accounted(cfg, s1, calls[0].exporter, it) by {
        if !calls[0].fails {
          assert forall it :: it in batch ==> (calls[0].exporter, it) in Pairs(calls[0].exporter, batch);
        }
      }
      ExportAllAccounts(cfg, s1, batch, calls[1..]);
      var s' := ExportAll(cfg, s1, batch, calls[1..]);
      hide ExportOne, HandleExportError, Accounted, DiskInv, FreshCalls;
      GrewTwice(cfg.codec, s.store, s1.store, s'.store);
      forall k, it | 0 <= k < |calls| && it in batch ensures Accounted(cfg, s', calls[k].exporter, it) {
        if k == 0 { ExtendsAccounted(cfg, s1, s', calls[0].exporter, it); }
        else { assert calls[k] == calls[1..][k - 1]; }
      }
    }
  }

  lemma FlushAccounts(cfg: Config, s: State, batch: seq<Elem>, calls: seq<Call>)
    requires Inv(cfg, s) && Enabled(cfg, s, Flush(batch, calls))
    ensures Inv(cfg, FlushBatch(cfg, s, batch, calls))
  {
    var s' := FlushBatch(cfg, s, batch, calls);
    if s.status == Blocked {
      forall x, it | Owed(cfg, s', x, it) ensures Accounted(cfg, s', x, it) {
        assert Owed(cfg, s, x, it);
        ExtendsAccounted(cfg, s, s', x, it);
      }
    } else {
      var kept := Filter(batch, cfg.keep);
      var s0 := s.(flushed := s.flushed + Range(kept), dropped := s.dropped + (Range(batch) - Range(kept)));
      FreshCallsFrame(cfg, s, s0, kept, calls);
      ExportAllAccounts(cfg, s0, kept, calls);
      hide FreshCalls, ExportAll, DiskInv;
      forall x, it | Owed(cfg, s', x, it) ensures Accounted(cfg, s', x, it) {
        if x in cfg.exporters && it in kept {
          var k :| 0 <= k < |calls| && calls[k].exporter == x;
        } else {
          assert Owed(cfg, s, x, it) && Accounted(cfg, s, x, it);
          assert Accounted(cfg, s0, x, it) by { if OnFile(cfg, s, x, it) { assert OnFile(cfg, s0, x, it); } }
          ExtendsAccounted(cfg, s0, s', x, it);
        }
      }
    }
  }

  // The history does not matter to what is saved.
  lemma {:induction false} FreshCallsFrame(cfg: Config, s: State, s': State, batch: seq<Elem>, calls: seq<Call>)
    requires cfg.size > 0 && s'.store == s.store && s'.used == s.used && s'.status == s.status && s'.doomed == s.doomed
    ensures FreshCalls(cfg, s', batch, calls) == FreshCalls(cfg, s, batch, calls)
    decreases |calls|
  {
    if calls != [] {
      FreshCallsFrame(cfg, ExportOne(cfg, s, batch, calls[0]), ExportOne(cfg, s', batch, calls[0]), batch, calls[1..]);
    }
  }

  // ---------- Replay ----------

  lemma {:induction false} AllOkAt(ok: nat -> bool, start: nat, n: nat, j: nat)
    requires Recovery.AllOk(ok, start, n) && j < n
    ensures ok(start + j)
  {
    if j < n - 1 { AllOkAt(ok, start, n - 1, j); }
  }

  lemma {:induction false} StreamPrefix(segs: seq<Recovery.Segment>, i: nat, n: nat)
    requires i <= n <= |segs|
    ensures Recovery.StreamOf(segs[..i]) <= Recovery.StreamOf(segs[..n])
    decreases n
  {
    if i < n {
      StreamPrefix(segs, i, n - 1);
      Recovery.StreamOfNext(segs, n);
    }
  }

  // Batch j of file i in the stream.
  lemma StreamAtFile(segs: seq<Recovery.Segment>, i: nat, j: nat)
    requires i < |segs| && j < |segs[i].batches|
    ensures var k := |Recovery.StreamOf(segs[..i])| + j;
            k < |Recovery.StreamOf(segs)| && Recovery.StreamOf(segs)[k] == segs[i].batches[j]
  {
    Recovery.StreamOfNext(segs, i + 1);
    StreamPrefix(segs, i + 1, |segs|);
    assert segs[..|segs|] == segs;
  }

  lemma DirDataOnly(cfg: Config, s: State, files: seq<string>)
    requires ValidCodec(cfg.codec) && WellKept(cfg.codec, s.store)
    ensures Recovery.DataOnly(Recovery.Segments(cfg.codec, cfg.cap, s.store.dir, files))
    ensures forall i :: 0 <= i < |files| && files[i] in s.store.dir ==>
      var scan := RoundTrip.ScanAt(cfg.codec, cfg.cap, s.store.dir, files[i]);
      scan.complete ==> scan.batches == Records(cfg.codec, s.store.dir[files[i]])
  {
    forall i | 0 <= i < |files| && files[i] in s.store.dir
      ensures var scan := RoundTrip.ScanAt(cfg.codec, cfg.cap, s.store.dir, files[i]);
              && (scan.complete ==> scan.batches == Records(cfg.codec, s.store.dir[files[i]]))
              && forall j :: 0 <= j < |scan.batches| ==> !scan.batches[j].finish
    {
      var content := s.store.dir[files[i]];
      var recs := Records(cfg.codec, content);
      assert Kept(cfg.codec, content);
      ScanHeld(cfg.codec, cfg.cap, content, recs);
      HeldIsData(cfg.codec, content, recs);
    }
  }

  lemma HeldIsData(c: Codec, content: string, recs: seq<Rec>)
    requires Holds(c, content, recs)
    ensures forall k :: 0 <= k < |recs| ==> !recs[k].finish
  {
    var lines :| Writes(c, lines, recs) && content == Frame(lines);
  }

  lemma AtPosition(stream: seq<Rec>, ok: nat -> bool, k: nat, x: string, it: Elem)
    requires k < |stream| && !stream[k].finish && ok(k) && it in stream[k].data && stream[k].name == x
    ensures (x, it) in Redelivered(stream, ok)
  {}

  lemma SegmentIsData(segs: seq<Recovery.Segment>, i: nat)
    requires Recovery.DataOnly(segs) && i < |segs|
    ensures forall j :: 0 <= j < |segs[i].batches| ==> !segs[i].batches[j].finish
  {}

  lemma ExportedAt(segs: seq<Recovery.Segment>, ok: nat -> bool, i: nat, j: nat)
    requires i < |segs| && j < |segs[i].batches| && Recovery.Exported(segs, ok, i)
    ensures exists k: nat :: k < |Recovery.StreamOf(segs)| && Recovery.StreamOf(segs)[k] == segs[i].batches[j] && ok(k)
  {
    StreamAtFile(segs, i, j);
    AllOkAt(ok, |Recovery.StreamOf(segs[..i])|, |segs[i].batches|, j);
  }

  lemma ExportedIsRedelivered(segs: seq<Recovery.Segment>, ok: nat -> bool, i: nat, x: string, it: Elem)
    requires i < |segs| && Recovery.Exported(segs, ok, i)
    requires forall j :: 0 <= j < |segs[i].batches| ==> !segs[i].batches[j].finish
    requires Has(segs[i].batches, x, it)
    ensures (x, it) in Redelivered(Recovery.StreamOf(segs), ok)
  {
    hide Redelivered, Recovery.StreamOf, Recovery.Exported;
    var r :| r in segs[i].batches && r.name == x && it in r.data;
    var j: nat :| j < |segs[i].batches| && segs[i].batches[j] == r;
    ExportedAt(segs, ok, i, j);
    var k: nat :| k < |Recovery.StreamOf(segs)| && Recovery.StreamOf(segs)[k] == segs[i].batches[j] && ok(k);
    AtPosition(Recovery.StreamOf(segs), ok, k, x, it);
  }

  // Everything on a file that a replay hands to removal has been given to its exporter in that replay.
  lemma RemovedWasDelivered(cfg: Config, s: State, files: seq<string>, ok: nat -> bool, f: string, x: string, it: Elem)
    requires ValidCodec(cfg.codec) && WellKept(cfg.codec, s.store) && IsListing(files, s.store.dir.Keys)
    requires f in Recovery.Consume(StreamAt(cfg, s, files), ok).removed
    ensures f in s.store.dir
    ensures Has(Records(cfg.codec, s.store.dir[f]), x, it) ==> (x, it) in Redelivered(StreamAt(cfg, s, files), ok)
  {
    var segs := Recovery.Segments(cfg.codec, cfg.cap, s.store.dir, files);
    Recovery.StreamIsSegments(cfg.codec, cfg.cap, s.store.dir, files);
    DirDataOnly(cfg, s, files);
    hide Records, RoundTrip.ScanAt, Recovery.Consume, Recovery.StreamOf, Recovery.Exported, Recovery.NothingCarried,
      Redelivered, Has, WellKept, ValidCodec, Recovery.DataOnly;
    Recovery.RemovedExactly(segs, ok, f);
    var i: nat :| i < |segs| && segs[i].file == f && Recovery.Removable(segs, ok, i);
    assert files[i] in files;
    if Has(Records(cfg.codec, s.store.dir[f]), x, it) {
      SegmentIsData(segs, i);
      ExportedIsRedelivered(segs, ok, i, x, it);
    }
  }

  lemma ReplayAccounts(cfg: Config, s: State, files: seq<string>, ok: nat -> bool)
    requires Inv(cfg, s) && Enabled(cfg, s, Replay(files, ok))
    ensures Inv(cfg, TryRecover(cfg, s, files, ok))
  {
    var s' := TryRecover(cfg, s, files, ok);
    hide Recovery.Consume, StreamAt, Records, Redelivered;
    forall f | f in s'.doomed ensures f in s'.store.dir {
      if f !in s.doomed { RemovedWasDelivered(cfg, s, files, ok, f, "", Nil); }
    }
    forall x, it | Owed(cfg, s', x, it) ensures Accounted(cfg, s', x, it) {
      assert Owed(cfg, s, x, it) && Accounted(cfg, s, x, it);
      if OnFile(cfg, s, x, it) {
        var f :| f in s.store.dir && f !in s.doomed && Has(Records(cfg.codec, s.store.dir[f]), x, it);
        if f in s'.doomed { RemovedWasDelivered(cfg, s, files, ok, f, x, it); }
      }
    }
  }

  lemma SaveBlockedAccounts(cfg: Config, s: State, full: bool, env: SaveEnv)
    requires Inv(cfg, s) && Enabled(cfg, s, SaveBlocked(full, env))
    ensures Inv(cfg, SaveBlockData(cfg, s, full, env))
  {
    var s' := SaveBlockData(cfg, s, full, env);
    if !full {
      SpillAccounts(cfg, s, cfg.pipeline, s.blockData, env);
      var s1 := Spill(cfg, s, cfg.pipeline, s.blockData, env);
      assert s1.flushed == s.flushed && s1.parked == s.parked && s1.blockData == s.blockData;
      hide Spill, SaveResult, FreshNames;
      forall x, it | Owed(cfg, s', x, it) ensures Accounted(cfg, s', x, it) {
        if Owed(cfg, s, x, it) { ExtendsAccounted(cfg, s, s1, x, it); }
        ExtendsAccounted(cfg, s1, s', x, it);
      }
    }
  }

  lemma RemoveAccounts(cfg: Config, s: State, step: Step)
    requires Inv(cfg, s) && Enabled(cfg, s, step) && (step.RemoveDone? || step.RemoveFailed?)
    ensures Inv(cfg, Apply(cfg, s, step))
  {
    var s' := Apply(cfg, s, step);
    hide Records;
    forall x, it | Owed(cfg, s', x, it) ensures Accounted(cfg, s', x, it) {
      assert Owed(cfg, s, x, it) && Accounted(cfg, s, x, it);
      if OnFile(cfg, s, x, it) {
        var f :| f in s.store.dir && f !in s.doomed && Has(Records(cfg.codec, s.store.dir[f]), x, it);
        assert f in s'.store.dir && f !in s'.doomed && Has(Records(cfg.codec, s'.store.dir[f]), x, it);
      }
    }
  }

  // Whatever happens, every item that was flushed while not blocked and passed the filters is, for every exporter,
  // delivered, on a backup file that is yet to be replayed, or in one of the two loss buckets; an item flushed while
  // blocked is in the buffer, or the same holds of it under the pipeline's own name.
  lemma InvStep(cfg: Config, s: State, step: Step)
    requires Inv(cfg, s) && Enabled(cfg, s, step)
    ensures Inv(cfg, Apply(cfg, s, step))
    ensures s.status == Blocked ==> Apply(cfg, s, step).status != Normal
  {
    match step
    case Flush(batch, calls) => FlushAccounts(cfg, s, batch, calls);
    case Replay(files, ok) => ReplayAccounts(cfg, s, files, ok);
    case SaveBlocked(full, env) => SaveBlockedAccounts(cfg, s, full, env);
    case _ => RemoveAccounts(cfg, s, step);
  }

  // A flush sorts every item of its batch into kept, dropped or parked, and takes nothing out again.
  lemma FlushSorts(cfg: Config, s: State, batch: seq<Elem>, calls: seq<Call>)
    requires Inv(cfg, s) && Enabled(cfg, s, Flush(batch, calls))
    ensures var s' := FlushBatch(cfg, s, batch, calls);
            && s.flushed <= s'.flushed && s.parked <= s'.parked && s.dropped <= s'.dropped
            && (forall it :: it in batch ==> it in s'.flushed || it in s'.parked || it in s'.dropped)
            && (forall it :: it in s'.dropped ==> it in s.dropped || !cfg.keep(it))
            && (forall it :: it in s'.flushed ==> it in s.flushed || cfg.keep(it))
  {
    if s.status != Blocked {
      var kept := Filter(batch, cfg.keep);
      ExportAllFrame(cfg, s.(flushed := s.flushed + Range(kept), dropped := s.dropped + (Range(batch) - Range(kept))),
                     kept, calls);
    }
  }

  lemma {:induction false} ExportAllFrame(cfg: Config, s: State, batch: seq<Elem>, calls: seq<Call>)
    requires cfg.size > 0
    ensures var s' := ExportAll(cfg, s, batch, calls);
            s'.flushed == s.flushed && s'.parked == s.parked && s'.dropped == s.dropped
    decreases |calls|
  {
    if calls != [] { ExportAllFrame(cfg, ExportOne(cfg, s, batch, calls[0]), batch, calls[1..]); }
  }

  lemma OnlyFlushSorts(cfg: Config, s: State, step: Step)
    requires cfg.size > 0 && !step.Flush?
    ensures var s' := Apply(cfg, s, step); s'.flushed == s.flushed && s'.parked == s.parked && s'.dropped == s.dropped
  {}

  // While the status is normal every record on any file, also one that is being removed, has been delivered.
  ghost predicate NormalIsDelivered(cfg: Config, s: State) {
    s.status == Normal ==>
      forall f, x, it :: f in s.store.dir && Has(Records(cfg.codec, s.store.dir[f]), x, it) ==> (x, it) in s.delivered
  }

  lemma {:induction false} SmoothDelivers(cfg: Config, s: State, batch: seq<Elem>, calls: seq<Call>)
    requires cfg.size > 0 && SmoothCalls(cfg, s, batch, calls) && NormalIsDelivered(cfg, s)
    ensures NormalIsDelivered(cfg, ExportAll(cfg, s, batch, calls))
    decreases |calls|
  {
    if calls != [] {
      hide SaveResult, Spill, Records, Has;
      SmoothDelivers(cfg, ExportOne(cfg, s, batch, calls[0]), batch, calls[1..]);
    }
  }

  // A replay that ends in normal status, over files that can be read, has delivered every record there is.
  lemma CleanReplayDelivers(cfg: Config, s: State, files: seq<string>, ok: nat -> bool)
    requires Inv(cfg, s) && Enabled(cfg, s, Replay(files, ok)) && Smooth(cfg, s, Replay(files, ok))
    ensures NormalIsDelivered(cfg, TryRecover(cfg, s, files, ok))
  {
    var s' := TryRecover(cfg, s, files, ok);
    var segs := Recovery.Segments(cfg.codec, cfg.cap, s.store.dir, files);
    Recovery.StreamIsSegments(cfg.codec, cfg.cap, s.store.dir, files);
    DirDataOnly(cfg, s, files);
    hide Recovery.Consume, Recovery.StreamOf, Recovery.Exported, ScanFile, Records, Has, Redelivered, Recovery.DataOnly;
    if s'.status == Normal {
      forall f, x, it | f in s.store.dir && Has(Records(cfg.codec, s.store.dir[f]), x, it)
        ensures (x, it) in s'.delivered {
        assert f in files;
        var i: nat :| i < |files| && files[i] == f;
        Recovery.RemovedExactly(segs, ok, f);
        SegmentIsData(segs, i);
        ExportedIsRedelivered(segs, ok, i, x, it);
      }
    }
  }

  lemma DeliveredStep(cfg: Config, s: State, step: Step)
    requires Inv(cfg, s) && Enabled(cfg, s, step) && Smooth(cfg, s, step) && NormalIsDelivered(cfg, s)
    ensures NormalIsDelivered(cfg, Apply(cfg, s, step))
  {
    match step
    case Flush(batch, calls) =>
      if s.status != Blocked {
        var kept := Filter(batch, cfg.keep);
        var s0 := s.(flushed := s.flushed + Range(kept), dropped := s.dropped + (Range(batch) - Range(kept)));
        SmoothFrame(cfg, s, s0, kept, calls);
        hide SmoothCalls, ExportAll, FreshCalls, Records, Has;
        SmoothDelivers(cfg, s0, kept, calls);
      }
    case Replay(files, ok) => CleanReplayDelivers(cfg, s, files, ok);
    case SaveBlocked(full, env) =>
      if !full { SpillKeeps(cfg, s, cfg.pipeline, s.blockData, env); }
      hide Spill, SaveResult, Records, Has;
    case RemoveDone(_) => hide Records, Has;
  }

  // ---------- What the history means ----------

  // Appends are lost exactly when the save goes through a handle whose file was already replayed or removed.
  lemma SpillLosesExactly(cfg: Config, s: State, x: string, batch: seq<Elem>, env: SaveEnv)
    requires cfg.size > 0 && s.doomed <= s.used && batch != []
    requires FreshNames(cfg.codec, cfg.size, s.store, x, batch, env, s.used)
    requires SaveResult(cfg, s, x, batch, env) == Saved
    ensures var log := Save(cfg.codec, cfg.size, s.store, x, batch, env).written;
            DeadItems(log, s.doomed) != {} <==> Dead(s.store.open, s.doomed)
  {
    var s1 := Opened(s.store, env);
    var used := s.used + s1.dir.Keys;
    var log := SaveChunks(cfg.codec, cfg.size, s1, x, batch, 0, env.chunks, []).written;
    FirstChunk(cfg, s1, x, batch, env.chunks, used);
    if Dead(s.store.open, s.doomed) {
      assert Dead(log[0].0, s.doomed) && batch[0] in DeadItems(log, s.doomed);
    } else {
      WrittenThrough(cfg.codec, cfg.size, s1, x, batch, 0, env.chunks, [], used);
      hide SaveChunks, FreshChunks;
      forall k | 0 <= k < |log| ensures !Dead(log[k].0, s.doomed) {}
    }
  }

  lemma FirstChunk(cfg: Config, s: Store, x: string, batch: seq<Elem>, env: nat -> ChunkEnv, used: set<string>)
    requires cfg.size > 0 && batch != [] && FreshChunks(cfg.codec, cfg.size, s, x, batch, 0, env, used)
    requires SaveChunks(cfg.codec, cfg.size, s, x, batch, 0, env, []).result == Saved
    ensures var log := SaveChunks(cfg.codec, cfg.size, s, x, batch, 0, env, []).written;
            log != [] && log[0].0 == s.open && batch[0] in log[0].1.data
  {
    var chunk := batch[0..Min(0 + cfg.size, |batch|)];
    var bytes := cfg.codec.enc(x, chunk).value + "\n";
    var s' := AfterChunk(s, bytes, env(0).rotation);
    var first := (s.open, Rec(x, chunk, false));
    assert chunk[0] == batch[0];
    assert FreshChunks(cfg.codec, cfg.size, s', x, batch, cfg.size, env, used + s'.dir.Keys);
    WrittenThrough(cfg.codec, cfg.size, s', x, batch, cfg.size, env, [first], used + s'.dir.Keys);
    var log := SaveChunks(cfg.codec, cfg.size, s', x, batch, cfg.size, env, [first]).written;
    assert log[0] == [first][0];
    assert [] + [first] == [first];
    assert SaveChunks(cfg.codec, cfg.size, s, x, batch, 0, env, []).written == log;
  }

  // How each exporter's call ended: None for a success, and the result of the save for a failure.
  function Outcomes(cfg: Config, s: State, batch: seq<Elem>, calls: seq<Call>): (r: seq<Option<Result>>)
    requires cfg.size > 0
    ensures |r| == |calls|
    decreases |calls|
  {
    if calls == [] then []
    else
      [if calls[0].fails then Some(SaveResult(cfg, s, calls[0].exporter, batch, calls[0].env)) else None]
      + Outcomes(cfg, ExportOne(cfg, s, batch, calls[0]), batch, calls[1..])
  }

  // The last save that succeeded or met a full disk.
  function LastSave(outcomes: seq<Option<Result>>): (r: Option<Result>)
    ensures r == None || r == Some(Saved) || r == Some(DiskFull)
  {
    if outcomes == [] then None
    else
      var last := outcomes[|outcomes| - 1];
      if last == Some(Saved) || last == Some(DiskFull) then last else LastSave(outcomes[..|outcomes| - 1])
  }

  lemma {:induction false} LastSaveMore(first: Option<Result>, rest: seq<Option<Result>>)
    ensures LastSave([first] + rest) == if LastSave(rest).Some? then LastSave(rest) else LastSave([first])
  {
    if rest == [] {
      assert [first] + rest == [first];
    } else {
      var n := |rest| - 1;
      assert ([first] + rest)[..n + 1] == [first] + rest[..n];
      LastSaveMore(first, rest[..n]);
    }
  }

  // An exporter has been given an item, or has lost it to a failed save, exactly if its call said so.
  lemma {:induction false} ExportAllHonest(cfg: Config, s: State, batch: seq<Elem>, calls: seq<Call>, x: string,
                                           it: Elem)
    requires cfg.size > 0
    ensures var s', outcomes := ExportAll(cfg, s, batch, calls), Outcomes(cfg, s, batch, calls);
            && ((x, it) in s'.delivered <==>
                (x, it) in s.delivered
                || (it in batch && exists k :: 0 <= k < |calls| && calls[k].exporter == x && outcomes[k] == None))
            && ((x, it) in s'.saveLost <==>
                (x, it) in s.saveLost
                || (it in batch
                    && exists k :: 0 <= k < |calls| && calls[k].exporter == x
                                   && outcomes[k] in {Some(DiskFull), Some(Failed)}))
    decreases |calls|
  {
    if calls != [] {
      var s1, rest := ExportOne(cfg, s, batch, calls[0]), calls[1..];
      ExportAllHonest(cfg, s1, batch, rest, x, it);
      hide Spill, SaveResult;
      var o, o' := Outcomes(cfg, s, batch, calls), Outcomes(cfg, s1, batch, rest);
      forall k | 0 <= k < |rest| ensures rest[k] == calls[k + 1] && o'[k] == o[k + 1] {}
      OneExportHonest(cfg, s, batch, calls[0], x, it);
    }
  }

  lemma OneExportHonest(cfg: Config, s: State, batch: seq<Elem>, c: Call, x: string, it: Elem)
    requires cfg.size > 0
    ensures var s' := ExportOne(cfg, s, batch, c);
            && ((x, it) in s'.delivered <==> (x, it) in s.delivered || (it in batch && c.exporter == x && !c.fails))
            && ((x, it) in s'.saveLost <==>
                (x, it) in s.saveLost || (it in batch && c.exporter == x && c.fails
                                          && SaveResult(cfg, s, x, batch, c.env) != Saved))
  {
    hide Save;
  }

  // The status after the exporters: the last save that succeeded or met a full disk decides it.
  lemma {:induction false} FlushStatus(cfg: Config, s: State, batch: seq<Elem>, calls: seq<Call>)
    requires cfg.size > 0
    ensures var last := LastSave(Outcomes(cfg, s, batch, calls));
            ExportAll(cfg, s, batch, calls).status ==
            if last == Some(DiskFull) then Blocked else if last == Some(Saved) then Recovering else s.status
    decreases |calls|
  {
    if calls != [] {
      SpillKeeps(cfg, s, calls[0].exporter, batch, calls[0].env);
      hide SaveResult, Spill;
      var s1, rest := ExportOne(cfg, s, batch, calls[0]), calls[1..];
      FlushStatus(cfg, s1, batch, rest);
      var first := if calls[0].fails then Some(SaveResult(cfg, s, calls[0].exporter, batch, calls[0].env)) else None;
      LastSaveMore(first, Outcomes(cfg, s1, batch, rest));
      assert LastSave([first]) == if first == Some(Saved) || first == Some(DiskFull) then first else None;
    }
  }

  // The exporters' calls in turn: one that fails has the whole batch saved as it is under its exporter's name, and one
  // that succeeds leaves the store alone.
  lemma {:induction false} ExportsInTurn(cfg: Config, s: State, batch: seq<Elem>, calls: seq<Call>, c: Call)
    requires cfg.size > 0
    ensures var before, after := ExportAll(cfg, s, batch, calls), ExportAll(cfg, s, batch, calls + [c]);
            after.store == if c.fails then Save(cfg.codec, cfg.size, before.store, c.exporter, batch, c.env).store
                           else before.store
    decreases |calls|
  {
    if calls == [] {
      assert [] + [c] == [c];
      assert ExportAll(cfg, s, batch, [c]) == ExportOne(cfg, s, batch, c);
    } else {
      assert (calls + [c])[1..] == calls[1..] + [c];
      ExportsInTurn(cfg, ExportOne(cfg, s, batch, calls[0]), batch, calls[1..], c);
    }
  }

  // A flush exports what the filters keep, in order, or adds the batch to the buffer, at its end and unfiltered.
  lemma FlushExports(cfg: Config, s: State, batch: seq<Elem>, calls: seq<Call>)
    requires cfg.size > 0
    ensures var s' := FlushBatch(cfg, s, batch, calls);
            if s.status == Blocked then s' == s.(blockData := s.blockData + batch, parked := s'.parked)
            else
              && s'.store == ExportAll(cfg, s, Filter(batch, cfg.keep), calls).store
              && s'.status == ExportAll(cfg, s, Filter(batch, cfg.keep), calls).status
              && s'.blockData == s.blockData
  {
    if s.status != Blocked {
      var kept := Filter(batch, cfg.keep);
      var s0 := s.(flushed := s.flushed + Range(kept), dropped := s.dropped + (Range(batch) - Range(kept)));
      HistoryApart(cfg, s, s0, kept, calls);
      hide ExportAll, Filter;
    }
  }

  lemma {:induction false} HistoryApart(cfg: Config, s: State, s': State, batch: seq<Elem>, calls: seq<Call>)
    requires cfg.size > 0 && s'.store == s.store && s'.status == s.status && s'.blockData == s.blockData
    ensures var t, t' := ExportAll(cfg, s, batch, calls), ExportAll(cfg, s', batch, calls);
            t'.store == t.store && t'.status == t.status && t'.blockData == t.blockData == s.blockData
    decreases |calls|
  {
    if calls != [] {
      HistoryApart(cfg, ExportOne(cfg, s, batch, calls[0]), ExportOne(cfg, s', batch, calls[0]), batch, calls[1..]);
    }
  }

  // An item counts as delivered by a replay exactly if the export of a record that holds it succeeded, under the name
  // of the record; a replay writes nothing.
  lemma ReplayHonest(cfg: Config, s: State, files: seq<string>, ok: nat -> bool, x: string, it: Elem)
    ensures var stream, s' := StreamAt(cfg, s, files), TryRecover(cfg, s, files, ok);
            && ((x, it) in s'.delivered <==>
                  (x, it) in s.delivered
                  || exists k: nat ::
                       k < |stream| && !stream[k].finish && ok(k) && stream[k].name == x && it in stream[k].data)
            && s'.store == s.store && s'.blockData == s.blockData
            && (forall f :: f in s'.doomed <==> f in s.doomed || f in Recovery.Consume(stream, ok).removed)
  {
    hide Recovery.Consume, StreamAt;
  }

  // A replay ends in normal status exactly when every batch it read was exported and at least one item was.
  lemma ReplayStatus(cfg: Config, s: State, files: seq<string>, ok: nat -> bool)
    requires s.status == Recovering
    ensures var stream, s' := StreamAt(cfg, s, files), TryRecover(cfg, s, files, ok);
            && s'.status in {Normal, Recovering}
            && (s'.status == Normal <==>
                && (forall k: nat :: k < |stream| && !stream[k].finish ==> ok(k))
                && (exists k: nat :: k < |stream| && !stream[k].finish && stream[k].data != []))
  {
    hide StreamAt, Redelivered, Recovery.Consume;
    Recovery.CountsExactly(StreamAt(cfg, s, files), ok);
  }

  // Blocked is left only by saving the whole buffer.
  lemma BlockedUntilSaved(cfg: Config, s: State, step: Step)
    requires cfg.size > 0 && s.status == Blocked && Enabled(cfg, s, step)
    ensures var s' := Apply(cfg, s, step);
            s'.status != Blocked <==>
              step.SaveBlocked? && !step.full
              && SaveResult(cfg, s, cfg.pipeline, s.blockData, step.env) == Saved
    ensures var s' := Apply(cfg, s, step);
            if s'.status == Blocked then s.blockData <= s'.blockData else s'.blockData == []
  {
    if step.SaveBlocked? { SpillKeeps(cfg, s, cfg.pipeline, s.blockData, step.env); }
    hide Spill, SaveResult;
  }

  lemma SpillKeeps(cfg: Config, s: State, x: string, batch: seq<Elem>, env: SaveEnv)
    requires cfg.size > 0
    ensures var s' := Spill(cfg, s, x, batch, env); s'.status == s.status && s'.blockData == s.blockData
  {}

  // A new process: nothing open yet, and whatever well-kept files an earlier one has left.
  ghost predicate Fresh(cfg: Config, s: State) {
    && s == START.(store := Store(s.store.dir, NoFile, 0), used := s.used)
    && WellKept(cfg.codec, s.store) && s.store.dir.Keys <= s.used
  }

  lemma FreshInv(cfg: Config, s: State)
    requires ValidCodec(cfg.codec) && cfg.size > 0 && Fresh(cfg, s)
    ensures Inv(cfg, s)
  {}

  // ---------- The status ----------

  // Saves fail only for a full disk, files are readable and removals succeed.
  ghost predicate Smooth(cfg: Config, s: State, step: Step)
    requires cfg.size > 0
  {
    match step
    case Flush(batch, calls) => s.status != Blocked ==> SmoothCalls(cfg, s, Filter(batch, cfg.keep), calls)
    case Replay(files, _) => forall f :: f in s.store.dir ==> ScanFile(cfg.codec, cfg.cap, s.store.dir[f]).complete
    case SaveBlocked(full, env) => !full ==> SaveResult(cfg, s, cfg.pipeline, s.blockData, env) != Failed
    case RemoveDone(_) => true
    case RemoveFailed(_) => false
  }

  predicate SmoothCalls(cfg: Config, s: State, batch: seq<Elem>, calls: seq<Call>)
    requires cfg.size > 0
    decreases |calls|
  {
    calls != [] ==>
      && (calls[0].fails ==> SaveResult(cfg, s, calls[0].exporter, batch, calls[0].env) != Failed)
      && SmoothCalls(cfg, ExportOne(cfg, s, batch, calls[0]), batch, calls[1..])
  }

  // While the status is normal no backup file that is still to be replayed holds a record.
  ghost predicate NormalIsClean(cfg: Config, s: State) {
    s.status == Normal ==> forall f :: f in s.store.dir && f !in s.doomed ==> Records(cfg.codec, s.store.dir[f]) == []
  }

  lemma {:induction false} SmoothExports(cfg: Config, s: State, batch: seq<Elem>, calls: seq<Call>)
    requires cfg.size > 0 && SmoothCalls(cfg, s, batch, calls) && NormalIsClean(cfg, s)
    ensures NormalIsClean(cfg, ExportAll(cfg, s, batch, calls))
    decreases |calls|
  {
    if calls != [] { SmoothExports(cfg, ExportOne(cfg, s, batch, calls[0]), batch, calls[1..]); }
  }

  lemma {:induction false} SmoothFrame(cfg: Config, s: State, s': State, batch: seq<Elem>, calls: seq<Call>)
    requires cfg.size > 0 && s'.store == s.store && s'.used == s.used && s'.status == s.status && s'.doomed == s.doomed
    ensures SmoothCalls(cfg, s', batch, calls) == SmoothCalls(cfg, s, batch, calls)
    decreases |calls|
  {
    if calls != [] {
      SmoothFrame(cfg, ExportOne(cfg, s, batch, calls[0]), ExportOne(cfg, s', batch, calls[0]), batch, calls[1..]);
    }
  }

  lemma SmoothReplay(cfg: Config, s: State, files: seq<string>, ok: nat -> bool)
    requires Inv(cfg, s) && Enabled(cfg, s, Replay(files, ok)) && Smooth(cfg, s, Replay(files, ok))
    ensures NormalIsClean(cfg, TryRecover(cfg, s, files, ok))
  {
    var s' := TryRecover(cfg, s, files, ok);
    var segs := Recovery.Segments(cfg.codec, cfg.cap, s.store.dir, files);
    Recovery.StreamIsSegments(cfg.codec, cfg.cap, s.store.dir, files);
    DirDataOnly(cfg, s, files);
    if s'.status == Normal {
      forall f | f in s.store.dir ensures f in s'.doomed {
        assert f in files;
        var i: nat :| i < |files| && files[i] == f;
        hide Recovery.Consume, Recovery.StreamOf, ScanFile, Records, Redelivered, Recovery.DataOnly;
        Recovery.CleanPassRemovesAll(segs, ok, i);
      }
    }
  }

  lemma SmoothStep(cfg: Config, s: State, step: Step)
    requires Inv(cfg, s) && Enabled(cfg, s, step) && Smooth(cfg, s, step) && NormalIsClean(cfg, s)
    ensures NormalIsClean(cfg, Apply(cfg, s, step))
  {
    match step
    case Flush(batch, calls) =>
      if s.status != Blocked {
        var kept := Filter(batch, cfg.keep);
        var s0 := s.(flushed := s.flushed + Range(kept), dropped := s.dropped + (Range(batch) - Range(kept)));
        SmoothFrame(cfg, s, s0, kept, calls);
        SmoothExports(cfg, s0, kept, calls);
      }
    case Replay(files, ok) => SmoothReplay(cfg, s, files, ok);
    case SaveBlocked(_, _) =>
    case RemoveDone(_) =>
  }
}
