/**
 The Pipeline object of pkg/pipeline/core.go: its queue, batch, buffer and status as fields, its loops over filters,
 exporters and the recovery stream, proved against the steps of Engine and Pipeline.  The ghost field carries the
 history that the object itself does not keep.
 */
module PipelineService {
  import opened Wrappers
  import opened Framing
  import opened Storage
  import RoundTrip
  import Recovery
  import E = Engine
  import P = Pipeline
  import LS = LocalStorage

  ghost predicate Passes(filters: seq<Elem -> bool>, it: Elem) {
    forall k :: 0 <= k < |filters| ==> filters[k](it)
  }

  lemma FilterNext(items: seq<Elem>, i: nat, keep: Elem -> bool)
    requires i < |items|
    ensures E.Filter(items[..i + 1], keep) ==
            if keep(items[i]) then E.Filter(items[..i], keep) + [items[i]] else E.Filter(items[..i], keep)
  {
    E.FilterLast(items[..i], items[i], keep);
    assert items[..i + 1] == items[..i] + [items[i]];
  }

  // Each item that passes all filters is kept as often as it was there, at increasing places, and no other is.
  ghost predicate KeepsPassing(filters: seq<Elem -> bool>, items: seq<Elem>, kept: seq<Elem>) {
    && (forall it ::
          multiset(kept)[it] == if (forall k :: 0 <= k < |filters| ==> filters[k](it)) then multiset(items)[it] else 0)
    && exists places :: E.Picks(items, places, kept)
  }

  lemma FilteredAre(keep: Elem -> bool, filters: seq<Elem -> bool>, items: seq<Elem>)
    requires forall it :: keep(it) <==> Passes(filters, it)
    ensures KeepsPassing(filters, items, E.Filter(items, keep))
  {
    E.FilterPicks(items, keep);
    forall it
      ensures multiset(E.Filter(items, keep))[it] ==
              if (forall k :: 0 <= k < |filters| ==> filters[k](it)) then multiset(items)[it] else 0
    {
      E.FilterCounts(items, keep, it);
      assert keep(it) <==> Passes(filters, it);
    }
  }

  // The files that a replay of well-kept files hands over for removal.
  lemma HandedOver(cfg: E.Config, s: E.State, files: seq<string>, ok: nat -> bool)
    ensures var removed := Recovery.Consume(E.StreamAt(cfg, s, files), ok).removed;
            && (forall f :: f in removed ==> f in E.TryRecover(cfg, s, files, ok).doomed)
            && (ValidCodec(cfg.codec) && WellKept(cfg.codec, s.store) ==>
                  var segs := Recovery.Segments(cfg.codec, cfg.cap, s.store.dir, files);
                  forall f :: f in removed <==>
                              exists i: nat :: i < |segs| && segs[i].file == f && Recovery.Removable(segs, ok, i))
  {
    if ValidCodec(cfg.codec) && WellKept(cfg.codec, s.store) {
      var segs := Recovery.Segments(cfg.codec, cfg.cap, s.store.dir, files);
      Recovery.StreamIsSegments(cfg.codec, cfg.cap, s.store.dir, files);
      E.DirDataOnly(cfg, s, files);
      hide Recovery.Consume, Recovery.Removable, Recovery.Segments, Recovery.StreamOf;
      forall f
        ensures f in Recovery.Consume(E.StreamAt(cfg, s, files), ok).removed <==>
                exists i: nat :: i < |segs| && segs[i].file == f && Recovery.Removable(segs, ok, i)
      {
        Recovery.RemovedExactly(segs, ok, f);
      }
    }
  }

  lemma FlushIsApplied(cfg: E.Config, calls: seq<E.Call>)
    requires cfg.size > 0
    ensures forall s, b :: E.Apply(cfg, s, E.Flush(b, calls)) == E.FlushBatch(cfg, s, b, calls)
  {
    hide E.FlushBatch;
  }

  // The status cell of pkg/pipeline/state.go.
  class State {
    var status: E.Status

    constructor ()
      ensures status == E.Normal
    {
      status := E.Normal;
    }

    predicate IsBlocked()
      reads this
    {
      status == E.Blocked
    }

    method Enter(status: E.Status)
      modifies this
      ensures this.status == status
    {
      this.status := status;
    }
  }

  class Pipeline {
    const cfg: E.Config
    const filters: seq<Elem -> bool>
    const localStore: LS.LocalStorage
    var queue: seq<Elem>
    var batch: seq<Elem>
    var blockData: seq<Elem>
    const state: State
    var started: bool
    ghost var engine: E.State

    ghost predicate Valid()
      reads this, localStore, state
    {
      && cfg.size > 0 && localStore.codec == cfg.codec && localStore.batchSize == cfg.size
         && localStore.Capacity() == cfg.cap
      && (forall it :: cfg.keep(it) <==> Passes(filters, it))
      && engine.status == state.status && engine.blockData == blockData && engine.store == localStore.State()
      && (localStore.currentFile.Linked? ==> localStore.currentFile.name in localStore.dir)
    }

    constructor (cfg: E.Config, filters: seq<Elem -> bool>, localStore: LS.LocalStorage)
      requires cfg.size > 0 && localStore.codec == cfg.codec && localStore.batchSize == cfg.size
               && localStore.Capacity() == cfg.cap
      requires forall it :: cfg.keep(it) <==> Passes(filters, it)
      requires localStore.currentFile == NoFile && localStore.currentSize == 0
      ensures Valid() && queue == [] && batch == [] && !started
      ensures engine == E.START.(store := localStore.State(), used := localStore.dir.Keys)
      ensures WellKept(cfg.codec, localStore.State()) ==> E.Fresh(cfg, engine)
      ensures this.cfg == cfg && this.localStore == localStore
    {
      this.cfg, this.filters, this.localStore := cfg, filters, localStore;
      queue, batch, blockData, started := [], [], [], false;
      state := new State();
      engine := E.START.(store := localStore.State(), used := localStore.dir.Keys);
    }

    // The machine of module Pipeline agrees with this object.
    ghost predicate Is(s: P.State)
      reads this
    {
      s.queue == queue && s.batch == batch && s.started == started && s.engine == engine
    }

    method Start()
      requires Valid()
      modifies this`started
      ensures Valid() && started
      ensures forall s :: old(Is(s)) && P.Ready(cfg, s, P.Start) ==> Is(P.Apply(cfg, s, P.Start))
    {
      if !started {
        started := true;
      }
    }

    method Push(it: Elem) returns (r: P.PushResult)
      requires Valid()
      modifies this`queue
      ensures Valid()
      ensures r == P.Accepted <==> !state.IsBlocked() && started && |old(queue)| < 10 * cfg.size
      ensures r == P.PipelineBlocked <==> state.IsBlocked()
      ensures r == P.NotStarted <==> !state.IsBlocked() && !started
      ensures queue == if r == P.Accepted then old(queue) + [it] else old(queue)
      ensures forall s :: old(Is(s)) ==> r == P.PushOutcome(cfg, s)
    {
      if state.IsBlocked() {
        return P.PipelineBlocked;
      }
      if !started {
        return P.NotStarted;
      }
      if |queue| < 10 * cfg.size {
        queue := queue + [it];
        return P.Accepted;
      }
      return P.QueueFull;
    }

    // The items that pass every filter, each as often as it was there, and in their order.
    method ApplyFilters(items: seq<Elem>) returns (kept: seq<Elem>)
      requires Valid()
      ensures kept == E.Filter(items, cfg.keep) && KeepsPassing(filters, items, kept)
    {
      FilteredAre(cfg.keep, filters, items);
      assert E.Filter(items[..0], cfg.keep) == [];
      hide KeepsPassing, E.Filter, E.Picks;
      kept := [];
      var i := 0;
      while i < |items|
        invariant 0 <= i <= |items| && kept == E.Filter(items[..i], cfg.keep)
      {
        var shouldKeep := true;
        var k := 0;
        while k < |filters|
          invariant 0 <= k <= |filters| && shouldKeep && (forall l :: 0 <= l < k ==> filters[l](items[i]))
        {
          if !filters[k](items[i]) {
            shouldKeep := false;
            break;
          }
          k := k + 1;
        }
        assert shouldKeep <==> Passes(filters, items[i]);
        FilterNext(items, i, cfg.keep);
        if shouldKeep {
          kept := kept + [items[i]];
        }
        i := i + 1;
      }
      assert items[..|items|] == items;
    }

    method HandleExportError(name: string, items: seq<Elem>, env: SaveEnv)
      requires Valid()
      modifies state, this`engine, localStore
      ensures Valid() && engine == E.HandleExportError(cfg, old(engine), name, items, env)
      ensures var o := Save(cfg.codec, cfg.size, old(localStore.State()), name, items, env);
              && localStore.State() == o.store
              && state.status == match o.result
                                 case Saved => E.Recovering
                                 case DiskFull => E.Blocked
                                 case Failed => old(state.status)
    {
      var result := localStore.Save(name, items, env);
      if result != Saved {
        if result == DiskFull {
          state.Enter(E.Blocked);
        }
      } else if state.status != E.Recovering {
        state.Enter(E.Recovering);
      }
      engine := E.HandleExportError(cfg, engine, name, items, env);
    }

    // The exporters in whatever order their goroutines finish.
    method ExportAll(items: seq<Elem>, calls: seq<E.Call>)
      requires Valid()
      modifies state, this`engine, localStore
      ensures Valid() && engine == E.ExportAll(cfg, old(engine), items, calls)
    {
      hide Passes, E.HandleExportError;
      var k := 0;
      while k < |calls|
        invariant 0 <= k <= |calls| && Valid()
        invariant E.ExportAll(cfg, engine, items, calls[k..]) == E.ExportAll(cfg, old(engine), items, calls)
      {
        assert calls[k..][1..] == calls[k + 1..];
        if calls[k].fails {
          HandleExportError(calls[k].exporter, items, calls[k].env);
        } else {
          engine := E.ExportOne(cfg, engine, items, calls[k]);
        }
        k := k + 1;
      }
    }

    method FlushBatch(items: seq<Elem>, calls: seq<E.Call>)
      requires Valid()
      modifies this`blockData, state, this`engine, localStore
      ensures Valid() && engine == E.FlushBatch(cfg, old(engine), items, calls)
      ensures blockData == if old(state.IsBlocked()) then old(blockData) + items else old(blockData)
    {
      if state.IsBlocked() {
        blockData := blockData + items;
        engine := E.FlushBatch(cfg, engine, items, calls);
        return;
      }
      var filtered := ApplyFilters(items);
      engine := engine.(flushed := engine.flushed + E.Range(filtered),
                        dropped := engine.dropped + (E.Range(items) - E.Range(filtered)));
      ExportAll(filtered, calls);
    }

    // The queue case of the select: an item, or nil when the queue is closed and empty.
    method Receive(calls: seq<E.Call>)
      requires Valid()
      modifies this`queue, this`batch, this`blockData, state, this`engine, localStore
      ensures Valid()
      ensures forall s :: old(Is(s)) ==> Is(P.Apply(cfg, s, P.Receive(calls)))
    {
      hide E.FlushBatch, E.Filter, Passes, E.Apply;
      assert forall s, b :: E.Apply(cfg, s, E.Flush(b, calls)) == E.FlushBatch(cfg, s, b, calls) by
      { FlushIsApplied(cfg, calls); }
      var data := Nil;
      if queue != [] {
        data, queue := queue[0], queue[1..];
      }
      batch := batch + [data];
      if |batch| >= cfg.size {
        FlushBatch(batch, calls);
        batch := [];
      }
    }

    method Timeout(calls: seq<E.Call>)
      requires Valid()
      modifies this`batch, this`blockData, state, this`engine, localStore
      ensures Valid()
      ensures forall s :: old(Is(s)) ==> Is(P.Apply(cfg, s, P.Timeout(calls)))
    {
      if |batch| > 0 {
        FlushBatch(batch, calls);
        batch := [];
      }
    }

    // The done case of the select once the queue is closed: everything that is left goes out in one batch.
    method DrainAll(calls: seq<E.Call>)
      requires Valid()
      modifies this`queue, this`batch, this`blockData, state, this`engine, localStore
      ensures Valid() && queue == [] && batch == []
      ensures var last := old(batch) + old(queue);
              engine == if last == [] then old(engine) else E.FlushBatch(cfg, old(engine), last, calls)
    {
      while queue != []
        invariant Valid() && engine == old(engine) && batch + queue == old(batch) + old(queue)
        decreases |queue|
      {
        batch, queue := batch + [queue[0]], queue[1..];
      }
      assert batch == old(batch) + old(queue);
      if |batch| > 0 {
        FlushBatch(batch, calls);
      }
      batch := [];
    }

    method TryRecoverFromDisk(files: seq<string>, ok: nat -> bool) returns (removed: seq<string>)
      requires Valid()
      modifies state, this`engine, localStore`recoveringFile
      ensures Valid() && engine == E.TryRecover(cfg, old(engine), files, ok)
      ensures removed == Recovery.Consume(E.StreamAt(cfg, old(engine), files), ok).removed
      ensures ValidCodec(cfg.codec) && WellKept(cfg.codec, old(localStore.State())) ==>
                var segs := Recovery.Segments(cfg.codec, cfg.cap, old(localStore.dir), files);
                forall f :: f in removed <==>
                            exists i: nat :: i < |segs| && segs[i].file == f && Recovery.Removable(segs, ok, i)
      ensures forall f :: f in removed ==> f in engine.doomed
    {
      HandedOver(cfg, engine, files, ok);
      hide Recovery.Removable, Recovery.Segments;
      var stream := localStore.Recover(files);
      var pass := Recovery.TryRecover(stream, ok);
      if pass.successCount > 0 && pass.errorCount == 0 {
        state.Enter(E.Normal);
      }
      removed := pass.removed;
      engine := E.TryRecover(cfg, engine, files, ok);
    }

    // One tick of the recovery monitor.
    method RecoveryTick(files: seq<string>, ok: nat -> bool, full: bool, env: SaveEnv) returns (removed: seq<string>)
      requires Valid()
      modifies this`blockData, state, this`engine, localStore
      ensures Valid()
      ensures engine == match old(state.status)
                        case Recovering => E.Apply(cfg, old(engine), E.Replay(files, ok))
                        case Blocked => E.Apply(cfg, old(engine), E.SaveBlocked(full, env))
                        case Normal => old(engine)
      ensures old(state.status) == E.Blocked ==>
                var o := Save(cfg.codec, cfg.size, old(localStore.State()), cfg.pipeline, old(blockData), env);
                && localStore.State() == (if full then old(localStore.State()) else o.store)
                && (if !full && o.result == Saved then blockData == [] && state.status == E.Recovering
                    else blockData == old(blockData) && state.status == E.Blocked)
      ensures old(state.status) != E.Recovering ==> removed == []
      ensures old(state.status) == E.Recovering && ValidCodec(cfg.codec) && WellKept(cfg.codec, old(localStore.State()))
              ==> var segs := Recovery.Segments(cfg.codec, cfg.cap, old(localStore.dir), files);
                  forall f :: f in removed <==>
                              exists i: nat :: i < |segs| && segs[i].file == f && Recovery.Removable(segs, ok, i)
      ensures forall f :: f in removed ==> f in engine.doomed
    {
      hide Recovery.Removable, Recovery.Segments, Recovery.Consume, ValidCodec, WellKept;
      removed := [];
      match state.status
      case Recovering =>
        removed := TryRecoverFromDisk(files, ok);
      case Blocked =>
        ghost var before := engine;
        if !full {
          var result := localStore.Save(cfg.pipeline, blockData, env);
          if result == Saved {
            blockData := [];
            state.Enter(E.Recovering);
          }
        }
        engine := E.SaveBlockData(cfg, engine, full, env);
      case Normal =>
    }

    // The goroutine that deletes a replayed file, when os.Remove succeeds.
    method RemoveReplayed(f: string)
      requires Valid() && f in engine.doomed
      modifies this`engine, localStore
      ensures Valid() && engine == E.Apply(cfg, old(engine), E.RemoveDone(f))
    {
      localStore.RemoveFile(f);
      engine := E.Apply(cfg, engine, E.RemoveDone(f));
    }
  }
}
