/**
 Replaying the backup files (tryRecoverFromDisk in pkg/pipeline/core.go): one exportSuccess flag is carried along
 the whole stream, also past files that ended in a read error and sent no end mark.
 */
module Recovery {
  import opened Wrappers
  import opened Framing
  import RoundTrip

  // What one pass has done: items and failures counted, files handed to removal, and the flag.
  datatype Pass = Pass(successCount: nat, errorCount: nat, removed: seq<string>, exportSuccess: bool)

  // `ok` tells, by position in the stream, whether the export of that batch succeeds.
  function Consume(stream: seq<Rec>, ok: nat -> bool): Pass {
    if stream == [] then Pass(0, 0, [], true)
    else
      var k := |stream| - 1;
      var p, r := Consume(stream[..k], ok), stream[k];
      if r.finish then
        if p.exportSuccess then p.(removed := p.removed + [r.name]) else p.(exportSuccess := true)
      else if ok(k) then p.(successCount := p.successCount + |r.data|)
      else p.(errorCount := p.errorCount + 1, exportSuccess := false)
  }

  method TryRecover(stream: seq<Rec>, ok: nat -> bool) returns (p: Pass)
    ensures p == Consume(stream, ok)
  {
    var successCount, errorCount, removed, exportSuccess := 0, 0, [], true;
    var k := 0;
    while k < |stream|
      invariant 0 <= k <= |stream| && successCount >= 0 && errorCount >= 0
      invariant Pass(successCount, errorCount, removed, exportSuccess) == Consume(stream[..k], ok)
    {
      var batch := stream[k];
      assert stream[..k + 1][..k] == stream[..k];
      if batch.finish {
        if !exportSuccess {
          exportSuccess := true;
        } else {
          removed := removed + [batch.name];
        }
      } else if !ok(k) {
        exportSuccess := false;
        errorCount := errorCount + 1;
      } else {
        successCount := successCount + |batch.data|;
      }
      k := k + 1;
    }
    assert stream[..k] == stream;
    p := Pass(successCount, errorCount, removed, exportSuccess);
  }

  // What the counts of a pass say: no error if and only if every batch was exported, and a success if and only if
  // some batch with items in it was.
  lemma {:induction false} CountsExactly(stream: seq<Rec>, ok: nat -> bool)
    ensures var p := Consume(stream, ok);
            && (p.errorCount == 0 <==> forall k: nat :: k < |stream| && !stream[k].finish ==> ok(k))
            && (p.successCount > 0 <==>
                  exists k: nat :: k < |stream| && !stream[k].finish && ok(k) && stream[k].data != [])
  {
    if stream != [] {
      var n := |stream| - 1;
      CountsExactly(stream[..n], ok);
      assert forall k: nat :: k < n ==> stream[..n][k] == stream[k];
    }
  }

  // ---------- File by file ----------

  // What the stream holds of one file: its batches and, if it was read to its end, its end mark.
  datatype Segment = Segment(file: string, batches: seq<Rec>, complete: bool)

  function StreamOf(segs: seq<Segment>): seq<Rec> {
    if segs == [] then []
    else
      var s := segs[|segs| - 1];
      StreamOf(segs[..|segs| - 1]) + s.batches + if s.complete then [Rec(s.file, [], true)] else []
  }

  ghost predicate DataOnly(segs: seq<Segment>) {
    forall i, j :: 0 <= i < |segs| && 0 <= j < |segs[i].batches| ==> !segs[i].batches[j].finish
  }

  // The exports at n consecutive positions all succeed.
  predicate AllOk(ok: nat -> bool, start: nat, n: nat) {
    n == 0 || (AllOk(ok, start, n - 1) && ok(start + n - 1))
  }

  // Every batch of file i was exported in this pass.
  predicate Exported(segs: seq<Segment>, ok: nat -> bool, i: nat)
    requires i < |segs|
  {
    AllOk(ok, |StreamOf(segs[..i])|, |segs[i].batches|)
  }

  // No failure is left over when file i begins: none since the last file before it that was read to its end.
  predicate NothingCarried(segs: seq<Segment>, ok: nat -> bool, i: nat)
    requires i <= |segs|
  {
    i == 0 || segs[i - 1].complete || (NothingCarried(segs, ok, i - 1) && Exported(segs, ok, i - 1))
  }

  predicate Removable(segs: seq<Segment>, ok: nat -> bool, i: nat)
    requires i < |segs|
  {
    segs[i].complete && Exported(segs, ok, i) && NothingCarried(segs, ok, i)
  }

  ghost function RemovedFiles(segs: seq<Segment>, ok: nat -> bool, n: nat): seq<string>
    requires n <= |segs|
  {
    if n == 0 then [] else RemovedFiles(segs, ok, n - 1) + if Removable(segs, ok, n - 1) then [segs[n - 1].file] else []
  }

  lemma {:induction false} ConsumeBatches(before: seq<Rec>, batches: seq<Rec>, ok: nat -> bool)
    requires forall j :: 0 <= j < |batches| ==> !batches[j].finish
    ensures var p, q, all := Consume(before, ok), Consume(before + batches, ok), AllOk(ok, |before|, |batches|);
            && q.removed == p.removed && q.errorCount >= p.errorCount
            && (q.exportSuccess <==> p.exportSuccess && all)
            && (q.errorCount == p.errorCount <==> all)
  {
    if batches == [] {
      assert before + batches == before;
    } else {
      var n := |batches| - 1;
      assert (before + batches)[..|before| + n] == before + batches[..n];
      ConsumeBatches(before, batches[..n], ok);
    }
  }

  // One more file: its batches, then its end mark if it has one.
  lemma ConsumeFile(before: seq<Rec>, s: Segment, ok: nat -> bool)
    requires forall j :: 0 <= j < |s.batches| ==> !s.batches[j].finish
    ensures var mark := if s.complete then [Rec(s.file, [], true)] else [];
            var p, q := Consume(before, ok), Consume(before + s.batches + mark, ok);
            var all := AllOk(ok, |before|, |s.batches|);
            && q.removed == p.removed + (if s.complete && p.exportSuccess && all then [s.file] else [])
            && (q.exportSuccess <==> s.complete || (p.exportSuccess && all))
            && q.errorCount >= p.errorCount && (q.errorCount == p.errorCount <==> all)
  {
    ConsumeBatches(before, s.batches, ok);
    ConsumeMark(before + s.batches, s.file, ok);
    assert before + s.batches + [] == before + s.batches;
  }

  // After the first n files: exactly the removable ones are removed, and the flag says whether a failure is carried on.
  ghost predicate PassIs(segs: seq<Segment>, ok: nat -> bool, n: nat, p: Pass)
    requires n <= |segs|
  {
    && p.removed == RemovedFiles(segs, ok, n)
    && p.exportSuccess == NothingCarried(segs, ok, n)
    && (p.errorCount == 0 <==> forall i: nat :: i < n ==> Exported(segs, ok, i))
  }

  lemma PassNext(segs: seq<Segment>, ok: nat -> bool, n: nat, p: Pass, q: Pass)
    requires 0 < n <= |segs| && PassIs(segs, ok, n - 1, p)
    requires var s, all := segs[n - 1], Exported(segs, ok, n - 1);
             && q.removed == p.removed + (if s.complete && p.exportSuccess && all then [s.file] else [])
             && (q.exportSuccess <==> s.complete || (p.exportSuccess && all))
             && q.errorCount >= p.errorCount && (q.errorCount == p.errorCount <==> all)
    ensures PassIs(segs, ok, n, q)
  {
    hide Exported;
    if q.errorCount == 0 {
      forall i: nat | i < n ensures Exported(segs, ok, i) { assert i < n - 1 || i == n - 1; }
    }
  }

  lemma {:induction false} ConsumeSegments(segs: seq<Segment>, ok: nat -> bool, n: nat)
    requires DataOnly(segs) && n <= |segs|
    ensures PassIs(segs, ok, n, Consume(StreamOf(segs[..n]), ok))
  {
    if n > 0 {
      hide StreamOf, AllOk, Consume, PassIs;
      ConsumeSegments(segs, ok, n - 1);
      StreamOfNext(segs, n);
      ConsumeFile(StreamOf(segs[..n - 1]), segs[n - 1], ok);
      PassNext(segs, ok, n, Consume(StreamOf(segs[..n - 1]), ok), Consume(StreamOf(segs[..n]), ok));
    }
  }

  lemma ConsumeMark(before: seq<Rec>, f: string, ok: nat -> bool)
    ensures var p := Consume(before, ok);
            Consume(before + [Rec(f, [], true)], ok) == if p.exportSuccess then p.(removed := p.removed + [f])
              else p.(exportSuccess := true)
  {
    assert (before + [Rec(f, [], true)])[..|before|] == before;
  }

  lemma StreamOfNext(segs: seq<Segment>, n: nat)
    requires 0 < n <= |segs|
    ensures StreamOf(segs[..n]) == StreamOf(segs[..n - 1]) + segs[n - 1].batches + if segs[n - 1].complete
            then [Rec(segs[n - 1].file, [], true)] else []
  {
    assert segs[..n][..n - 1] == segs[..n - 1];
  }

  lemma {:induction false} RemovedAre(segs: seq<Segment>, ok: nat -> bool, n: nat, f: string)
    requires n <= |segs|
    ensures f in RemovedFiles(segs, ok, n) <==> exists i: nat :: i < n && segs[i].file == f && Removable(segs, ok, i)
  {
    if n > 0 { RemovedAre(segs, ok, n - 1, f); }
  }

  // A file is removed if and only if it was read to its end, every batch of it was exported in this pass, and no
  // failure was carried into it from preceding files that had no end mark.
  lemma RemovedExactly(segs: seq<Segment>, ok: nat -> bool, f: string)
    requires DataOnly(segs)
    ensures f in Consume(StreamOf(segs), ok).removed <==>
            exists i: nat :: i < |segs| && segs[i].file == f && Removable(segs, ok, i)
    ensures Consume(StreamOf(segs), ok).errorCount == 0 <==> forall i: nat :: i < |segs| ==> Exported(segs, ok, i)
  {
    assert segs[..|segs|] == segs;
    ConsumeSegments(segs, ok, |segs|);
    RemovedAre(segs, ok, |segs|, f);
  }

  // A pass without a failure removes every file that was read to its end.
  lemma CleanPassRemovesAll(segs: seq<Segment>, ok: nat -> bool, i: nat)
    requires DataOnly(segs) && i < |segs| && segs[i].complete
    requires Consume(StreamOf(segs), ok).errorCount == 0
    ensures segs[i].file in Consume(StreamOf(segs), ok).removed
  {
    RemovedExactly(segs, ok, segs[i].file);
    hide Consume, StreamOf, Exported;
    CleanSoFar(segs, ok, i);
    assert Removable(segs, ok, i);
  }

  lemma {:induction false} CleanSoFar(segs: seq<Segment>, ok: nat -> bool, i: nat)
    requires i <= |segs| && forall j: nat :: j < i ==> Exported(segs, ok, j)
    ensures NothingCarried(segs, ok, i)
  {
    if i > 0 { CleanSoFar(segs, ok, i - 1); }
  }

  // ---------- The segments of a directory ----------

  function Segments(c: Codec, cap: nat, dir: map<string, string>, files: seq<string>): (segs: seq<Segment>)
    ensures |segs| == |files|
    ensures forall i :: 0 <= i < |files| ==>
      var scan := RoundTrip.ScanAt(c, cap, dir, files[i]); segs[i] == Segment(files[i], scan.batches, scan.complete)
  {
    if files == [] then []
    else
      var f := files[|files| - 1];
      var scan := RoundTrip.ScanAt(c, cap, dir, f);
      Segments(c, cap, dir, files[..|files| - 1]) + [Segment(f, scan.batches, scan.complete)]
  }

  lemma {:induction false} StreamIsSegments(c: Codec, cap: nat, dir: map<string, string>, files: seq<string>)
    ensures RoundTrip.Stream(c, cap, dir, files) == StreamOf(Segments(c, cap, dir, files))
  {
    if files != [] {
      hide RoundTrip.ScanAt;
      var n := |files| - 1;
      StreamIsSegments(c, cap, dir, files[..n]);
      assert Segments(c, cap, dir, files)[..n] == Segments(c, cap, dir, files[..n]);
    }
  }
}
