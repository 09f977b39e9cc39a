/**
 Which chunks of a save reach a file that has a name, told from the open handle, its counted size and what the
 environment does, without running the save.
 */
module SaveGuards {
  import opened Wrappers
  import opened Framing
  import opened Storage

  // What a save is given: the batch and its name, and the environment of each of its chunks.
  datatype Load = Load(codec: Codec, size: nat, name: string, batch: seq<Elem>, env: nat -> ChunkEnv)

  function Start(l: Load, k: nat): nat {
    if k == 0 then 0 else Start(l, k - 1) + l.size
  }

  function Chunk(l: Load, k: nat): seq<Elem> {
    l.batch[Min(Start(l, k), |l.batch|)..Min(Start(l, k) + l.size, |l.batch|)]
  }

  // The bytes of the line of chunk k, with its newline.
  function Bytes(l: Load, k: nat): nat {
    var line := l.codec.enc(l.name, Chunk(l, k));
    if line.Some? then |line.value| + 1 else 0
  }

  predicate GetsWritten(l: Load, k: nat) {
    l.codec.enc(l.name, Chunk(l, k)).Some? && l.env(Start(l, k)).writes
  }

  // The counted size of the open file when chunk k is due, if `from` was the size at the start.
  function SizeAt(l: Load, from: nat, k: nat): nat {
    if k == 0 then from
    else
      var grown := SizeAt(l, from, k - 1) + Bytes(l, k - 1);
      if grown > MAX_FILE_SIZE then 0 else grown
  }

  predicate Rotates(l: Load, from: nat, k: nat) {
    SizeAt(l, from, k) + Bytes(l, k) > MAX_FILE_SIZE
  }

  // Everything goes well before chunk k.
  predicate Smoothly(l: Load, from: nat, k: nat) {
    forall j :: 0 <= j < k ==> GetsWritten(l, j) && (Rotates(l, from, j) ==> l.env(Start(l, j)).rotation.Created?)
  }

  // Chunk k goes to a file that has a name: there is a chunk k, it and all before it are encoded and written, every
  // rotation before it succeeds, and the handle of the start has a name or has been rotated away.
  predicate Lands(l: Load, open: Handle, from: nat, k: nat) {
    && Start(l, k) < |l.batch|
    && (open.Linked? || open.Unlinked?)
    && Smoothly(l, from, k) && GetsWritten(l, k)
    && (open.Linked? || exists j :: 0 <= j < k && Rotates(l, from, j))
  }

  // The item was written through a handle that has a name.
  ghost predicate LoggedByName(log: seq<(Handle, Rec)>, x: string, it: Elem) {
    exists k :: 0 <= k < |log| && log[k].0.Linked? && log[k].1.name == x && it in log[k].1.data
  }

  lemma LoggedByNameMore(log: seq<(Handle, Rec)>, e: (Handle, Rec), x: string, it: Elem)
    ensures LoggedByName(log + [e], x, it) <==>
            LoggedByName(log, x, it) || (e.0.Linked? && e.1.name == x && it in e.1.data)
  {
    if LoggedByName(log, x, it) {
      var k :| 0 <= k < |log| && log[k].0.Linked? && log[k].1.name == x && it in log[k].1.data;
      assert (log + [e])[k] == log[k];
    }
    if e.0.Linked? && e.1.name == x && it in e.1.data { assert (log + [e])[|log|] == e; }
  }

  // The store when chunk k is due.
  predicate Due(l: Load, open: Handle, from: nat, k: nat, s: Store) {
    && s.size == SizeAt(l, from, k) && Writable(s) && Smoothly(l, from, k)
    && (s.open.Linked? <==> open.Linked? || exists j :: 0 <= j < k && Rotates(l, from, j))
  }

  ghost predicate LandsFrom(l: Load, open: Handle, from: nat, k: nat, it: Elem) {
    exists j: nat :: k <= j && Lands(l, open, from, j) && it in Chunk(l, j)
  }

  // The line of chunk k, with its newline.
  function Line(l: Load, k: nat): (r: string)
    requires GetsWritten(l, k)
    ensures |r| == Bytes(l, k)
  {
    l.codec.enc(l.name, Chunk(l, k)).value + "\n"
  }

  function After(l: Load, k: nat, s: Store): Store
    requires Writable(s) && GetsWritten(l, k)
  {
    AfterChunk(s, Line(l, k), l.env(Start(l, k)).rotation)
  }

  // The save from chunk k on.
  function Rest(l: Load, k: nat, s: Store, done: seq<(Handle, Rec)>): Out
    requires l.size > 0
  {
    SaveChunks(l.codec, l.size, s, l.name, l.batch, Start(l, k), l.env, done)
  }

  function Entry(l: Load, k: nat, s: Store): (Handle, Rec) {
    (s.open, Rec(l.name, Chunk(l, k), false))
  }

  // What writing a chunk does to the handle and the size.
  lemma WrittenChunk(s: Store, bytes: string, r: Rotation)
    requires Writable(s)
    ensures var s' := AfterChunk(s, bytes, r);
            if s.size + |bytes| <= MAX_FILE_SIZE then
              s'.open == s.open && s'.size == s.size + |bytes| && Writable(s')
            else if r.Created? then s'.open.Linked? && s'.size == 0 && Writable(s')
            else s'.open.Shut?
  {}

  // A rotation so far, or in chunk k.
  lemma RotatedMore(l: Load, from: nat, k: nat)
    ensures (exists j :: 0 <= j < k + 1 && Rotates(l, from, j)) <==>
            (exists j :: 0 <= j < k && Rotates(l, from, j)) || Rotates(l, from, k)
  {
    hide Rotates;
  }

  lemma NextDue(l: Load, open: Handle, from: nat, k: nat, s: Store)
    requires Due(l, open, from, k, s) && GetsWritten(l, k)
    requires Rotates(l, from, k) ==> l.env(Start(l, k)).rotation.Created?
    ensures Due(l, open, from, k + 1, After(l, k, s))
  {
    var line, r := Line(l, k), l.env(Start(l, k)).rotation;
    hide AfterChunk, Line, Writable, GetsWritten, Start, Bytes;
    WrittenChunk(s, line, r);
    RotatedMore(l, from, k);
    SmoothlyMore(l, from, k);
    SizeMore(l, from, k);
    hide SizeAt, Rotates, Smoothly;
    var s' := AfterChunk(s, line, r);
    assert s'.size == SizeAt(l, from, k + 1);
    assert Writable(s') && Smoothly(l, from, k + 1);
  }

  lemma SmoothlyMore(l: Load, from: nat, k: nat)
    requires Smoothly(l, from, k) && GetsWritten(l, k)
    requires Rotates(l, from, k) ==> l.env(Start(l, k)).rotation.Created?
    ensures Smoothly(l, from, k + 1)
  {
    hide Rotates, GetsWritten, Start;
  }

  lemma SizeMore(l: Load, from: nat, k: nat)
    ensures Rotates(l, from, k) <==> SizeAt(l, from, k) + Bytes(l, k) > MAX_FILE_SIZE
    ensures SizeAt(l, from, k + 1) == if Rotates(l, from, k) then 0 else SizeAt(l, from, k) + Bytes(l, k)
  {
    hide Bytes;
  }

  // The first of the remaining chunks, and the others.
  lemma LandsFirst(l: Load, open: Handle, from: nat, k: nat, it: Elem)
    ensures LandsFrom(l, open, from, k, it) <==>
            (Lands(l, open, from, k) && it in Chunk(l, k)) || LandsFrom(l, open, from, k + 1, it)
  {
    hide Lands, Chunk;
    if LandsFrom(l, open, from, k, it) {
      var j: nat :| k <= j && Lands(l, open, from, j) && it in Chunk(l, j);
      if j > k { assert k + 1 <= j && Lands(l, open, from, j); }
    }
    if LandsFrom(l, open, from, k + 1, it) {
      var j: nat :| k + 1 <= j && Lands(l, open, from, j) && it in Chunk(l, j);
      assert k <= j && Lands(l, open, from, j);
    }
  }

  lemma {:induction false} StartGrows(l: Load, k: nat, j: nat)
    requires k <= j
    ensures Start(l, k) <= Start(l, j)
    decreases j
  {
    if k < j { StartGrows(l, k, j - 1); }
  }

  // Nothing lands after a chunk that is missing, is not written, or is followed by a failed rotation.
  lemma NothingLandsFrom(l: Load, open: Handle, from: nat, k: nat, it: Elem)
    requires || Start(l, k) >= |l.batch| || !GetsWritten(l, k)
    ensures !LandsFrom(l, open, from, k, it)
  {
    forall j: nat | k <= j ensures !Lands(l, open, from, j) { StartGrows(l, k, j); }
  }

  lemma NothingLandsAfter(l: Load, open: Handle, from: nat, k: nat, it: Elem)
    requires Rotates(l, from, k) && !l.env(Start(l, k)).rotation.Created?
    ensures !LandsFrom(l, open, from, k + 1, it)
  {
    forall j: nat | k + 1 <= j ensures !Lands(l, open, from, j) {}
  }

  lemma {:induction false} ChunksLand(l: Load, open: Handle, from: nat, k: nat, s: Store, done: seq<(Handle, Rec)>,
                                      it: Elem)
    requires l.size > 0 && Due(l, open, from, k, s) && (open.Linked? || open.Unlinked?)
    ensures LoggedByName(Rest(l, k, s, done).written, l.name, it) <==>
            LoggedByName(done, l.name, it) || LandsFrom(l, open, from, k, it)
    decreases |l.batch| - Start(l, k)
  {
    Round(l, k, s, done);
    hide Rest, After, LoggedByName, LandsFrom;
    if Start(l, k) >= |l.batch| || !GetsWritten(l, k) {
      NothingLandsFrom(l, open, from, k, it);
    } else {
      LandsFirst(l, open, from, k, it);
      LandsNow(l, open, from, k, s);
      LoggedByNameMore(done, Entry(l, k, s), l.name, it);
      if Rotates(l, from, k) && !l.env(Start(l, k)).rotation.Created? {
        NothingLandsAfter(l, open, from, k, it);
        ShutNext(l, open, from, k, s, done + [Entry(l, k, s)]);
      } else {
        NextDue(l, open, from, k, s);
        ChunksLand(l, open, from, k + 1, After(l, k, s), done + [Entry(l, k, s)], it);
      }
    }
  }

  // One round of the save.
  lemma Round(l: Load, k: nat, s: Store, done: seq<(Handle, Rec)>)
    requires l.size > 0
    ensures if Start(l, k) >= |l.batch| || !Writable(s) || !GetsWritten(l, k) then
              && Rest(l, k, s, done).written == done && Rest(l, k, s, done).store == s
              && Rest(l, k, s, done).result == (if Start(l, k) >= |l.batch| then Saved else Failed)
            else Rest(l, k, s, done) == Rest(l, k + 1, After(l, k, s), done + [Entry(l, k, s)])
  {
    assert Start(l, k + 1) == Start(l, k) + l.size;
    hide SaveChunks, AfterChunk, Writable, Start, Bytes;
    SaveRound(l.codec, l.size, s, l.name, l.batch, Start(l, k), l.env, done);
  }

  // The chunk that is due lands exactly if the handle has a name.
  lemma LandsNow(l: Load, open: Handle, from: nat, k: nat, s: Store)
    requires Due(l, open, from, k, s) && GetsWritten(l, k) && Start(l, k) < |l.batch|
    requires open.Linked? || open.Unlinked?
    ensures Lands(l, open, from, k) <==> s.open.Linked?
  {
    hide Start, GetsWritten, Rotates, SizeAt, Writable, Smoothly;
  }

  // Chunk k is the last one that is written: the rotation after it fails.
  predicate Shuts(l: Load, from: nat, k: nat) {
    && Start(l, k) < |l.batch| && Smoothly(l, from, k) && GetsWritten(l, k)
    && Rotates(l, from, k) && !l.env(Start(l, k)).rotation.Created?
  }

  ghost predicate ShutsFrom(l: Load, from: nat, k: nat) {
    exists j: nat :: k <= j && Shuts(l, from, j)
  }

  lemma NothingShutsFrom(l: Load, from: nat, k: nat)
    requires Start(l, k) >= |l.batch| || !GetsWritten(l, k)
    ensures !ShutsFrom(l, from, k)
  {
    forall j: nat | k <= j ensures !Shuts(l, from, j) { StartGrows(l, k, j); }
  }

  lemma ShutsLater(l: Load, from: nat, k: nat)
    requires !Shuts(l, from, k)
    ensures ShutsFrom(l, from, k) <==> ShutsFrom(l, from, k + 1)
  {
    hide Shuts;
    if ShutsFrom(l, from, k) {
      var j: nat :| k <= j && Shuts(l, from, j);
      assert k + 1 <= j && Shuts(l, from, j);
    }
    if ShutsFrom(l, from, k + 1) {
      var j: nat :| k + 1 <= j && Shuts(l, from, j);
      assert k <= j && Shuts(l, from, j);
    }
  }

  lemma {:induction false} ChunksShut(l: Load, open: Handle, from: nat, k: nat, s: Store, done: seq<(Handle, Rec)>)
    requires l.size > 0 && Due(l, open, from, k, s)
    ensures Rest(l, k, s, done).store.open.Shut? <==> ShutsFrom(l, from, k)
    decreases |l.batch| - Start(l, k)
  {
    Round(l, k, s, done);
    hide Rest, After, ShutsFrom, Rotates, Smoothly, GetsWritten, SizeAt, Entry;
    if Start(l, k) >= |l.batch| || !GetsWritten(l, k) {
      NothingShutsFrom(l, from, k);
    } else if Rotates(l, from, k) && !l.env(Start(l, k)).rotation.Created? {
      ShutsNow(l, from, k);
      ShutNext(l, open, from, k, s, done + [Entry(l, k, s)]);
    } else {
      ShutsLater(l, from, k);
      NextDue(l, open, from, k, s);
      ChunksShut(l, open, from, k + 1, After(l, k, s), done + [Entry(l, k, s)]);
    }
  }

  // After a failed rotation the save ends.
  lemma ShutNext(l: Load, open: Handle, from: nat, k: nat, s: Store, done: seq<(Handle, Rec)>)
    requires l.size > 0 && Due(l, open, from, k, s) && GetsWritten(l, k)
    requires Rotates(l, from, k) && !l.env(Start(l, k)).rotation.Created?
    ensures var o := Rest(l, k + 1, After(l, k, s), done);
            && o.store.open.Shut? && o.written == done
            && o.result == (if Start(l, k + 1) >= |l.batch| then Saved else Failed)
  {
    hide Rest, AfterChunk, Line, Rotates, Smoothly, GetsWritten, SizeAt, Bytes;
    SizeMore(l, from, k);
    WrittenChunk(s, Line(l, k), l.env(Start(l, k)).rotation);
    Round(l, k + 1, After(l, k, s), done);
  }

  lemma ShutsNow(l: Load, from: nat, k: nat)
    requires Start(l, k) < |l.batch| && Smoothly(l, from, k) && GetsWritten(l, k)
    requires Rotates(l, from, k) && !l.env(Start(l, k)).rotation.Created?
    ensures ShutsFrom(l, from, k)
  {
    assert k <= k && Shuts(l, from, k);
  }

  // A save leaves a closed handle behind exactly if it found one, or a rotation after a chunk that is written fails.
  lemma SaveShuts(c: Codec, size: nat, s: Store, name: string, batch: seq<Elem>, env: SaveEnv)
    requires size > 0 && (s.open.Linked? ==> s.open.name in s.dir)
    ensures var l, start := Load(c, size, name, batch, env.chunks), OpensWith(s, env);
            Save(c, size, s, name, batch, env).store.open.Shut? <==>
            || s.open.Shut?
            || (!env.full && !start.0.NoFile? && exists k: nat :: Shuts(l, start.1, k))
  {
    var l, s' := Load(c, size, name, batch, env.chunks), Opened(s, env);
    if Writable(s') && !env.full {
      ChunksShut(l, s'.open, s'.size, 0, s', []);
    } else if !env.full {
      SaveRound(c, size, s', name, batch, 0, env.chunks, []);
      hide SaveChunks;
    }
    hide SaveChunks, Shuts;
  }

  // The file a save begins with: the open one or, if there has been none, a new one.
  function OpensWith(s: Store, env: SaveEnv): (Handle, nat) {
    if !s.open.NoFile? then (s.open, s.size)
    else if env.first.Created? then (Linked(env.first.name), 0)
    else (NoFile, s.size)
  }

  // A save writes an item to a file that has a name exactly if the disk is not full and some chunk with it lands.
  lemma SaveLands(c: Codec, size: nat, s: Store, name: string, batch: seq<Elem>, env: SaveEnv, it: Elem)
    requires size > 0 && (s.open.Linked? ==> s.open.name in s.dir)
    ensures var l, start := Load(c, size, name, batch, env.chunks), OpensWith(s, env);
            LoggedByName(Save(c, size, s, name, batch, env).written, name, it) <==>
            !env.full && exists k: nat :: Lands(l, start.0, start.1, k) && it in Chunk(l, k)
  {
    var l, s' := Load(c, size, name, batch, env.chunks), Opened(s, env);
    if !s'.open.Linked? && !s'.open.Unlinked? {
      assert forall k: nat :: !Lands(l, s'.open, s'.size, k);
    }
    hide Lands, Chunk;
    if (s'.open.Linked? || s'.open.Unlinked?) && !env.full {
      ChunksLand(l, s'.open, s'.size, 0, s', [], it);
    } else if !env.full {
      hide SaveChunks;
      SaveRound(c, size, s', name, batch, 0, env.chunks, []);
    }
  }

  // ---------- The result ----------

  // All chunks from k on are written.
  ghost predicate GoesWell(l: Load, from: nat, k: nat) {
    forall j: nat :: k <= j && Start(l, j) < |l.batch| ==> Smoothly(l, from, j) && GetsWritten(l, j)
  }

  lemma GoesWellFirst(l: Load, from: nat, k: nat)
    requires Smoothly(l, from, k) && GetsWritten(l, k)
    ensures GoesWell(l, from, k) <==> GoesWell(l, from, k + 1)
  {
    hide Start, GetsWritten, Smoothly;
    if GoesWell(l, from, k + 1) {
      forall j: nat | k <= j && Start(l, j) < |l.batch| ensures Smoothly(l, from, j) && GetsWritten(l, j) {}
    }
  }

  lemma NoMoreChunks(l: Load, from: nat, k: nat)
    requires Start(l, k) >= |l.batch|
    ensures GoesWell(l, from, k)
  {
    forall j: nat | k <= j ensures Start(l, j) >= |l.batch| { StartGrows(l, k, j); }
  }

  lemma {:induction false} ChunksSaved(l: Load, open: Handle, from: nat, k: nat, s: Store, done: seq<(Handle, Rec)>)
    requires l.size > 0 && Due(l, open, from, k, s)
    ensures Rest(l, k, s, done).result == if GoesWell(l, from, k) then Saved else Failed
    decreases |l.batch| - Start(l, k)
  {
    Round(l, k, s, done);
    if Start(l, k) >= |l.batch| {
      NoMoreChunks(l, from, k);
    } else if !GetsWritten(l, k) {
      assert k <= k && Start(l, k) < |l.batch| && !GetsWritten(l, k);
    } else {
      GoesWellFirst(l, from, k);
      hide Rest, After, Rotates, GetsWritten, SizeAt, Entry, GoesWell;
      if Rotates(l, from, k) && !l.env(Start(l, k)).rotation.Created? {
        ShutNext(l, open, from, k, s, done + [Entry(l, k, s)]);
        AfterFailedRotation(l, from, k);
      } else {
        NextDue(l, open, from, k, s);
        ChunksSaved(l, open, from, k + 1, After(l, k, s), done + [Entry(l, k, s)]);
      }
    }
  }

  lemma AfterFailedRotation(l: Load, from: nat, k: nat)
    requires Rotates(l, from, k) && !l.env(Start(l, k)).rotation.Created?
    ensures GoesWell(l, from, k + 1) <==> Start(l, k + 1) >= |l.batch|
  {
    if Start(l, k + 1) >= |l.batch| {
      NoMoreChunks(l, from, k + 1);
    } else {
      assert !Smoothly(l, from, k + 1);
    }
  }

  // What a save returns: it fails for a full disk if and only if it has a file and the disk is full, and it succeeds if
  // and only if it has a file, the disk is not full, and each chunk is encoded and written on an open handle.
  lemma SaveReturns(c: Codec, size: nat, s: Store, name: string, batch: seq<Elem>, env: SaveEnv)
    requires size > 0 && (s.open.Linked? ==> s.open.name in s.dir)
    ensures var l, start := Load(c, size, name, batch, env.chunks), OpensWith(s, env);
            var result := Save(c, size, s, name, batch, env).result;
            && (result == DiskFull <==> !start.0.NoFile? && env.full)
            && (result == Saved <==>
                  && !start.0.NoFile? && !env.full
                  && (batch == [] || start.0.Linked? || start.0.Unlinked?)
                  && forall k: nat :: Start(l, k) < |batch| ==> Smoothly(l, start.1, k) && GetsWritten(l, k))
  {
    var l, s' := Load(c, size, name, batch, env.chunks), Opened(s, env);
    assert GoesWell(l, s'.size, 0) <==>
           forall k: nat :: Start(l, k) < |batch| ==> Smoothly(l, s'.size, k) && GetsWritten(l, k);
    if Writable(s') && !env.full {
      ChunksSaved(l, s'.open, s'.size, 0, s', []);
    } else if !env.full {
      SaveRound(c, size, s', name, batch, 0, env.chunks, []);
      hide SaveChunks;
    }
    hide SaveChunks, Smoothly, GetsWritten;
  }
}
