/**
 The backup store of pkg/pipeline/storage.go: appending batches in chunks to the open file, rotating it when it
 has grown too large, and reading everything back.

 A directory maps names to contents; the open handle may outlive its name.  A failed write leaves no bytes.
 */
module Storage {
  import opened Wrappers
  import opened Framing
  import opened FileNames

  const MAX_FILE_SIZE: nat := 100 * 1024 * 1024
  const MAX_BUFFER: nat := 10 * 1024 * 1024

  datatype Handle = NoFile | Linked(name: string) | Unlinked | Shut

  datatype Store = Store(dir: map<string, string>, open: Handle, size: nat)

  const EMPTY := Store(map[], NoFile, 0)

  // What the environment does during one call: the outcome of a rotation, of the disk check and of each write.
  datatype Rotation = Created(name: string) | CreateFails
  datatype ChunkEnv = ChunkEnv(writes: bool, rotation: Rotation)
  datatype SaveEnv = SaveEnv(first: Rotation, full: bool, chunks: nat -> ChunkEnv)

  datatype Result = Saved | DiskFull | Failed

  // The outcome of a save and, as history, every record that was written with the handle it went to.
  datatype Out = Out(store: Store, result: Result, written: seq<(Handle, Rec)>)

  // Creating a file of an existing name truncates it; a failed creation leaves the closed handle in place.
  function Rotate(s: Store, r: Rotation): Store {
    match r
    case CreateFails => if s.open == NoFile then s else s.(open := Shut)
    case Created(name) => Store(s.dir[name := ""], Linked(name), 0)
  }

  predicate Writable(s: Store) {
    (s.open.Linked? && s.open.name in s.dir) || s.open.Unlinked?
  }

  function Append(s: Store, bytes: string): Store
    requires Writable(s)
  {
    var s' := s.(size := s.size + |bytes|);
    if s.open.Linked? then s'.(dir := s.dir[s.open.name := s.dir[s.open.name] + bytes]) else s'
  }

  function Min(a: nat, b: nat): nat {
    if a < b then a else b
  }

  // One chunk has been written.
  function AfterChunk(s: Store, bytes: string, r: Rotation): Store
    requires Writable(s)
  {
    var s' := Append(s, bytes);
    if s'.size > MAX_FILE_SIZE then Rotate(s', r) else s'
  }

  function SaveChunks(c: Codec, size: nat, s: Store, name: string, batch: seq<Elem>, index: nat, env: nat -> ChunkEnv,
                      done: seq<(Handle, Rec)>): Out
    requires size > 0
    decreases |batch| - index
  {
    if index >= |batch| then Out(s, Saved, done)
    else
      var chunk := batch[index..Min(index + size, |batch|)];
      var line := c.enc(name, chunk);
      if line.None? || !Writable(s) || !env(index).writes then Out(s, Failed, done)
      else
        SaveChunks(c, size, AfterChunk(s, line.value + "\n", env(index).rotation), name, batch, index + size, env,
                   done + [(s.open, Rec(name, chunk, false))])
  }

  function Opened(s: Store, env: SaveEnv): Store {
    if s.open.NoFile? then Rotate(s, env.first) else s
  }

  function Save(c: Codec, size: nat, s: Store, name: string, batch: seq<Elem>, env: SaveEnv): Out
    requires size > 0
  {
    var s' := Opened(s, env);
    if s'.open.NoFile? then Out(s', Failed, [])
    else if env.full then Out(s', DiskFull, [])
    else SaveChunks(c, size, s', name, batch, 0, env.chunks, [])
  }

  // os.Remove; an open handle on the file lives on without a name.
  function Remove(s: Store, f: string): Store {
    s.(dir := s.dir - {f}, open := if s.open == Linked(f) then Unlinked else s.open)
  }

  // ---------- Fresh names ----------

  // The rotation after a chunk, if there is one, creates a name that has not been used.
  predicate TakesFresh(s: Store, bytes: string, r: Rotation, used: set<string>)
    requires Writable(s)
  {
    Append(s, bytes).size > MAX_FILE_SIZE && r.Created? ==> r.name !in used
  }

  predicate FreshChunks(c: Codec, size: nat, s: Store, name: string, batch: seq<Elem>, index: nat,
                        env: nat -> ChunkEnv, used: set<string>)
    requires size > 0
    decreases |batch| - index
  {
    index < |batch| ==>
      var line := c.enc(name, batch[index..Min(index + size, |batch|)]);
      line.Some? && Writable(s) && env(index).writes ==>
        var s' := AfterChunk(s, line.value + "\n", env(index).rotation);
        && TakesFresh(s, line.value + "\n", env(index).rotation, used)
        && FreshChunks(c, size, s', name, batch, index + size, env, used + s'.dir.Keys)
  }

  predicate FreshNames(c: Codec, size: nat, s: Store, name: string, batch: seq<Elem>, env: SaveEnv, used: set<string>)
    requires size > 0
  {
    var s' := Opened(s, env);
    && (s.open.NoFile? && env.first.Created? ==> env.first.name !in used)
    && (!s'.open.NoFile? && !env.full ==> FreshChunks(c, size, s', name, batch, 0, env.chunks, used + s'.dir.Keys))
  }

  // ---------- What a save does to the records on disk ----------

  ghost predicate Kept(c: Codec, content: string) {
    exists recs :: Holds(c, content, recs)
  }

  ghost function Records(c: Codec, content: string): seq<Rec> {
    if Kept(c, content) then var recs :| Holds(c, content, recs); recs else []
  }

  lemma RecordsAre(c: Codec, content: string, recs: seq<Rec>)
    requires ValidCodec(c) && Holds(c, content, recs)
    ensures Records(c, content) == recs
  {
    HoldsOnce(c, content, recs, Records(c, content));
  }

  lemma RecordsHeld(c: Codec, content: string)
    requires Kept(c, content)
    ensures Holds(c, content, Records(c, content))
  {}

  ghost predicate WellKept(c: Codec, s: Store) {
    && (forall f :: f in s.dir ==> Kept(c, s.dir[f]))
    && (s.open.Linked? ==> s.open.name in s.dir)
  }

  // No file disappears and none loses a record or changes their order.
  ghost predicate Grew(c: Codec, s: Store, s': Store) {
    forall f :: f in s.dir ==> f in s'.dir && Records(c, s.dir[f]) <= Records(c, s'.dir[f])
  }

  lemma GrewTwice(c: Codec, s: Store, s': Store, s'': Store)
    requires Grew(c, s, s') && Grew(c, s', s'')
    ensures Grew(c, s, s'')
  {
    forall f | f in s.dir ensures f in s''.dir && Records(c, s.dir[f]) <= Records(c, s''.dir[f]) {
      assert f in s'.dir;
    }
  }

  lemma RotateGrew(c: Codec, s: Store, r: Rotation)
    requires ValidCodec(c) && WellKept(c, s) && (r.Created? ==> r.name !in s.dir)
    ensures WellKept(c, Rotate(s, r)) && Grew(c, s, Rotate(s, r))
    ensures r.Created? ==> Records(c, Rotate(s, r).dir[r.name]) == []
  {
    HoldsNothing(c);
    RecordsAre(c, "", []);
  }

  lemma AppendGrew(c: Codec, s: Store, name: string, data: seq<Elem>)
    requires ValidCodec(c) && WellKept(c, s) && Writable(s) && c.enc(name, data).Some?
    ensures var s' := Append(s, c.enc(name, data).value + "\n");
            && WellKept(c, s') && Grew(c, s, s')
            && s'.dir.Keys == s.dir.Keys && s'.open == s.open
            && (s.open.Linked? ==>
                  Records(c, s'.dir[s.open.name]) == Records(c, s.dir[s.open.name]) + [Rec(name, data, false)])
            && (forall f :: f in s.dir && s.open != Linked(f) ==> s'.dir[f] == s.dir[f])
  {
    hide Records, ValidCodec;
    if s.open.Linked? {
      var content, line := s.dir[s.open.name], c.enc(name, data).value;
      RecordsHeld(c, content);
      HoldsMore(c, content, Records(c, content), name, data);
      assert content + (line + "\n") == content + line + "\n";
      RecordsAre(c, content + (line + "\n"), Records(c, content) + [Rec(name, data, false)]);
    }
  }

  lemma AfterChunkGrew(c: Codec, s: Store, name: string, data: seq<Elem>, r: Rotation, used: set<string>)
    requires ValidCodec(c) && WellKept(c, s) && Writable(s) && c.enc(name, data).Some?
    requires s.dir.Keys <= used && TakesFresh(s, c.enc(name, data).value + "\n", r, used)
    ensures var s' := AfterChunk(s, c.enc(name, data).value + "\n", r);
            && WellKept(c, s') && Grew(c, s, s')
            && (s.open.Linked? ==> s.open.name in s'.dir && Rec(name, data, false) in Records(c, s'.dir[s.open.name]))
  {
    var bytes := c.enc(name, data).value + "\n";
    AppendGrew(c, s, name, data);
    var s1 := Append(s, bytes);
    if s.open.Linked? {
      assert Records(c, s1.dir[s.open.name])[|Records(c, s.dir[s.open.name])|] == Rec(name, data, false);
    }
    if s1.size > MAX_FILE_SIZE {
      RotateGrew(c, s1, r);
      GrewTwice(c, s, s1, Rotate(s1, r));
    }
  }

  // Every record in the log is of this batch, and is on disk if its handle had a name.
  ghost predicate Logged(c: Codec, s: Store, name: string, log: seq<(Handle, Rec)>) {
    forall k :: 0 <= k < |log| ==>
      && log[k].1.name == name && !log[k].1.finish && (log[k].0.Linked? || log[k].0.Unlinked?)
      && (log[k].0.Linked? ==> log[k].0.name in s.dir && log[k].1 in Records(c, s.dir[log[k].0.name]))
  }

  ghost predicate InLog(log: seq<(Handle, Rec)>, it: Elem) {
    exists k :: 0 <= k < |log| && it in log[k].1.data
  }

  lemma LoggedLater(c: Codec, s: Store, s': Store, name: string, log: seq<(Handle, Rec)>)
    requires Logged(c, s, name, log) && Grew(c, s, s')
    ensures Logged(c, s', name, log)
  {}

  lemma LoggedMore(c: Codec, s: Store, name: string, log: seq<(Handle, Rec)>, h: Handle, data: seq<Elem>)
    requires Logged(c, s, name, log) && (h.Linked? || h.Unlinked?)
    requires h.Linked? ==> h.name in s.dir && Rec(name, data, false) in Records(c, s.dir[h.name])
    ensures Logged(c, s, name, log + [(h, Rec(name, data, false))])
  {
    hide Records;
  }

  // The items before an index are in the log.
  ghost predicate LoggedUpto(log: seq<(Handle, Rec)>, batch: seq<Elem>, index: nat)
    requires index <= |batch|
  {
    forall it :: it in batch[..index] ==> InLog(log, it)
  }

  lemma LoggedUptoMore(log: seq<(Handle, Rec)>, batch: seq<Elem>, index: nat, end: nat, h: Handle, name: string)
    requires index <= end <= |batch| && LoggedUpto(log, batch, index)
    ensures LoggedUpto(log + [(h, Rec(name, batch[index..end], false))], batch, end)
  {
    var log' := log + [(h, Rec(name, batch[index..end], false))];
    forall it | it in batch[..end] ensures InLog(log', it) {
      if it in batch[..index] {
        assert InLog(log, it);
        var k :| 0 <= k < |log| && it in log[k].1.data;
        assert it in log'[k].1.data;
      } else {
        assert it in log'[|log|].1.data;
      }
    }
  }

  lemma {:induction false} SaveChunksGrew(c: Codec, size: nat, s: Store, name: string, batch: seq<Elem>, index: nat,
                                          env: nat -> ChunkEnv,
                                          done: seq<(Handle, Rec)>, used: set<string>)
    requires ValidCodec(c) && size > 0 && WellKept(c, s) && s.dir.Keys <= used
    requires FreshChunks(c, size, s, name, batch, index, env, used)
    requires Logged(c, s, name, done) && LoggedUpto(done, batch, Min(index, |batch|))
    ensures var o := SaveChunks(c, size, s, name, batch, index, env, done);
            && WellKept(c, o.store) && Grew(c, s, o.store) && Logged(c, o.store, name, o.written)
            && o.result != DiskFull
            && (o.result == Saved ==> LoggedUpto(o.written, batch, |batch|))
    decreases |batch| - index
  {
    ChunkStep(c, size, s, name, batch, index, env, done, used);
    hide SaveChunks, FreshChunks, WellKept, Grew, Logged, LoggedUpto, AfterChunk, Append, ValidCodec, Records;
    var end := Min(index + size, |batch|);
    if index < |batch| && ChunkWritten(c, s, name, batch[index..end], env(index)) {
      var chunk := batch[index..end];
      AfterChunkGrew(c, s, name, chunk, env(index).rotation, used);
      var s' := AfterChunk(s, c.enc(name, chunk).value + "\n", env(index).rotation);
      var done' := done + [(s.open, Rec(name, chunk, false))];
      LoggedLater(c, s, s', name, done);
      LoggedMore(c, s', name, done, s.open, chunk);
      LoggedUptoMore(done, batch, index, end, s.open, name);
      SaveChunksGrew(c, size, s', name, batch, index + size, env, done', used + s'.dir.Keys);
      GrewTwice(c, s, s', SaveChunks(c, size, s', name, batch, index + size, env, done').store);
    } else {
      GrewNot(c, s);
    }
  }

  predicate ChunkWritten(c: Codec, s: Store, name: string, chunk: seq<Elem>, env: ChunkEnv) {
    c.enc(name, chunk).Some? && Writable(s) && env.writes
  }

  // One round of the loop.
  lemma SaveRound(c: Codec, size: nat, s: Store, name: string, batch: seq<Elem>, index: nat, env: nat -> ChunkEnv,
                  done: seq<(Handle, Rec)>)
    requires size > 0
    ensures var chunk, o := batch[Min(index, |batch|)..Min(index + size, |batch|)],
            SaveChunks(c, size, s, name, batch, index, env, done);
            o == if index >= |batch| then Out(s, Saved, done)
                 else if !ChunkWritten(c, s, name, chunk, env(index)) then Out(s, Failed, done)
                 else SaveChunks(c, size, AfterChunk(s, c.enc(name, chunk).value + "\n", env(index).rotation), name,
                                 batch, index + size, env, done + [(s.open, Rec(name, chunk, false))])
  {}

  // The same with the names it takes.
  lemma ChunkStep(c: Codec, size: nat, s: Store, name: string, batch: seq<Elem>, index: nat, env: nat -> ChunkEnv,
                  done: seq<(Handle, Rec)>, used: set<string>)
    requires size > 0 && FreshChunks(c, size, s, name, batch, index, env, used)
    ensures var chunk, o := batch[Min(index, |batch|)..Min(index + size, |batch|)],
            SaveChunks(c, size, s, name, batch, index, env, done);
            if index >= |batch| then o == Out(s, Saved, done)
            else if !ChunkWritten(c, s, name, chunk, env(index)) then o == Out(s, Failed, done)
            else
              var bytes := c.enc(name, chunk).value + "\n";
              var s' := AfterChunk(s, bytes, env(index).rotation);
              && TakesFresh(s, bytes, env(index).rotation, used)
              && FreshChunks(c, size, s', name, batch, index + size, env, used + s'.dir.Keys)
              && o == SaveChunks(c, size, s', name, batch, index + size, env,
                                 done + [(s.open, Rec(name, chunk, false))])
  {}

  lemma GrewNot(c: Codec, s: Store)
    ensures Grew(c, s, s)
  {}

  // A chunk goes through the handle the save began with, or onto a file created during the save.
  lemma {:induction false} WrittenThrough(c: Codec, size: nat, s: Store, name: string, batch: seq<Elem>, index: nat,
                                          env: nat -> ChunkEnv,
                                          done: seq<(Handle, Rec)>, used: set<string>)
    requires size > 0 && FreshChunks(c, size, s, name, batch, index, env, used)
    ensures var log := SaveChunks(c, size, s, name, batch, index, env, done).written;
            && done <= log
            && forall k :: |done| <= k < |log| ==> log[k].0 == s.open || (log[k].0.Linked? && log[k].0.name !in used)
    decreases |batch| - index
  {
    if index < |batch| {
      var chunk := batch[index..Min(index + size, |batch|)];
      var line := c.enc(name, chunk);
      if line.Some? && Writable(s) && env(index).writes {
        var s' := AfterChunk(s, line.value + "\n", env(index).rotation);
        var done' := done + [(s.open, Rec(name, chunk, false))];
        WrittenThrough(c, size, s', name, batch, index + size, env, done', used + s'.dir.Keys);
        var log := SaveChunks(c, size, s', name, batch, index + size, env, done').written;
        assert log[|done|] == done'[|done|];
        OpenAfterChunk(s, line.value + "\n", env(index).rotation, used);
        hide AfterChunk, FreshChunks, SaveChunks;
      }
    }
  }

  lemma OpenAfterChunk(s: Store, bytes: string, r: Rotation, used: set<string>)
    requires Writable(s) && TakesFresh(s, bytes, r, used)
    ensures var h := AfterChunk(s, bytes, r).open; h == s.open || h == Shut || (h.Linked? && h.name !in used)
  {}

  // Whatever goes wrong, a save adds records and takes none away; a successful one has written every item, on a
  // linked file unless the open file had lost its name; a full disk has written nothing.
  lemma SaveGrew(c: Codec, size: nat, s: Store, name: string, batch: seq<Elem>, env: SaveEnv, used: set<string>)
    requires ValidCodec(c) && size > 0 && WellKept(c, s) && s.dir.Keys <= used
    requires FreshNames(c, size, s, name, batch, env, used)
    ensures var o := Save(c, size, s, name, batch, env);
            && WellKept(c, o.store) && Grew(c, s, o.store) && Logged(c, o.store, name, o.written)
            && (o.result == Saved ==> forall it :: it in batch ==> InLog(o.written, it))
            && (o.result == DiskFull ==>
                  && o.written == []
                  && forall f :: f in o.store.dir ==> if f in s.dir then o.store.dir[f] == s.dir[f]
                     else Records(c, o.store.dir[f]) == [])
  {
    if s.open.NoFile? { RotateGrew(c, s, env.first); }
    var s' := Opened(s, env);
    if !s'.open.NoFile? && !env.full {
      assert LoggedUpto([], batch, 0);
      SaveChunksGrew(c, size, s', name, batch, 0, env.chunks, [], used + s'.dir.Keys);
      GrewTwice(c, s, s', SaveChunks(c, size, s', name, batch, 0, env.chunks, []).store);
    }
  }

  // ---------- Where a save puts its records ----------

  ghost function RecordsAt(c: Codec, dir: map<string, string>, f: string): seq<Rec> {
    if f in dir then Records(c, dir[f]) else []
  }

  // The records of a log that went through a handle on the file f.
  function LoggedTo(log: seq<(Handle, Rec)>, f: string): seq<Rec> {
    if log == [] then []
    else LoggedTo(log[..|log| - 1], f) + if log[|log| - 1].0 == Linked(f) then [log[|log| - 1].1] else []
  }

  lemma {:induction false} LoggedToFirst(e: (Handle, Rec), log: seq<(Handle, Rec)>, f: string)
    ensures LoggedTo([e] + log, f) == (if e.0 == Linked(f) then [e.1] else []) + LoggedTo(log, f)
  {
    if log == [] {
      assert [e] + log == [e] && [e][..0] == [];
    } else {
      var n := |log| - 1;
      assert ([e] + log)[..n + 1] == [e] + log[..n];
      LoggedToFirst(e, log[..n], f);
    }
  }

  lemma RotateExactly(c: Codec, s: Store, r: Rotation, f: string)
    requires ValidCodec(c) && WellKept(c, s) && (r.Created? ==> r.name !in s.dir)
    ensures RecordsAt(c, Rotate(s, r).dir, f) == RecordsAt(c, s.dir, f)
  {
    RotateGrew(c, s, r);
    hide Records, ValidCodec, WellKept, Grew;
  }

  lemma AppendExactly(c: Codec, s: Store, name: string, data: seq<Elem>, f: string)
    requires ValidCodec(c) && WellKept(c, s) && Writable(s) && c.enc(name, data).Some?
    ensures RecordsAt(c, Append(s, c.enc(name, data).value + "\n").dir, f) ==
            RecordsAt(c, s.dir, f) + if s.open == Linked(f) then [Rec(name, data, false)] else []
  {
    AppendGrew(c, s, name, data);
    hide Records, ValidCodec, WellKept, Grew, Append;
  }

  lemma ChunkExactly(c: Codec, s: Store, name: string, data: seq<Elem>, r: Rotation, used: set<string>, f: string)
    requires ValidCodec(c) && WellKept(c, s) && Writable(s) && c.enc(name, data).Some?
    requires s.dir.Keys <= used && TakesFresh(s, c.enc(name, data).value + "\n", r, used)
    ensures var s' := AfterChunk(s, c.enc(name, data).value + "\n", r);
            RecordsAt(c, s'.dir, f) == RecordsAt(c, s.dir, f) + if s.open == Linked(f) then [Rec(name, data, false)]
              else []
  {
    var s1 := Append(s, c.enc(name, data).value + "\n");
    AppendGrew(c, s, name, data);
    AppendExactly(c, s, name, data, f);
    hide Records, RecordsAt, ValidCodec, WellKept, Grew, Append, Rotate;
    if s1.size > MAX_FILE_SIZE { RotateExactly(c, s1, r, f); }
  }

  lemma {:induction false} SaveChunksExactly(c: Codec, size: nat, s: Store, name: string, batch: seq<Elem>, index: nat,
                                             env: nat -> ChunkEnv, done: seq<(Handle, Rec)>, used: set<string>,
                                               f: string)
    requires ValidCodec(c) && size > 0 && WellKept(c, s) && s.dir.Keys <= used
    requires FreshChunks(c, size, s, name, batch, index, env, used)
    ensures var o := SaveChunks(c, size, s, name, batch, index, env, done);
            done <= o.written && RecordsAt(c, o.store.dir, f) ==
              RecordsAt(c, s.dir, f) + LoggedTo(o.written[|done|..], f)
    decreases |batch| - index
  {
    ChunkStep(c, size, s, name, batch, index, env, done, used);
    hide SaveChunks, FreshChunks, WellKept, AfterChunk, Append, ValidCodec, Records, RecordsAt, Grew, TakesFresh,
      LoggedTo;
    if index < |batch| && ChunkWritten(c, s, name, batch[index..Min(index + size, |batch|)], env(index)) {
      var chunk := batch[index..Min(index + size, |batch|)];
      var e := (s.open, Rec(name, chunk, false));
      AfterChunkGrew(c, s, name, chunk, env(index).rotation, used);
      ChunkExactly(c, s, name, chunk, env(index).rotation, used, f);
      var s' := AfterChunk(s, c.enc(name, chunk).value + "\n", env(index).rotation);
      SaveChunksExactly(c, size, s', name, batch, index + size, env, done + [e], used + s'.dir.Keys, f);
      var o := SaveChunks(c, size, s', name, batch, index + size, env, done + [e]);
      LoggedToRest(o.written, done, e, f, RecordsAt(c, s.dir, f), RecordsAt(c, s'.dir, f),
                   RecordsAt(c, o.store.dir, f));
    } else {
      NothingLogged(done, RecordsAt(c, s.dir, f), f);
    }
  }

  lemma NothingLogged(done: seq<(Handle, Rec)>, recs: seq<Rec>, f: string)
    ensures recs + LoggedTo(done[|done|..], f) == recs
  {}

  // A file that takes its part of one record and then its parts of the later ones.
  lemma LoggedToRest(log: seq<(Handle, Rec)>, done: seq<(Handle, Rec)>, e: (Handle, Rec), f: string,
                     before: seq<Rec>, between: seq<Rec>, after: seq<Rec>)
    requires done + [e] <= log
    requires between == before + if e.0 == Linked(f) then [e.1] else []
    requires after == between + LoggedTo(log[|done + [e]|..], f)
    ensures done <= log && after == before + LoggedTo(log[|done|..], f)
  {
    assert log[|done|] == (done + [e])[|done|] == e;
    assert log[|done|..] == [e] + log[|done + [e]|..];
    LoggedToFirst(e, log[|done + [e]|..], f);
  }

  // After a save every file holds what it held, and then exactly the records written through a handle on it.
  lemma SaveExactly(c: Codec, size: nat, s: Store, name: string, batch: seq<Elem>, env: SaveEnv, used: set<string>,
                    f: string)
    requires ValidCodec(c) && size > 0 && WellKept(c, s) && s.dir.Keys <= used
    requires FreshNames(c, size, s, name, batch, env, used)
    ensures var o := Save(c, size, s, name, batch, env);
            RecordsAt(c, o.store.dir, f) == RecordsAt(c, s.dir, f) + LoggedTo(o.written, f)
  {
    if s.open.NoFile? { RotateGrew(c, s, env.first); }
    var s' := Opened(s, env);
    assert RecordsAt(c, s'.dir, f) == RecordsAt(c, s.dir, f);
    if !s'.open.NoFile? && !env.full {
      SaveChunksExactly(c, size, s', name, batch, 0, env.chunks, [], used + s'.dir.Keys, f);
      var log := SaveChunks(c, size, s', name, batch, 0, env.chunks, []).written;
      assert log[0..] == log;
    }
    hide SaveChunks, FreshChunks, Records;
  }

  // Every record of a save has the name and items of its batch.
  lemma {:induction false} WrittenIsOfBatch(c: Codec, size: nat, s: Store, name: string, batch: seq<Elem>, index: nat,
                                            env: nat -> ChunkEnv, done: seq<(Handle, Rec)>)
    requires size > 0
    requires forall e :: e in done ==> e.1.name == name && !e.1.finish && forall it :: it in e.1.data ==> it in batch
    ensures forall e :: e in SaveChunks(c, size, s, name, batch, index, env, done).written ==>
              e.1.name == name && !e.1.finish && forall it :: it in e.1.data ==> it in batch
    decreases |batch| - index
  {
    if index < |batch| {
      var chunk := batch[index..Min(index + size, |batch|)];
      var line := c.enc(name, chunk);
      if line.Some? && Writable(s) && env(index).writes {
        WrittenIsOfBatch(c, size, AfterChunk(s, line.value + "\n", env(index).rotation), name, batch, index + size, env,
                         done + [(s.open, Rec(name, chunk, false))]);
      }
    }
  }
}
