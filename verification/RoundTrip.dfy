/**
 What goes into the backup store comes out again: any sequence of saves without faults, replayed file by file in
 listing order, gives every name its batches back in order.
 */
module RoundTrip {
  import opened Wrappers
  import opened Framing
  import opened FileNames
  import opened Storage

  // A name later than every name in the directory, as the clock gives one when a second has passed.
  predicate Newest(s: Store, name: string) {
    forall f :: f in s.dir ==> Less(f, name)
  }

  predicate Fits(c: Codec, cap: nat, name: string, data: seq<Elem>) {
    c.enc(name, data).Some? && |c.enc(name, data).value| < cap
  }

  predicate GoodChunks(c: Codec, size: nat, cap: nat, s: Store, name: string, batch: seq<Elem>, index: nat,
                       env: nat -> ChunkEnv)
    requires size > 0
    decreases |batch| - index
  {
    index < |batch| ==>
      var chunk := batch[index..Min(index + size, |batch|)];
      && Fits(c, cap, name, chunk) && Writable(s) && env(index).writes
      && var bytes := c.enc(name, chunk).value + "\n";
      && (Append(s, bytes).size > MAX_FILE_SIZE ==> env(index).rotation.Created? && Newest(s, env(index).rotation.name))
      && GoodChunks(c, size, cap, AfterChunk(s, bytes, env(index).rotation), name, batch, index + size, env)
  }

  // No fault, fresh names, and lines within the reader's limit.
  predicate GoodSave(c: Codec, size: nat, cap: nat, s: Store, name: string, batch: seq<Elem>, env: SaveEnv)
    requires size > 0
  {
    && !env.full
    && (s.open.NoFile? ==> env.first.Created? && Newest(s, env.first.name))
    && GoodChunks(c, size, cap, Opened(s, env), name, batch, 0, env.chunks)
  }

  function Chunks(size: nat, name: string, batch: seq<Elem>, index: nat): seq<Rec>
    requires size > 0
    decreases |batch| - index
  {
    if index >= |batch| then []
    else [Rec(name, batch[index..Min(index + size, |batch|)], false)] + Chunks(size, name, batch, index + size)
  }

  function ItemsOf(recs: seq<Rec>, name: string): seq<Elem> {
    if recs == [] then []
    else (if recs[0].name == name && !recs[0].finish then recs[0].data else []) + ItemsOf(recs[1..], name)
  }

  lemma {:induction false} ItemsOfConcat(a: seq<Rec>, b: seq<Rec>, name: string)
    ensures ItemsOf(a + b, name) == ItemsOf(a, name) + ItemsOf(b, name)
  {
    if a == [] {
      assert a + b == b;
    } else {
      assert (a + b)[1..] == a[1..] + b;
      ItemsOfConcat(a[1..], b, name);
    }
  }

  lemma {:induction false} ItemsOfChunks(size: nat, name: string, batch: seq<Elem>, index: nat, other: string)
    requires size > 0
    ensures ItemsOf(Chunks(size, name, batch, index), other) == if other == name && index < |batch|
            then batch[index..] else []
    decreases |batch| - index
  {
    if index < |batch| {
      ItemsOfChunks(size, name, batch, index + size, other);
      ItemsOfFirst(size, name, batch, index, other);
      hide ItemsOf, Chunks;
      CutAt(batch, index, Min(index + size, |batch|));
      if index + size >= |batch| { assert batch[|batch|..] == []; }
    }
  }

  lemma ItemsOfFirst(size: nat, name: string, batch: seq<Elem>, index: nat, other: string)
    requires size > 0 && index < |batch|
    ensures ItemsOf(Chunks(size, name, batch, index), other) ==
            (if other == name then batch[index..Min(index + size, |batch|)] else [])
              + ItemsOf(Chunks(size, name, batch, index + size), other)
  {
    var rest := Chunks(size, name, batch, index + size);
    var first := Rec(name, batch[index..Min(index + size, |batch|)], false);
    assert Chunks(size, name, batch, index) == [first] + rest && ([first] + rest)[1..] == rest;
    hide Chunks;
  }

  lemma CutAt(batch: seq<Elem>, i: nat, j: nat)
    requires i <= j <= |batch|
    ensures batch[i..] == batch[i..j] + batch[j..]
  {}

  // ---------- The store between saves ----------

  // Everything before the last line of the file is within the size limit.
  ghost predicate OverByOneLine(content: string) {
    content == "" || exists k :: LastLineFrom(content, k)
  }

  ghost predicate LastLineFrom(content: string, k: nat) {
    k < |content| && k <= MAX_FILE_SIZE && content[|content| - 1] == '\n' && '\n' !in content[k..|content| - 1]
  }

  ghost predicate FileOk(c: Codec, size: nat, cap: nat, content: string) {
    && Kept(c, content) && OverByOneLine(content)
    && forall r :: r in Records(c, content) ==> 1 <= |r.data| <= size && Fits(c, cap, r.name, r.data) && !r.finish
  }

  // The directory may hold files of earlier processes, none of them open yet.
  ghost predicate Good(c: Codec, size: nat, cap: nat, s: Store) {
    || (s.open.NoFile? && forall f :: f in s.dir ==> FileOk(c, size, cap, s.dir[f]))
    || (&& s.open.Linked? && s.open.name in s.dir
        && s.size == |s.dir[s.open.name]| <= MAX_FILE_SIZE
        && (forall f :: f in s.dir ==> FileOk(c, size, cap, s.dir[f]))
        && (forall f :: f in s.dir && f != s.open.name ==> Less(f, s.open.name)))
  }

  // The records of the listed files, in listing order.
  ghost function AllRecords(c: Codec, dir: map<string, string>, files: seq<string>): seq<Rec> {
    if files == [] then []
    else
      var f := files[|files| - 1];
      AllRecords(c, dir, files[..|files| - 1]) + if f in dir then Records(c, dir[f]) else []
  }

  lemma {:induction false} AllRecordsFrame(c: Codec, dir: map<string, string>, dir': map<string, string>,
                                           files: seq<string>)
    requires forall k :: 0 <= k < |files| ==> files[k] in dir && files[k] in dir' && dir[files[k]] == dir'[files[k]]
    ensures AllRecords(c, dir, files) == AllRecords(c, dir', files)
  {
    if files != [] { AllRecordsFrame(c, dir, dir', files[..|files| - 1]); }
  }

  // All records on disk in replay order.
  ghost predicate OnDisk(c: Codec, s: Store, recs: seq<Rec>) {
    exists files :: ListedAs(c, s, files, recs)
  }

  ghost predicate ListedAs(c: Codec, s: Store, files: seq<string>, recs: seq<Rec>) {
    IsListing(files, s.dir.Keys) && AllRecords(c, s.dir, files) == recs
  }

  lemma OpenIsLast(s: Store, open: string, files: seq<string>)
    requires open in s.dir && IsListing(files, s.dir.Keys)
    requires forall f :: f in s.dir && f != open ==> Less(f, open)
    ensures files != [] && files[|files| - 1] == open
    ensures forall k :: 0 <= k < |files| - 1 ==> files[k] != open && files[k] in s.dir
  {
    assert open in files;
    var k :| 0 <= k < |files| && files[k] == open;
    var last := files[|files| - 1];
    assert last in files;
    assert last == open || Less(last, open);
    if k < |files| - 1 {
      LessAsymmetric(files[k], last);
    }
    forall l | 0 <= l < |files| - 1 ensures files[l] != open && files[l] in s.dir {
      assert Less(files[l], last) && files[l] in files;
      LessAsymmetric(files[l], last);
    }
  }

  ghost predicate AllOk(c: Codec, size: nat, cap: nat, dir: map<string, string>) {
    forall f :: f in dir ==> FileOk(c, size, cap, dir[f])
  }

  lemma EmptyFileOk(c: Codec, size: nat, cap: nat)
    requires ValidCodec(c)
    ensures FileOk(c, size, cap, "") && Records(c, "") == []
  {
    HoldsNothing(c);
    RecordsAre(c, "", []);
  }

  lemma NewestIsNew(s: Store, name: string)
    requires Newest(s, name)
    ensures name !in s.dir
  {
    if name in s.dir { LessIrreflexive(name); }
  }

  lemma NewLast(c: Codec, dir: map<string, string>, files: seq<string>, name: string)
    requires forall f :: f in files ==> f in dir && f != name
    ensures AllRecords(c, dir[name := ""], files + [name]) == AllRecords(c, dir, files) + Records(c, "")
  {
    var dir' := dir[name := ""];
    assert (files + [name])[..|files|] == files;
    forall k | 0 <= k < |files| ensures files[k] in dir && files[k] in dir' && dir[files[k]] == dir'[files[k]] {
      assert files[k] in files;
    }
    AllRecordsFrame(c, dir, dir', files);
  }

  lemma RotatedListing(c: Codec, s: Store, name: string, recs: seq<Rec>)
    requires ValidCodec(c) && OnDisk(c, s, recs) && Newest(s, name)
    ensures name !in s.dir && OnDisk(c, Rotate(s, Created(name)), recs)
  {
    var s' := Rotate(s, Created(name));
    var files :| ListedAs(c, s, files, recs);
    NewestIsNew(s, name);
    ListingGrows(files, s.dir.Keys, name);
    NewLast(c, s.dir, files, name);
    EmptyFileOk(c, 0, 0);
    hide Less, AllRecords, Records, Sorted, FileOk;
    assert s'.dir.Keys == s.dir.Keys + {name};
    assert ListedAs(c, s', files + [name], recs);
  }

  lemma RotateGood(c: Codec, size: nat, cap: nat, s: Store, name: string, recs: seq<Rec>)
    requires ValidCodec(c) && OnDisk(c, s, recs) && Newest(s, name) && AllOk(c, size, cap, s.dir)
    ensures var s' := Rotate(s, Created(name));
            Good(c, size, cap, s') && s'.open.Linked? && OnDisk(c, s', recs)
  {
    hide Less, FileOk, OnDisk, ValidCodec;
    RotatedListing(c, s, name, recs);
    EmptyFileOk(c, size, cap);
  }

  lemma AppendFileOk(c: Codec, size: nat, cap: nat, content: string, name: string, data: seq<Elem>)
    requires ValidCodec(c) && FileOk(c, size, cap, content) && |content| <= MAX_FILE_SIZE
    requires Fits(c, cap, name, data) && 1 <= |data| <= size
    ensures var content' := content + (c.enc(name, data).value + "\n");
            FileOk(c, size, cap, content') && Records(c, content') == Records(c, content) + [Rec(name, data, false)]
  {
    var line := c.enc(name, data).value;
    var content' := content + (line + "\n");
    HoldsMore(c, content, Records(c, content), name, data);
    assert content' == content + line + "\n";
    RecordsAre(c, content', Records(c, content) + [Rec(name, data, false)]);
    assert content'[|content|..|content'| - 1] == line;
    assert LastLineFrom(content', |content|);
  }

  lemma AppendedListing(c: Codec, s: Store, o: string, content': string, r: Rec, recs: seq<Rec>)
    requires o in s.dir && OnDisk(c, s, recs) && (forall f :: f in s.dir && f != o ==> Less(f, o))
    requires Records(c, content') == Records(c, s.dir[o]) + [r]
    ensures OnDisk(c, s.(dir := s.dir[o := content']), recs + [r])
  {
    var s' := s.(dir := s.dir[o := content']);
    var files :| ListedAs(c, s, files, recs);
    OpenIsLast(s, o, files);
    AllRecordsFrame(c, s.dir, s'.dir, files[..|files| - 1]);
    assert s'.dir.Keys == s.dir.Keys;
    assert ListedAs(c, s', files, recs + [r]);
  }

  lemma AppendGood(c: Codec, size: nat, cap: nat, s: Store, name: string, data: seq<Elem>, recs: seq<Rec>)
    requires ValidCodec(c) && Good(c, size, cap, s) && s.open.Linked? && OnDisk(c, s, recs)
    requires Fits(c, cap, name, data) && 1 <= |data| <= size
    ensures var s' := Append(s, c.enc(name, data).value + "\n");
            && AllOk(c, size, cap, s'.dir)
            && s'.size == |s'.dir[s.open.name]| && s'.dir.Keys == s.dir.Keys && s'.open == s.open
            && OnDisk(c, s', recs + [Rec(name, data, false)])
  {
    hide Less, FileOk, Records, ValidCodec, IsListing, AllRecords;
    var o := s.open.name;
    AppendFileOk(c, size, cap, s.dir[o], name, data);
    var content' := s.dir[o] + (c.enc(name, data).value + "\n");
    AppendedListing(c, s, o, content', Rec(name, data, false), recs);
    var s1 := s.(dir := s.dir[o := content']);
    var s' := Append(s, c.enc(name, data).value + "\n");
    assert s'.dir == s1.dir;
    var files :| ListedAs(c, s1, files, recs + [Rec(name, data, false)]);
    assert ListedAs(c, s', files, recs + [Rec(name, data, false)]);
  }

  lemma AfterChunkGood(c: Codec, size: nat, cap: nat, s: Store, name: string, data: seq<Elem>, r: Rotation,
                       recs: seq<Rec>)
    requires ValidCodec(c) && Good(c, size, cap, s) && s.open.Linked? && OnDisk(c, s, recs)
    requires Fits(c, cap, name, data) && 1 <= |data| <= size
    requires Append(s, c.enc(name, data).value + "\n").size > MAX_FILE_SIZE ==> r.Created? && Newest(s, r.name)
    ensures var s' := AfterChunk(s, c.enc(name, data).value + "\n", r);
            Good(c, size, cap, s') && s'.open.Linked? && OnDisk(c, s', recs + [Rec(name, data, false)])
  {
    hide Less, FileOk, Records, ValidCodec, OnDisk;
    AppendGood(c, size, cap, s, name, data, recs);
    var s1 := Append(s, c.enc(name, data).value + "\n");
    if s1.size > MAX_FILE_SIZE { RotateGood(c, size, cap, s1, r.name, recs + [Rec(name, data, false)]); }
  }

  lemma {:induction false} SaveChunksAppends(c: Codec, size: nat, cap: nat, s: Store, name: string, batch: seq<Elem>,
                                             index: nat, env: nat -> ChunkEnv,
                                             done: seq<(Handle, Rec)>, recs: seq<Rec>)
    requires ValidCodec(c) && size > 0 && Good(c, size, cap, s) && s.open.Linked? && OnDisk(c, s, recs)
    requires GoodChunks(c, size, cap, s, name, batch, index, env)
    ensures var o := SaveChunks(c, size, s, name, batch, index, env, done);
            o.result == Saved && Good(c, size, cap, o.store) && o.store.open.Linked?
            && OnDisk(c, o.store, recs + Chunks(size, name, batch, index))
    decreases |batch| - index
  {
    hide Good, OnDisk, AfterChunk, Append;
    if index < |batch| {
      var chunk := batch[index..Min(index + size, |batch|)];
      var bytes := c.enc(name, chunk).value + "\n";
      var r := Rec(name, chunk, false);
      AfterChunkGood(c, size, cap, s, name, chunk, env(index).rotation, recs);
      SaveChunksAppends(c, size, cap, AfterChunk(s, bytes, env(index).rotation), name, batch, index + size, env,
                        done + [(s.open, r)], recs + [r]);
      assert recs + [r] + Chunks(size, name, batch, index + size) == recs + Chunks(size, name, batch, index);
    } else {
      assert recs + [] == recs;
    }
  }

  // ---------- Any sequence of saves ----------

  datatype Op = Op(name: string, batch: seq<Elem>, env: SaveEnv)

  // A process starts on a directory with no file open.
  function SaveAll(c: Codec, size: nat, dir: map<string, string>, ops: seq<Op>): Store
    requires size > 0
  {
    if ops == [] then Store(dir, NoFile, 0)
    else
      var op := ops[|ops| - 1];
      Save(c, size, SaveAll(c, size, dir, ops[..|ops| - 1]), op.name, op.batch, op.env).store
  }

  predicate GoodOps(c: Codec, size: nat, cap: nat, dir: map<string, string>, ops: seq<Op>)
    requires size > 0
  {
    ops == [] ||
    (var op := ops[|ops| - 1];
     && GoodOps(c, size, cap, dir, ops[..|ops| - 1])
     && GoodSave(c, size, cap, SaveAll(c, size, dir, ops[..|ops| - 1]), op.name, op.batch, op.env))
  }

  function SavedFor(ops: seq<Op>, name: string): seq<Elem> {
    if ops == [] then []
    else SavedFor(ops[..|ops| - 1], name) + if ops[|ops| - 1].name == name then ops[|ops| - 1].batch else []
  }

  // The items under each name are the old ones and then the saved ones, in order.
  ghost predicate Restores(found: seq<Rec>, ops: seq<Op>, recs: seq<Rec>) {
    forall name :: ItemsOf(recs, name) == ItemsOf(found, name) + SavedFor(ops, name)
  }

  lemma {:induction false} AllOnDisk(c: Codec, size: nat, cap: nat, dir: map<string, string>, files: seq<string>,
                                     ops: seq<Op>)
    returns (recs: seq<Rec>)
    requires ValidCodec(c) && size > 0 && AllOk(c, size, cap, dir) && IsListing(files, dir.Keys)
    requires GoodOps(c, size, cap, dir, ops)
    ensures var s := SaveAll(c, size, dir, ops);
            Good(c, size, cap, s) && OnDisk(c, s, recs) && Restores(AllRecords(c, dir, files), ops, recs)
  {
    if ops == [] {
      recs := AllRecords(c, dir, files);
      assert ListedAs(c, Store(dir, NoFile, 0), files, recs);
    } else {
      var op := ops[|ops| - 1];
      var s := SaveAll(c, size, dir, ops[..|ops| - 1]);
      var before := AllOnDisk(c, size, cap, dir, files, ops[..|ops| - 1]);
      hide Good, OnDisk, Save, GoodSave, Restores, AllOk;
      SaveAppends(c, size, cap, s, op.name, op.batch, op.env, before);
      recs := before + Chunks(size, op.name, op.batch, 0);
      RestoresMore(size, AllRecords(c, dir, files), ops, before);
    }
  }

  lemma Regroup(a: seq<Elem>, b: seq<Elem>, c: seq<Elem>)
    ensures (a + b) + c == a + (b + c)
  {}

  lemma RestoresMore(size: nat, found: seq<Rec>, ops: seq<Op>, before: seq<Rec>)
    requires size > 0 && ops != [] && Restores(found, ops[..|ops| - 1], before)
    ensures var op := ops[|ops| - 1]; Restores(found, ops, before + Chunks(size, op.name, op.batch, 0))
  {
    var op := ops[|ops| - 1];
    forall name
      ensures ItemsOf(before + Chunks(size, op.name, op.batch, 0), name) == ItemsOf(found, name) + SavedFor(ops, name)
    {
      ItemsOfConcat(before, Chunks(size, op.name, op.batch, 0), name);
      ItemsOfChunks(size, op.name, op.batch, 0, name);
      assert ItemsOf(before, name) == ItemsOf(found, name) + SavedFor(ops[..|ops| - 1], name);
      assert op.batch[0..] == op.batch;
      var last := if op.name == name then op.batch else [];
      assert SavedFor(ops, name) == SavedFor(ops[..|ops| - 1], name) + last;
      hide ItemsOf, SavedFor, Chunks;
      Regroup(ItemsOf(found, name), SavedFor(ops[..|ops| - 1], name), last);
    }
  }

  lemma SaveAppends(c: Codec, size: nat, cap: nat, s: Store, name: string, batch: seq<Elem>, env: SaveEnv,
                    recs: seq<Rec>)
    requires ValidCodec(c) && size > 0 && Good(c, size, cap, s) && OnDisk(c, s, recs)
    requires GoodSave(c, size, cap, s, name, batch, env)
    ensures var o := Save(c, size, s, name, batch, env);
            o.result == Saved && Good(c, size, cap, o.store) && OnDisk(c, o.store, recs + Chunks(size, name, batch, 0))
  {
    if s.open.NoFile? { RotateGood(c, size, cap, s, env.first.name, recs); }
    SaveChunksAppends(c, size, cap, Opened(s, env), name, batch, 0, env.chunks, [], recs);
  }

  // Reading a listed file; one that is gone by then cannot be opened.
  function ScanAt(c: Codec, cap: nat, dir: map<string, string>, f: string): Scan {
    if f in dir then ScanFile(c, cap, dir[f]) else Scan([], false)
  }

  // The stream Recover sends for a listing: the batches of each file and, if it was read to its end, its end mark.
  function Stream(c: Codec, cap: nat, dir: map<string, string>, files: seq<string>): seq<Rec> {
    if files == [] then []
    else
      var scan := ScanAt(c, cap, dir, files[|files| - 1]);
      Stream(c, cap, dir, files[..|files| - 1]) + scan.batches + if scan.complete
        then [Rec(files[|files| - 1], [], true)] else []
  }

  lemma ScanOfOk(c: Codec, size: nat, cap: nat, content: string)
    requires ValidCodec(c) && FileOk(c, size, cap, content)
    ensures ScanFile(c, cap, content) == Scan(Records(c, content), true)
  {
    var recs := Records(c, content);
    forall k | 0 <= k < |recs| ensures Fits(c, cap, recs[k].name, recs[k].data) { assert recs[k] in recs; }
    ScanHeld(c, cap, content, recs);
  }

  lemma {:induction false} StreamOfGood(c: Codec, size: nat, cap: nat, dir: map<string, string>, files: seq<string>,
                                        name: string)
    requires ValidCodec(c)
    requires forall f :: f in files ==> f in dir && FileOk(c, size, cap, dir[f])
    ensures ItemsOf(Stream(c, cap, dir, files), name) == ItemsOf(AllRecords(c, dir, files), name)
  {
    if files != [] {
      hide FileOk, Records, ScanFile;
      var n := |files| - 1;
      var f := files[n];
      assert forall g :: g in files[..n] ==> g in files;
      StreamOfGood(c, size, cap, dir, files[..n], name);
      ScanOfOk(c, size, cap, dir[f]);
      var recs, before := Records(c, dir[f]), Stream(c, cap, dir, files[..n]);
      ItemsOfConcat(before, recs, name);
      ItemsOfConcat(before + recs, [Rec(f, [], true)], name);
      ItemsOfConcat(AllRecords(c, dir, files[..n]), recs, name);
      assert ItemsOf([Rec(f, [], true)], name) == [];
    }
  }

  // Replaying the directory after any sequence of good saves by a process that found files of earlier ones: every file
  // is read to its end, the items replayed under a name are those that the old files would have yielded and then the
  // items saved under it, in order, each chunk has between one and `size` items, no data record looks like an end
  // mark, and no file is over the limit by more than its last line.
  lemma SaveRecoverRoundTrip(c: Codec, size: nat, cap: nat, dir: map<string, string>, listed: seq<string>,
                             ops: seq<Op>, files: seq<string>, name: string)
    requires ValidCodec(c) && size > 0 && AllOk(c, size, cap, dir) && IsListing(listed, dir.Keys)
    requires GoodOps(c, size, cap, dir, ops) && IsListing(files, SaveAll(c, size, dir, ops).dir.Keys)
    ensures var dir' := SaveAll(c, size, dir, ops).dir;
            && ItemsOf(Stream(c, cap, dir', files), name) ==
               ItemsOf(Stream(c, cap, dir, listed), name) + SavedFor(ops, name)
            && forall f :: f in dir' ==>
                 && OverByOneLine(dir'[f])
                 && ScanFile(c, cap, dir'[f]).complete
                 && forall r :: r in ScanFile(c, cap, dir'[f]).batches ==> !r.finish && 1 <= |r.data| <= size
  {
    var s := SaveAll(c, size, dir, ops);
    var recs := AllOnDisk(c, size, cap, dir, listed, ops);
    var inOrder :| ListedAs(c, s, inOrder, recs);
    ListingUnique(files, inOrder, s.dir.Keys);
    GoodIsOk(c, size, cap, s);
    StreamOfListed(c, size, cap, s.dir, files, name);
    StreamOfListed(c, size, cap, dir, listed, name);
    assert Restores(AllRecords(c, dir, listed), ops, recs);
    hide AllRecords, Stream, SaveAll, GoodOps, Good;
    forall f | f in s.dir
      ensures OverByOneLine(s.dir[f]) && ScanFile(c, cap, s.dir[f]) == Scan(Records(c, s.dir[f]), true)
    {
      ScanOfOk(c, size, cap, s.dir[f]);
    }
  }

  lemma GoodIsOk(c: Codec, size: nat, cap: nat, s: Store)
    requires Good(c, size, cap, s)
    ensures AllOk(c, size, cap, s.dir)
  {}

  lemma StreamOfListed(c: Codec, size: nat, cap: nat, dir: map<string, string>, files: seq<string>, name: string)
    requires ValidCodec(c) && AllOk(c, size, cap, dir) && IsListing(files, dir.Keys)
    ensures ItemsOf(Stream(c, cap, dir, files), name) == ItemsOf(AllRecords(c, dir, files), name)
  {
    assert forall f :: f in files ==> f in dir && FileOk(c, size, cap, dir[f]);
    StreamOfGood(c, size, cap, dir, files, name);
  }

  // A file created when the clock shows a later second than at every earlier creation gets the newest name.
  lemma LaterSecondIsNewest(s: Store, path: string, now: Stamp)
    requires Valid(now)
    requires forall f :: f in s.dir ==> exists t :: Valid(t) && Before(t, now) && f == FileName(path, t)
    ensures Newest(s, FileName(path, now))
  {
    forall f | f in s.dir ensures Less(f, FileName(path, now)) {
      var t :| Valid(t) && Before(t, now) && f == FileName(path, t);
      NameOrderIsTimeOrder(path, t, now);
    }
  }
}
