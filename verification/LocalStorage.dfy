/**
 LocalStorage of pkg/pipeline/storage.go as an object: its open file, the size it has counted, and the loops that
 write chunks and read files back, proved against the functions of Storage, Framing and RoundTrip.
 */
module LocalStorage {
  import opened Wrappers
  import opened Framing
  import opened Storage
  import RoundTrip

  // One line read by the scanning loop.
  lemma ScanRound(c: Codec, cap: nat, lines: seq<string>, i: nat, batches: seq<Rec>)
    requires i < |lines|
    ensures var line, rest, later := DropCR(lines[i]), ScanLines(c, cap, lines[i..]), ScanLines(c, cap, lines[i + 1..]);
            if |lines[i]| >= cap || (line != "" && c.dec(line).None?) then
              !rest.complete && batches + rest.batches == batches
            else if line == "" then rest == later
            else rest.complete == later.complete
                 && batches + rest.batches == batches + [c.dec(line).value] + later.batches
  {
    assert lines[i..][1..] == lines[i + 1..];
  }

  // Lines up to 1024 bytes for each item of a batch, and up to 10 MB, are read back.
  lemma ReadsToEnd(c: Codec, batchSize: nat, lines: seq<string>)
    ensures ScanLines(c, Min(batchSize * 1024, MAX_BUFFER), lines).complete <==>
            forall k :: 0 <= k < |lines| ==>
              && |lines[k]| < batchSize * 1024 && |lines[k]| < 10 * 1024 * 1024
              && (DropCR(lines[k]) == "" || c.dec(DropCR(lines[k])).Some?)
  {
    var n := ScanExactly(c, Min(batchSize * 1024, MAX_BUFFER), lines);
  }

  class LocalStorage {
    const codec: Codec
    const batchSize: nat
    var dir: map<string, string>
    var currentFile: Handle
    var currentSize: nat
    var recoveringFile: string

    // The directory may hold files of an earlier process; none of them is open.
    constructor (codec: Codec, batchSize: nat, dir: map<string, string>)
      ensures this.codec == codec && this.batchSize == batchSize && State() == Store(dir, NoFile, 0)
    {
      this.codec, this.batchSize, this.dir := codec, batchSize, dir;
      currentFile, currentSize, recoveringFile := NoFile, 0, "";
    }

    function State(): Store
      reads this
    {
      Store(dir, currentFile, currentSize)
    }

    // The largest line the reader's buffer takes.
    function Capacity(): nat {
      Min(batchSize * 1024, MAX_BUFFER)
    }

    method RotateFile(env: Rotation) returns (ok: bool)
      modifies this
      ensures State() == Rotate(old(State()), env) && ok == env.Created?
      ensures ok ==> currentFile == Linked(env.name) && currentSize == 0 && dir == old(dir)[env.name := ""]
      ensures !ok ==> dir == old(dir) && currentFile == if old(currentFile).NoFile? then NoFile else Shut
      ensures currentFile.Linked? ==> currentFile.name in dir
    {
      if currentFile != NoFile {
        currentFile := Shut;
      }
      if env.CreateFails? {
        return false;
      }
      dir := dir[env.name := ""];
      currentFile := Linked(env.name);
      currentSize := 0;
      return true;
    }

    method Write(bytes: string, ok: bool) returns (written: bool)
      requires currentFile.Linked? ==> currentFile.name in dir
      modifies this
      ensures written == (Writable(old(State())) && ok)
      ensures State() == if written then Append(old(State()), bytes) else old(State())
      ensures currentFile.Linked? ==> currentFile.name in dir
    {
      if !(currentFile.Linked? || currentFile.Unlinked?) || !ok {
        return false;
      }
      if currentFile.Linked? {
        dir := dir[currentFile.name := dir[currentFile.name] + bytes];
      }
      currentSize := currentSize + |bytes|;
      return true;
    }

    // One chunk: encode it, write it, and rotate the file if it has grown too large.
    method SaveChunk(name: string, chunk: seq<Elem>, env: ChunkEnv) returns (written: bool)
      requires currentFile.Linked? ==> currentFile.name in dir
      modifies this
      ensures currentFile.Linked? ==> currentFile.name in dir
      ensures written == ChunkWritten(codec, old(State()), name, chunk, env)
      ensures State() == if written then AfterChunk(old(State()), codec.enc(name, chunk).value + "\n", env.rotation)
              else old(State())
    {
      hide Append, Rotate;
      var line := codec.enc(name, chunk);
      if line.None? {
        return false;
      }
      written := Write(line.value + "\n", env.writes);
      if written && currentSize > MAX_FILE_SIZE {
        var _ := RotateFile(env.rotation);
      }
    }

    method Save(name: string, batch: seq<Elem>, env: SaveEnv) returns (result: Result)
      requires batchSize > 0
      requires currentFile.Linked? ==> currentFile.name in dir
      modifies this
      ensures var o := Storage.Save(codec, batchSize, old(State()), name, batch, env);
              State() == o.store && result == o.result
      ensures currentFile.Linked? ==> currentFile.name in dir
    {
      if currentFile == NoFile {
        var ok := RotateFile(env.first);
        if !ok {
          return Failed;
        }
      }
      if env.full {
        return DiskFull;
      }
      result := SaveLoop(name, batch, env.chunks);
    }

    // The chunks of a batch, one after the other.
    method SaveLoop(name: string, batch: seq<Elem>, env: nat -> ChunkEnv) returns (result: Result)
      requires batchSize > 0
      requires currentFile.Linked? ==> currentFile.name in dir
      modifies this
      ensures var o := SaveChunks(codec, batchSize, old(State()), name, batch, 0, env, []);
              State() == o.store && result == o.result
      ensures currentFile.Linked? ==> currentFile.name in dir
    {
      hide SaveChunks, AfterChunk;
      var index := 0;
      ghost var done := [];
      while index < |batch|
        invariant index >= 0 && (currentFile.Linked? ==> currentFile.name in dir)
        invariant SaveChunks(codec, batchSize, State(), name, batch, index, env, done) ==
                  SaveChunks(codec, batchSize, old(State()), name, batch, 0, env, [])
        decreases |batch| - index
      {
        SaveRound(codec, batchSize, State(), name, batch, index, env, done);
        var chunk := batch[index..Min(index + batchSize, |batch|)];
        ghost var open := currentFile;
        var written := SaveChunk(name, chunk, env(index));
        if !written {
          return Failed;
        }
        done := done + [(open, Rec(name, chunk, false))];
        index := index + batchSize;
      }
      SaveRound(codec, batchSize, State(), name, batch, index, env, done);
      return Saved;
    }

    // The lines of the file, as the scanner hands them out.
    method RecoverFile(file: string) returns (batches: seq<Rec>, complete: bool)
      modifies this`recoveringFile
      ensures Scan(batches, complete) == RoundTrip.ScanAt(codec, Capacity(), dir, file)
      ensures complete <==>
              file in dir
              && forall k :: 0 <= k < |RawLines(dir[file])| ==>
                   var line := RawLines(dir[file])[k];
                   && |line| < batchSize * 1024 && |line| < 10 * 1024 * 1024
                   && (DropCR(line) == "" || codec.dec(DropCR(line)).Some?)
      ensures recoveringFile == if file in dir then file else old(recoveringFile)
    {
      if file !in dir {
        return [], false;
      }
      recoveringFile := file;
      var lines := RawLines(dir[file]);
      ReadsToEnd(codec, batchSize, lines);
      batches := [];
      var i := 0;
      while i < |lines|
        invariant 0 <= i <= |lines| && recoveringFile == file
        invariant var rest := ScanLines(codec, Capacity(), lines[i..]);
                  ScanFile(codec, Capacity(), dir[file]) == Scan(batches + rest.batches, rest.complete)
      {
        ScanRound(codec, Capacity(), lines, i, batches);
        hide ScanLines;
        if |lines[i]| >= Capacity() {
          return batches, false;
        }
        var line := DropCR(lines[i]);
        if line != "" {
          var data := codec.dec(line);
          if data.None? {
            return batches, false;
          }
          batches := batches + [data.value];
        }
        i := i + 1;
      }
      return batches, true;
    }

    // The stream of one recovery; `files` is the sorted listing of the directory.
    method Recover(files: seq<string>) returns (stream: seq<Rec>)
      modifies this`recoveringFile
      ensures stream == RoundTrip.Stream(codec, Capacity(), dir, files)
    {
      stream := [];
      var i := 0;
      while i < |files|
        invariant 0 <= i <= |files|
        invariant stream == RoundTrip.Stream(codec, Capacity(), dir, files[..i])
      {
        var batches, complete := RecoverFile(files[i]);
        stream := stream + batches;
        if complete {
          stream := stream + [Rec(files[i], [], true)];
        }
        assert files[..i + 1][..i] == files[..i];
        i := i + 1;
      }
      assert files[..|files|] == files;
    }

    method RemoveFile(file: string)
      modifies this
      ensures State() == Remove(old(State()), file)
      ensures dir == old(dir) - {file} && currentSize == old(currentSize)
      ensures currentFile == if old(currentFile) == Linked(file) then Unlinked else old(currentFile)
    {
      dir := dir - {file};
      if currentFile == Linked(file) {
        currentFile := Unlinked;
      }
    }

    // Closing leaves the handle in place.
    method Close()
      modifies this
      ensures dir == old(dir) && currentFile == if old(currentFile).NoFile? then NoFile else Shut
    {
      if currentFile != NoFile {
        currentFile := Shut;
      }
    }
  }
}
