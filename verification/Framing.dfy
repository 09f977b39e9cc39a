/**
 Backup records and how they are framed in a file (pkg/pipeline/storage.go): one encoded record per line, read
 back with the line scanner of the standard library.
 */
module Framing {
  import opened Wrappers

  // Items are opaque; an accepted item is told apart by its number, and a closed channel yields Nil.
  datatype Elem = Nil | Item(id: nat)

  // A record read from a file; the reader marks the end of a file with a record of its own whose finish is set.
  datatype Rec = Rec(name: string, data: seq<Elem>, finish: bool)

  // The JSON encoding, as far as the files depend on it.  Encoding may fail.
  datatype Codec = Codec(enc: (string, seq<Elem>) -> Option<string>, dec: string -> Option<Rec>)

  predicate Clean(line: string) {
    '\n' !in line && (line != "" ==> line[|line| - 1] != '\r')
  }

  ghost predicate ValidCodec(c: Codec) {
    forall name, data :: c.enc(name, data).Some? ==>
      var line := c.enc(name, data).value;
      line != "" && Clean(line) && c.dec(line) == Some(Rec(name, data, false))
  }

  // ---------- Lines ----------

  function LineEnd(s: string): (i: nat)
    ensures i <= |s| && '\n' !in s[..i] && (i < |s| ==> s[i] == '\n')
  {
    if s == "" || s[0] == '\n' then 0 else 1 + LineEnd(s[1..])
  }

  // The scanner's tokens before the carriage return is dropped; a last line without a newline is a token too.
  function RawLines(s: string): seq<string>
    decreases |s|
  {
    if s == "" then []
    else
      var i := LineEnd(s);
      [s[..i]] + if i < |s| then RawLines(s[i + 1..]) else []
  }

  function DropCR(line: string): string {
    if line != "" && line[|line| - 1] == '\r' then line[..|line| - 1] else line
  }

  function Frame(lines: seq<string>): string {
    if lines == [] then "" else Frame(lines[..|lines| - 1]) + lines[|lines| - 1] + "\n"
  }

  ghost predicate AllClean(lines: seq<string>) {
    forall k :: 0 <= k < |lines| ==> Clean(lines[k])
  }

  lemma LineEndIs(s: string, i: nat)
    requires i < |s| && s[i] == '\n' && '\n' !in s[..i]
    ensures LineEnd(s) == i
  {
    var e := LineEnd(s);
    assert forall k :: 0 <= k < i ==> s[k] == s[..i][k] && s[k] != '\n';
    assert forall k :: 0 <= k < e ==> s[k] == s[..e][k] && s[k] != '\n';
  }

  lemma {:induction false} FrameFront(lines: seq<string>)
    requires lines != []
    ensures Frame(lines) == lines[0] + "\n" + Frame(lines[1..])
  {
    if |lines| > 1 {
      FrameFront(lines[..|lines| - 1]);
      assert lines[..|lines| - 1][1..] == lines[1..][..|lines| - 2];
    }
  }

  lemma FirstLine(line: string, rest: string)
    requires '\n' !in line
    ensures RawLines(line + "\n" + rest) == [line] + RawLines(rest)
  {
    var s := line + "\n" + rest;
    assert s[..|line|] == line && s[|line| + 1..] == rest;
    LineEndIs(s, |line|);
  }

  // Reading back what was framed, line by line.
  lemma {:induction false} RawLinesOfFrame(lines: seq<string>)
    requires AllClean(lines)
    ensures RawLines(Frame(lines)) == lines
    decreases |lines|
  {
    if lines != [] {
      FrameFront(lines);
      FirstLine(lines[0], Frame(lines[1..]));
      RawLinesOfFrame(lines[1..]);
      assert lines == [lines[0]] + lines[1..];
    }
  }

  // ---------- Records of a file ----------

  datatype Scan = Scan(batches: seq<Rec>, complete: bool)

  // recoverFile: empty lines are skipped; a line that does not fit the buffer or does not decode ends the file
  // with an error.
  function ScanLines(c: Codec, cap: nat, lines: seq<string>): Scan
    decreases |lines|
  {
    if lines == [] then Scan([], true)
    else if |lines[0]| >= cap then Scan([], false)
    else
      var line := DropCR(lines[0]);
      if line == "" then ScanLines(c, cap, lines[1..])
      else match c.dec(line)
        case None => Scan([], false)
        case Some(r) =>
          var rest := ScanLines(c, cap, lines[1..]);
          Scan([r] + rest.batches, rest.complete)
  }

  function ScanFile(c: Codec, cap: nat, content: string): Scan {
    ScanLines(c, cap, RawLines(content))
  }

  // The line fits the buffer and, without its carriage return, is empty or decodes.
  predicate Readable(c: Codec, cap: nat, line: string) {
    |line| < cap && (DropCR(line) == "" || c.dec(DropCR(line)).Some?)
  }

  // What the lines hold, empty ones skipped.
  function Decoded(c: Codec, cap: nat, lines: seq<string>): seq<Rec>
    requires forall k :: 0 <= k < |lines| ==> Readable(c, cap, lines[k])
  {
    if lines == [] then []
    else
      assert Readable(c, cap, lines[|lines| - 1]);
      var line := DropCR(lines[|lines| - 1]);
      Decoded(c, cap, lines[..|lines| - 1]) + if line == "" then [] else [c.dec(line).value]
  }

  lemma {:induction false} DecodedFront(c: Codec, cap: nat, lines: seq<string>)
    requires lines != [] && forall k :: 0 <= k < |lines| ==> Readable(c, cap, lines[k])
    ensures Decoded(c, cap, lines) ==
            (if DropCR(lines[0]) == "" then [] else [c.dec(DropCR(lines[0])).value]) + Decoded(c, cap, lines[1..])
  {
    var n := |lines| - 1;
    if n > 0 {
      DecodedFront(c, cap, lines[..n]);
      assert lines[..n][1..] == lines[1..][..n - 1] && lines[1..][n - 1] == lines[n] && lines[..n][0] == lines[0];
      hide DropCR, Readable;
    }
  }

  // Reading stops at the first line that is too long or does not decode, and yields what the lines before it hold; any
  // content is read to its end exactly if there is no such line.
  lemma {:induction false} ScanExactly(c: Codec, cap: nat, lines: seq<string>) returns (n: nat)
    ensures n <= |lines| && forall k :: 0 <= k < n ==> Readable(c, cap, lines[k])
    ensures n < |lines| ==> !Readable(c, cap, lines[n])
    ensures ScanLines(c, cap, lines) == Scan(Decoded(c, cap, lines[..n]), n == |lines|)
    decreases |lines|
  {
    if lines == [] || !Readable(c, cap, lines[0]) {
      n := 0;
    } else {
      var m := ScanExactly(c, cap, lines[1..]);
      n := m + 1;
      assert lines[..n][1..] == lines[1..][..m];
      assert forall k :: 0 <= k < n ==> lines[k] == if k == 0 then lines[0] else lines[1..][k - 1];
      DecodedFront(c, cap, lines[..n]);
    }
  }

  // One carriage return before the newline is dropped.
  lemma CarriageReturn(line: string)
    ensures DropCR(line + "\r") == line
    ensures line == "" || line[|line| - 1] != '\r' ==> DropCR(line) == line
  {
    assert (line + "\r")[..|line|] == line;
  }

  // A last line without a newline is read as well.
  lemma {:induction false} RawLinesOfTail(lines: seq<string>, tail: string)
    requires AllClean(lines) && tail != "" && '\n' !in tail
    ensures RawLines(Frame(lines) + tail) == lines + [tail]
    decreases |lines|
  {
    var s := Frame(lines) + tail;
    if lines == [] {
      assert s == tail && tail[..|tail|] == tail;
      assert LineEnd(tail) == |tail|;
    } else {
      FrameFront(lines);
      hide Frame, RawLines;
      assert s == lines[0] + "\n" + (Frame(lines[1..]) + tail);
      FirstLine(lines[0], Frame(lines[1..]) + tail);
      RawLinesOfTail(lines[1..], tail);
      assert lines == [lines[0]] + lines[1..];
    }
  }

  // A file holding exactly these records, each written by one encoding.
  ghost predicate Holds(c: Codec, content: string, recs: seq<Rec>) {
    exists lines :: Writes(c, lines, recs) && content == Frame(lines)
  }

  ghost predicate Writes(c: Codec, lines: seq<string>, recs: seq<Rec>) {
    && |lines| == |recs|
    && forall k :: 0 <= k < |recs| ==> !recs[k].finish && c.enc(recs[k].name, recs[k].data) == Some(lines[k])
  }

  lemma {:induction false} ScanWritten(c: Codec, cap: nat, lines: seq<string>, recs: seq<Rec>)
    requires ValidCodec(c) && Writes(c, lines, recs)
    ensures var s := ScanLines(c, cap, lines);
            && s.batches <= recs
            && (s.complete ==> s.batches == recs)
            && (s.complete <==> forall k :: 0 <= k < |lines| ==> |lines[k]| < cap)
    decreases |lines|
  {
    if lines != [] {
      assert Writes(c, lines[1..], recs[1..]);
      ScanWritten(c, cap, lines[1..], recs[1..]);
      assert forall k :: 0 <= k < |lines[1..]| ==> lines[1..][k] == lines[k + 1];
      assert recs == [recs[0]] + recs[1..];
    }
  }

  // Reading a file gives its records from the front, all of them when it is read to the end, and it is read to
  // the end when every line fits the buffer.
  lemma ScanHeld(c: Codec, cap: nat, content: string, recs: seq<Rec>)
    requires ValidCodec(c) && Holds(c, content, recs)
    ensures var s := ScanFile(c, cap, content);
            && s.batches <= recs && (s.complete ==> s.batches == recs)
            && ((forall k :: 0 <= k < |recs| ==>
                   c.enc(recs[k].name, recs[k].data).Some? && |c.enc(recs[k].name, recs[k].data).value| < cap)
                ==> s.complete)
  {
    var lines :| Writes(c, lines, recs) && content == Frame(lines);
    assert AllClean(lines) by {
      forall k | 0 <= k < |lines| ensures Clean(lines[k]) { assert c.enc(recs[k].name, recs[k].data).Some?; }
    }
    RawLinesOfFrame(lines);
    ScanWritten(c, cap, lines, recs);
  }

  lemma HoldsMore(c: Codec, content: string, recs: seq<Rec>, name: string, data: seq<Elem>)
    requires Holds(c, content, recs) && c.enc(name, data).Some?
    ensures Holds(c, content + c.enc(name, data).value + "\n", recs + [Rec(name, data, false)])
  {
    var lines :| Writes(c, lines, recs) && content == Frame(lines);
    var lines' := lines + [c.enc(name, data).value];
    assert lines'[..|lines|] == lines;
    assert Writes(c, lines', recs + [Rec(name, data, false)]);
  }

  lemma HoldsNothing(c: Codec)
    ensures Holds(c, "", [])
  {
    assert Writes(c, [], []) && Frame([]) == "";
  }

  // A file's records are determined by its content.
  lemma HoldsOnce(c: Codec, content: string, recs: seq<Rec>, recs': seq<Rec>)
    requires ValidCodec(c) && Holds(c, content, recs) && Holds(c, content, recs')
    ensures recs == recs'
  {
    var lines :| Writes(c, lines, recs) && content == Frame(lines);
    var lines' :| Writes(c, lines', recs') && content == Frame(lines');
    assert AllClean(lines) && AllClean(lines') by {
      forall k | 0 <= k < |lines| ensures Clean(lines[k]) { assert c.enc(recs[k].name, recs[k].data).Some?; }
      forall k | 0 <= k < |lines'| ensures Clean(lines'[k]) { assert c.enc(recs'[k].name, recs'[k].data).Some?; }
    }
    RawLinesOfFrame(lines);
    RawLinesOfFrame(lines');
    assert lines == lines';
    forall k | 0 <= k < |recs| ensures recs[k] == recs'[k] {
      assert c.dec(lines[k]) == Some(Rec(recs[k].name, recs[k].data, false));
      assert c.dec(lines'[k]) == Some(Rec(recs'[k].name, recs'[k].data, false));
    }
  }
}
