/**
 Shard routing: the log ids printed by pkg/plugin/lifecycle/logid.go, the table name parsed back from them and the
 grouped inserts of internal/model/auditlog.go, and the chunked transaction of pkg/plugin/exporter/mysql.go.
 */
module Routing {
  const TABLE := "audit_log"
  const CHUNK: nat := 1000

  class AuditLog {
    var logId: string

    constructor (id: string)
      ensures logId == id
    {
      logId := id;
    }

    function TableName(): string
      reads this
    {
      TableOf(logId)
    }

    method SetId(id: string)
      modifies this
      ensures logId == id
    {
      logId := id;
    }
  }

  // ---------- Printing and parsing ----------

  // strings.Split for a one-character separator.
  function Split(s: string, sep: char): (parts: seq<string>)
    ensures |parts| >= 1
  {
    if s == "" then [""]
    else
      var rest := Split(s[1..], sep);
      if s[0] == sep then [""] + rest else [[s[0]] + rest[0]] + rest[1..]
  }

  function TableOf(id: string): string {
    var parts := Split(id, '_');
    if |parts| > 1 then TABLE + "_" + parts[1] else TABLE
  }

  function PrintedId(uuid: string, pos: string): string {
    uuid + "_" + pos
  }

  lemma {:induction false} SplitFirst(a: string, b: string)
    requires '_' !in a
    ensures Split(a + "_" + b, '_') == [a] + Split(b, '_')
  {
    var s := a + "_" + b;
    if a == "" {
      assert s == "_" + b && s[1..] == b;
    } else {
      assert s[1..] == a[1..] + "_" + b;
      SplitFirst(a[1..], b);
      assert [s[0]] + a[1..] == a;
    }
  }

  lemma {:induction false} FirstPart(s: string)
    ensures Split(s, '_')[0] == s <==> '_' !in s
    ensures |Split(s, '_')[0]| <= |s|
  {
    if s != "" {
      FirstPart(s[1..]);
      assert s == [s[0]] + s[1..];
    }
  }

  // The table named by a printed id is the one of its position, exactly when the position has no underscore.
  lemma PrintedIdRoutes(uuid: string, pos: string)
    requires '_' !in uuid
    ensures TableOf(PrintedId(uuid, pos)) == TABLE + "_" + pos <==> '_' !in pos
  {
    SplitFirst(uuid, pos);
    FirstPart(pos);
    var part := Split(pos, '_')[0];
    assert Split(PrintedId(uuid, pos), '_')[1] == part;
    assert (TABLE + "_" + part)[|TABLE| + 1..] == part && (TABLE + "_" + pos)[|TABLE| + 1..] == pos;
  }

  lemma UnderscoreFreeRoutes(uuid: string, pos: string)
    requires '_' !in uuid && '_' !in pos
    ensures TableOf(PrintedId(uuid, pos)) == TABLE + "_" + pos
  {
    PrintedIdRoutes(uuid, pos);
  }

  // Any id names the table of what is between its first two underscores, and one without an underscore the plain table.
  lemma IdRoutes(a: string, b: string, rest: string)
    requires '_' !in a && '_' !in b
    ensures TableOf(a) == TABLE
    ensures TableOf(a + "_" + b) == TABLE + "_" + b && TableOf(a + "_" + (b + "_" + rest)) == TABLE + "_" + b
  {
    NoSplit(a);
    NoSplit(b);
    SplitFirst(a, b);
    SplitFirst(a, b + "_" + rest);
    SplitFirst(b, rest);
  }

  lemma {:induction false} NoSplit(s: string)
    requires '_' !in s
    ensures Split(s, '_') == [s]
  {
    if s != "" {
      NoSplit(s[1..]);
      assert s == [s[0]] + s[1..];
    }
  }

  // The printing loop: every entity of the batch gets an id of its own, in place, for the one position read.
  method BeforeExport(batch: seq<AuditLog>, uuids: seq<string>, pos: string)
    requires |uuids| == |batch| && (forall k :: 0 <= k < |uuids| ==> '_' !in uuids[k]) && '_' !in pos
    modifies batch
    ensures forall k :: 0 <= k < |batch| ==> batch[k].TableName() == TABLE + "_" + pos
    ensures forall k :: 0 <= k < |batch| && (forall l :: k < l < |batch| ==> batch[l] != batch[k]) ==>
      batch[k].logId == PrintedId(uuids[k], pos)
  {
    var i := 0;
    while i < |batch|
      invariant 0 <= i <= |batch|
      invariant forall k :: 0 <= k < i ==> batch[k].TableName() == TABLE + "_" + pos
      invariant forall k :: 0 <= k < i && (forall l :: k < l < i ==> batch[l] != batch[k]) ==>
        batch[k].logId == PrintedId(uuids[k], pos)
    {
      UnderscoreFreeRoutes(uuids[i], pos);
      batch[i].SetId(PrintedId(uuids[i], pos));
      i := i + 1;
    }
  }

  // ---------- Inserts ----------

  function RowsIn(tables: map<string, seq<AuditLog>>, t: string): seq<AuditLog> {
    if t in tables then tables[t] else []
  }

  class Database {
    var tables: map<string, seq<AuditLog>>

    constructor ()
      ensures tables == map[]
    {
      tables := map[];
    }

    function Rows(t: string): seq<AuditLog>
      reads this
    {
      RowsIn(tables, t)
    }

    method Create(t: string, logs: seq<AuditLog>, fails: bool) returns (err: bool)
      modifies this
      ensures err == fails
      ensures tables == if fails then old(tables) else old(tables)[t := old(Rows(t)) + logs]
    {
      err := fails;
      if !fails {
        tables := tables[t := Rows(t) + logs];
      }
    }
  }

  // The entities whose ids name a table, in input order.
  function Routed(batch: seq<AuditLog>, t: string): seq<AuditLog>
    reads batch
  {
    if batch == [] then []
    else Routed(batch[..|batch| - 1], t) + if batch[|batch| - 1].TableName() == t then [batch[|batch| - 1]] else []
  }

  function Tables(batch: seq<AuditLog>): set<string>
    reads batch
  {
    set k | 0 <= k < |batch| :: batch[k].TableName()
  }

  lemma {:induction false} RoutedConcat(a: seq<AuditLog>, b: seq<AuditLog>, t: string)
    ensures Routed(a + b, t) == Routed(a, t) + Routed(b, t)
  {
    if b == [] {
      assert a + b == a;
    } else {
      assert (a + b)[..|a + b| - 1] == a + b[..|b| - 1];
      RoutedConcat(a, b[..|b| - 1], t);
    }
  }

  // Routing splits a batch: an entity is routed to the table its id names, as often as it was
  // handed in, and to no other.
  lemma {:induction false} RoutedOnce(batch: seq<AuditLog>, t: string, e: AuditLog)
    ensures multiset(Routed(batch, t))[e] == if e.TableName() == t then multiset(batch)[e] else 0
  {
    if batch != [] {
      var n := |batch| - 1;
      RoutedOnce(batch[..n], t, e);
      assert batch == batch[..n] + [batch[n]];
    }
  }

  lemma {:induction false} RoutedNowhereElse(batch: seq<AuditLog>, t: string)
    requires t !in Tables(batch)
    ensures Routed(batch, t) == []
  {
    if batch != [] {
      var n := |batch| - 1;
      assert batch[n].TableName() in Tables(batch);
      forall k | 0 <= k < n ensures batch[..n][k].TableName() in Tables(batch)
      { assert batch[k].TableName() in Tables(batch); }
      RoutedNowhereElse(batch[..n], t);
    }
  }

  lemma RoutedNone()
    ensures Tables([]) == {} && forall t :: Routed([], t) == []
  {}

  lemma RoutedNext(batch: seq<AuditLog>, i: nat)
    requires i < |batch|
    ensures var t := batch[i].TableName();
            && Tables(batch[..i + 1]) == Tables(batch[..i]) + {t}
            && forall u :: Routed(batch[..i + 1], u) == Routed(batch[..i], u) + if u == t then [batch[i]] else []
  {
    hide AuditLog.TableName;
    assert batch[..i + 1][..i] == batch[..i];
  }

  // Grouping a batch by table.
  method GroupByTable(batch: seq<AuditLog>) returns (tabMap: map<string, seq<AuditLog>>)
    ensures tabMap.Keys == Tables(batch)
    ensures forall t :: t in tabMap ==> tabMap[t] == Routed(batch, t)
  {
    hide Routed, Tables, AuditLog.TableName;
    tabMap := map[];
    var i := 0;
    RoutedNone();
    while i < |batch|
      invariant 0 <= i <= |batch|
      invariant tabMap.Keys == Tables(batch[..i])
      invariant forall t :: t in tabMap ==> tabMap[t] == Routed(batch[..i], t)
    {
      var t := batch[i].TableName();
      RoutedNext(batch, i);
      if t !in tabMap { RoutedNowhereElse(batch[..i], t); }
      tabMap := tabMap[t := (if t in tabMap then tabMap[t] else []) + [batch[i]]];
      i := i + 1;
    }
    assert batch[..i] == batch;
  }

  // One insert per group, in any order of the map.
  method InsertGroups(db: Database, tabMap: map<string, seq<AuditLog>>, fails: string -> bool) returns (err: bool)
    modifies db
    ensures err <==> exists t :: t in tabMap && fails(t)
    ensures !err ==> forall t :: db.Rows(t) == old(db.Rows(t)) + RowsIn(tabMap, t)
  {
    var todo := tabMap.Keys;
    while todo != {}
      invariant todo <= tabMap.Keys && (forall t :: t in tabMap && t !in todo ==> !fails(t))
      invariant forall t :: db.Rows(t) == old(db.Rows(t)) + if t in todo then [] else RowsIn(tabMap, t)
      decreases todo
    {
      var t :| t in todo;
      err := db.Create(t, tabMap[t], fails(t));
      if err {
        return true;
      }
      todo := todo - {t};
    }
    return false;
  }

  // Every entity of the batch goes into the table its id names; the outcome does not depend on the map's order.
  method SaveBatch(db: Database, batch: seq<AuditLog>, fails: string -> bool) returns (err: bool)
    modifies db
    ensures err <==> exists t :: t in Tables(batch) && fails(t)
    ensures !err ==> forall t :: db.Rows(t) == old(db.Rows(t)) + Routed(batch, t)
  {
    var tabMap := GroupByTable(batch);
    forall t ensures RowsIn(tabMap, t) == Routed(batch, t) {
      if t !in tabMap { RoutedNowhereElse(batch, t); }
    }
    err := InsertGroups(db, tabMap, fails);
  }

  // What the pipeline hands to an exporter: an entity, or something that is none.
  datatype Datum = Entity(log: AuditLog) | Other

  function Logs(data: seq<Datum>): seq<AuditLog> {
    if data == [] then []
    else Logs(data[..|data| - 1]) + if data[|data| - 1].Entity? then [data[|data| - 1].log] else []
  }

  // All chunks in one transaction: either every entity is inserted once, into the table its id names and in input
  // order within each table, or the database is as before.
  method Export(db: Database, data: seq<Datum>, fails: (nat, string) -> bool) returns (err: bool)
    modifies db
    ensures err ==> db.tables == old(db.tables)
    ensures !err ==>
              && (forall k :: 0 <= k < |data| ==> data[k].Entity?)
              && forall t :: db.Rows(t) == old(db.Rows(t)) + Routed(Logs(data), t)
    ensures err <==>
            || (exists k :: 0 <= k < |data| && data[k].Other?)
            || exists i: nat :: i < |Logs(data)| && i % CHUNK == 0 && ChunkFails(Logs(data), i, fails)
  {
    if |data| == 0 {
      return false;
    }
    var entities, ok := Convert(data);
    if !ok {
      return true;
    }
    var before := db.tables;  // what a rollback restores
    err := InsertChunks(db, entities, fails);
    if err {
      ghost var i: nat :| i < |entities| && i % CHUNK == 0 && ChunkFails(entities, i, fails);
      db.tables := before;
      assert ChunkFails(entities, i, fails);
    }
  }

  method Convert(data: seq<Datum>) returns (entities: seq<AuditLog>, ok: bool)
    ensures ok <==> forall k :: 0 <= k < |data| ==> data[k].Entity?
    ensures ok ==> |entities| == |data| && forall k :: 0 <= k < |data| ==> data[k] == Entity(entities[k])
    ensures ok ==> entities == Logs(data)
  {
    entities := [];
    var k := 0;
    while k < |data|
      invariant 0 <= k <= |data| && entities == Logs(data[..k])
      invariant |entities| == k && forall l :: 0 <= l < k ==> data[l] == Entity(entities[l])
    {
      if data[k].Other? {
        return entities, false;
      }
      assert data[..k + 1][..k] == data[..k];
      entities := entities + [data[k].log];
      k := k + 1;
    }
    assert data[..k] == data;
    ok := true;
  }

  lemma RoutedUpto(entities: seq<AuditLog>, i: nat, end: nat)
    requires i <= end <= |entities|
    ensures forall t :: Routed(entities[..end], t) == Routed(entities[..i], t) + Routed(entities[i..end], t)
  {
    forall t ensures Routed(entities[..end], t) == Routed(entities[..i], t) + Routed(entities[i..end], t) {
      assert entities[..end] == entities[..i] + entities[i..end];
      RoutedConcat(entities[..i], entities[i..end], t);
    }
  }

  // Every table holds its earlier rows, then what the ids of these entities route to it.
  ghost predicate Received(db: Database, base: map<string, seq<AuditLog>>, entities: seq<AuditLog>)
    reads db, entities
  {
    forall t :: db.Rows(t) == RowsIn(base, t) + Routed(entities, t)
  }

  function ChunkAt(entities: seq<AuditLog>, i: nat): seq<AuditLog>
    requires i <= |entities|
  {
    entities[i..if i + CHUNK > |entities| then |entities| else i + CHUNK]
  }

  // The insert of some table fails in the chunk starting at i.
  ghost predicate ChunkFails(entities: seq<AuditLog>, i: nat, fails: (nat, string) -> bool)
    requires i <= |entities|
    reads entities
  {
    exists t :: t in Tables(ChunkAt(entities, i)) && fails(i, t)
  }

  // One pass of the loop.
  method InsertChunk(db: Database, entities: seq<AuditLog>, i: nat, fails: (nat, string) -> bool,
                     ghost base: map<string, seq<AuditLog>>) returns (err: bool, end: nat)
    requires i <= |entities| && Received(db, base, entities[..i])
    modifies db
    ensures end == (if i + CHUNK > |entities| then |entities| else i + CHUNK)
            && (err <==> ChunkFails(entities, i, fails))
    ensures !err ==> Received(db, base, entities[..end])
  {
    hide Routed, Tables, Database.Rows;
    end := i + CHUNK;
    if end > |entities| {
      end := |entities|;
    }
    err := SaveBatch(db, entities[i..end], t => fails(i, t));
    assert entities[i..end] == ChunkAt(entities, i);
    RoutedUpto(entities, i, end);
  }

  // A chunk start before the next one is this one or an earlier one.
  lemma ChunkStarts(i: nat)
    requires i % CHUNK == 0
    ensures (i + CHUNK) % CHUNK == 0
    ensures forall j: nat :: j < i + CHUNK && j % CHUNK == 0 ==> j <= i
  {}

  // None of the chunks before i fails.
  ghost predicate NoFailure(entities: seq<AuditLog>, i: nat, fails: (nat, string) -> bool)
    reads entities
  {
    forall j: nat :: j < i && j < |entities| && j % CHUNK == 0 ==> !ChunkFails(entities, j, fails)
  }

  // The body of the transaction.
  method InsertChunks(db: Database, entities: seq<AuditLog>, fails: (nat, string) -> bool) returns (err: bool)
    modifies db
    ensures !err ==> Received(db, old(db.tables), entities)
    ensures err <==> exists i: nat :: i < |entities| && i % CHUNK == 0 && ChunkFails(entities, i, fails)
  {
    var i, end: nat := 0, 0;
    assert Received(db, old(db.tables), entities[..end]);
    hide Received, ChunkFails, ChunkAt;
    while i < |entities|
      invariant i % CHUNK == 0 && end == (if i < |entities| then i else |entities|)
      invariant NoFailure(entities, i, fails)
      invariant Received(db, old(db.tables), entities[..end])
      decreases |entities| - i
    {
      err, end := InsertChunk(db, entities, i, fails, old(db.tables));
      if err {
        return true;
      }
      ChunkStarts(i);
      i := i + CHUNK;
    }
    assert entities[..|entities|] == entities;
    return false;
  }
}
