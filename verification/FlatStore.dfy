/**
 The record store of redis.go: every record lives under one flat key `table:key`.  The
 contracts of the methods cover connection faults; over fault-free runs the flat store is
 shown to behave as a map of tables.
 */
module FlatStore {
  import opened Strings
  import opened Glob

  datatype Error = KeyNotFound | KeyAlreadyExists | ConnectionFailed | FetchFailed | Undefined | IndexPanic
  datatype Result<T> = Ok(value: T) | Err(error: Error)

  /** What the read connection does: answer, refuse, fail otherwise, or return no string. */
  datatype ReadFault = Healthy | Refused | Broken | NotText

  type Flat = map<string, string>

  function FlatKey(table: string, key: string): string { table + ":" + key }

  function ReadFlat(db: Flat, s: string): Result<string> {
    if s in db then Ok(db[s]) else Err(KeyNotFound)
  }

  /** KEYS lists every matching key once, in any order. */
  ghost predicate Listing(listed: seq<string>, db: Flat, pattern: string) {
    && (forall i, j :: 0 <= i < j < |listed| ==> listed[i] != listed[j])
    && forall s :: s in listed <==> s in db && Match(pattern, s)
  }

  /** `strings.SplitN(s, ":", 2)`. */
  function SplitFirst(s: string): (parts: seq<string>)
    ensures |parts| == 1 || |parts| == 2
  {
    var i := Strings.Index(s, ":");
    if i == -1 then [s] else [s[..i], s[i + 1..]]
  }

  class Store {
    var db: Flat
    var writePool: bool  // the pointer is not nil

    method Read(table: string, key: string, fault: ReadFault) returns (r: Result<string>)
      ensures fault.Healthy? ==> r == ReadFlat(db, FlatKey(table, key))
      ensures fault.Refused? ==> r == Err(ConnectionFailed)
      ensures fault.Broken? ==> r == Err(FetchFailed)
      ensures fault.NotText? ==> r == Err(Undefined)
    {
      match fault
      case Refused => r := Err(ConnectionFailed);
      case Broken => r := Err(FetchFailed);
      case NotText => r := Err(Undefined);
      case Healthy =>
        if table + ":" + key in db {
          r := Ok(db[table + ":" + key]);
        } else {
          r := Err(KeyNotFound);
        }
    }

    /** Stores the record unless a value is read under its key.  A read that fails without
        refusing the connection counts as no value: then an existing record is overwritten. */
    method Create(table: string, key: string, data: Result<string>, fault: ReadFault, writeFails: bool) returns (r: Result<()>)
      modifies this
      ensures r.Ok? <==>
                && old(writePool) && data.Ok? && !writeFails && !fault.Refused?
                && (fault.Healthy? ==> FlatKey(table, key) !in old(db) || old(db)[FlatKey(table, key)] == "")
      ensures old(writePool) && fault.Refused? ==> r == Err(ConnectionFailed)
      ensures db == if r.Ok? then old(db)[FlatKey(table, key) := data.value] else old(db)
      ensures writePool ==> old(writePool)
      ensures old(writePool) && !writeFails ==> writePool
      ensures old(writePool) && fault.Healthy? && !writeFails && data.Ok? ==>
                (db, ReplyOf(r)) == Flatly(old(db), Op.Create(table, key, data.value))
    {
      if !writePool {
        return Err(Undefined);
      }
      var value := Read(table, key, fault);
      if value == Err(ConnectionFailed) {
        return Err(ConnectionFailed);
      }
      if value.Ok? && value.value != "" {
        return Err(KeyAlreadyExists);
      }
      if data.Err? {
        return Err(Undefined);
      }
      if writeFails {
        writePool := false;
        return Err(Undefined);
      }
      db := db[table + ":" + key := data.value];
      r := Ok(());
    }

    method Update(table: string, key: string, data: Result<string>, fault: ReadFault, writeFails: bool) returns (r: Result<string>)
      modifies this
      ensures r.Ok? <==> fault.Healthy? && FlatKey(table, key) in old(db) && data.Ok? && old(writePool) && !writeFails
      ensures r.Ok? ==> r.value == FlatKey(table, key)
      ensures fault.Healthy? && FlatKey(table, key) !in old(db) ==> r == Err(KeyNotFound)
      ensures db == if r.Ok? then old(db)[FlatKey(table, key) := data.value] else old(db)
      ensures writePool ==> old(writePool)
      ensures old(writePool) && !writeFails ==> writePool
      ensures old(writePool) && fault.Healthy? && !writeFails && data.Ok? ==>
                (db, ReplyOf(r)) == Flatly(old(db), Op.Update(table, key, data.value))
    {
      var value := Read(table, key, fault);
      if value.Err? {
        return Err(value.error);
      }
      if data.Err? {
        return Err(Undefined);
      }
      if !writePool {
        return Err(Undefined);
      }
      if writeFails {
        writePool := false;
        return Err(Undefined);
      }
      db := db[table + ":" + key := data.value];
      r := Ok(table + ":" + key);
    }

    /** A refused DEL nils the pool; another DEL failure does not. */
    method Delete(table: string, key: string, fault: ReadFault, writeFails: bool, refused: bool) returns (r: Result<()>)
      modifies this
      ensures r.Ok? <==> old(writePool) && fault.Healthy? && FlatKey(table, key) in old(db) && !writeFails
      ensures old(writePool) && fault.Healthy? && FlatKey(table, key) !in old(db) ==> r == Err(KeyNotFound)
      ensures db == if r.Ok? then old(db) - {FlatKey(table, key)} else old(db)
      ensures writePool ==> old(writePool)
      ensures old(writePool) && !(writeFails && refused) ==> writePool
      ensures old(writePool) && fault.Healthy? && !writeFails ==>
                (db, ReplyOf(r)) == Flatly(old(db), Op.Delete(table, key))
    {
      if !writePool {
        return Err(Undefined);
      }
      var value := Read(table, key, fault);
      if value.Err? {
        return Err(value.error);
      }
      if writeFails {
        if refused {
          writePool := false;
          return Err(ConnectionFailed);
        }
        return Err(Undefined);
      }
      db := db - {table + ":" + key};
      r := Ok(());
    }

    /** The keys of KEYS `table:*`, without the prefix. */
    method GetAllDetails(table: string, listed: seq<string>) returns (ids: seq<string>)
      ensures |ids| == |listed|
      ensures forall i :: 0 <= i < |ids| ==> ids[i] == TrimPrefix(listed[i], table + ":")
    {
      ids := [];
      for i := 0 to |listed|
        invariant |ids| == i && forall j :: 0 <= j < i ==> ids[j] == TrimPrefix(listed[j], table + ":")
      {
        ids := ids + [TrimPrefix(listed[i], table + ":")];
      }
    }

    /** The loop keeps the last key listed; it is split at its first colon and read back. */
    method GetResourceDetails(listed: seq<string>) returns (r: Result<string>)
      ensures listed == [] || listed[|listed| - 1] == "" ==> r == Err(KeyNotFound)
      ensures listed != [] && listed[|listed| - 1] != "" ==>
                r == if ':' in listed[|listed| - 1] then ReadFlat(db, listed[|listed| - 1]) else Err(IndexPanic)
    {
      var dkey := "";
      for i := 0 to |listed|
        invariant dkey == if i == 0 then "" else listed[i - 1]
      {
        dkey := listed[i];
      }
      if dkey == "" {
        return Err(KeyNotFound);
      }
      var params := SplitFirst(dkey);
      SplitFirstJoins(dkey);
      if |params| < 2 {
        return Err(IndexPanic);
      }
      r := Read(params[0], params[1], Healthy);
    }
  }

  function TrimPrefix(s: string, p: string): string { if p <= s then s[|p|..] else s }

  lemma SplitFirstJoins(s: string)
    ensures ':' in s <==> |SplitFirst(s)| == 2
    ensures |SplitFirst(s)| == 2 ==> FlatKey(SplitFirst(s)[0], SplitFirst(s)[1]) == s
  {
    var i := Strings.Index(s, ":");
    if i == -1 {
      assert forall j :: 0 <= j < |s| ==> s[j..][0] == s[j];
    } else {
      assert s[i..][0] == ':' && s[i] == ':';
      assert s == s[..i] + ":" + s[i + 1..];
    }
  }

  // ---------------------------------------------------------------- the map of tables

  type Tables = map<string, map<string, string>>

  function Table(m: Tables, table: string): map<string, string> {
    if table in m then m[table] else map[]
  }

  predicate Named(table: string) { ':' !in table && Plain(table) }

  /** The flat store holds exactly the records of the tables; no record is the empty text. */
  ghost predicate Represents(db: Flat, m: Tables) {
    && (forall t, k :: k in Table(m, t) ==> Record(db, t, k, Table(m, t)[k]))
    && forall s :: s in db ==> Held(m, s)
  }

  ghost predicate Record(db: Flat, t: string, k: string, data: string) {
    Named(t) && FlatKey(t, k) in db && db[FlatKey(t, k)] == data != ""
  }

  ghost predicate Held(m: Tables, s: string) {
    exists t, k :: k in Table(m, t) && s == FlatKey(t, k)
  }

  lemma TableSet(m: Tables, t: string, rows: map<string, string>, u: string)
    ensures Table(m[t := rows], u) == if u == t then rows else Table(m, u)
  {
  }

  /** A flat key determines its table and key when table names hold no colon. */
  lemma FlatKeyInjective(t: string, k: string, u: string, l: string)
    requires ':' !in t && ':' !in u && FlatKey(t, k) == FlatKey(u, l)
    ensures t == u && k == l
  {
    IndexChar(t, ':', k);
    IndexChar(u, ':', l);
    var s := FlatKey(t, k);
    assert s[..|t|] == t && s[..|u|] == u && s[|t| + 1..] == k && s[|u| + 1..] == l;
  }

  lemma Lookup(db: Flat, m: Tables, t: string, k: string)
    requires Represents(db, m) && Named(t)
    ensures FlatKey(t, k) in db <==> k in Table(m, t)
    ensures k in Table(m, t) ==> db[FlatKey(t, k)] == Table(m, t)[k] != ""
  {
    hide FlatKey, Plain, Table;
    if k in Table(m, t) {
      assert Record(db, t, k, Table(m, t)[k]);
    }
    if FlatKey(t, k) in db {
      assert Held(m, FlatKey(t, k));
      var u, l :| l in Table(m, u) && FlatKey(t, k) == FlatKey(u, l);
      assert Record(db, u, l, Table(m, u)[l]);
      FlatKeyInjective(t, k, u, l);
    }
  }

  datatype Op =
    | Create(table: string, key: string, data: string)
    | Update(table: string, key: string, data: string)
    | Delete(table: string, key: string)
    | Read(table: string, key: string)

  /** What the caller sees. */
  datatype Reply = Done | Value(data: string) | Failed(error: Error)

  function ReplyOf<T>(r: Result<T>): Reply {
    match r
    case Ok(_) => Done
    case Err(e) => Failed(e)
  }

  /** The fault-free meaning of the methods on the flat store. */
  function Flatly(db: Flat, op: Op): (Flat, Reply) {
    var s := FlatKey(op.table, op.key);
    match op
    case Create(_, _, data) =>
      if s in db && db[s] != "" then (db, Failed(KeyAlreadyExists)) else (db[s := data], Done)
    case Update(_, _, data) => if s in db then (db[s := data], Done) else (db, Failed(KeyNotFound))
    case Delete(_, _) => if s in db then (db - {s}, Done) else (db, Failed(KeyNotFound))
    case Read(_, _) => (db, if s in db then Value(db[s]) else Failed(KeyNotFound))
  }

  /** The same operations on the tables. */
  function Tabled(m: Tables, op: Op): (Tables, Reply) {
    var rows := Table(m, op.table);
    match op
    case Create(t, k, data) => if k in rows then (m, Failed(KeyAlreadyExists)) else (m[t := rows[k := data]], Done)
    case Update(t, k, data) => if k in rows then (m[t := rows[k := data]], Done) else (m, Failed(KeyNotFound))
    case Delete(t, k) => if k in rows then (m[t := rows - {k}], Done) else (m, Failed(KeyNotFound))
    case Read(t, k) => (m, if k in rows then Value(rows[k]) else Failed(KeyNotFound))
  }

  /** Marshalled data is never the empty text. */
  predicate Sensible(op: Op) {
    Named(op.table) && (op.Create? || op.Update? ==> op.data != "")
  }

  lemma PutRecord(db: Flat, m: Tables, t: string, k: string, data: string, u: string, l: string)
    requires Represents(db, m) && Named(t) && data != "" && l in Table(m[t := Table(m, t)[k := data]], u)
    ensures Record(db[FlatKey(t, k) := data], u, l, Table(m[t := Table(m, t)[k := data]], u)[l])
  {
    hide FlatKey, Plain, Table, Held;
    TableSet(m, t, Table(m, t)[k := data], u);
    if (u, l) != (t, k) {
      assert Record(db, u, l, Table(m, u)[l]);
      if FlatKey(u, l) == FlatKey(t, k) { FlatKeyInjective(u, l, t, k); }
    }
  }

  lemma PutHeld(m: Tables, t: string, k: string, data: string, s: string)
    requires s == FlatKey(t, k) || Held(m, s)
    ensures Held(m[t := Table(m, t)[k := data]], s)
  {
    hide FlatKey, Table;
    var rows := Table(m, t)[k := data];
    TableSet(m, t, rows, t);
    if s != FlatKey(t, k) {
      var u, l :| l in Table(m, u) && s == FlatKey(u, l);
      TableSet(m, t, rows, u);
    }
  }

  lemma PutKeeps(db: Flat, m: Tables, t: string, k: string, data: string)
    requires Represents(db, m) && Named(t) && data != ""
    ensures Represents(db[FlatKey(t, k) := data], m[t := Table(m, t)[k := data]])
  {
    hide FlatKey, Plain, Table, Held, Record;
    var db', m' := db[FlatKey(t, k) := data], m[t := Table(m, t)[k := data]];
    forall u, l | l in Table(m', u) ensures Record(db', u, l, Table(m', u)[l]) { PutRecord(db, m, t, k, data, u, l); }
    forall s | s in db' ensures Held(m', s) { PutHeld(m, t, k, data, s); }
  }

  lemma DropRecord(db: Flat, m: Tables, t: string, k: string, u: string, l: string)
    requires Represents(db, m) && Named(t) && l in Table(m[t := Table(m, t) - {k}], u)
    ensures Record(db - {FlatKey(t, k)}, u, l, Table(m[t := Table(m, t) - {k}], u)[l])
  {
    hide FlatKey, Plain, Table, Held;
    TableSet(m, t, Table(m, t) - {k}, u);
    assert Record(db, u, l, Table(m, u)[l]);
    if FlatKey(u, l) == FlatKey(t, k) { FlatKeyInjective(u, l, t, k); }
  }

  lemma DropHeld(m: Tables, t: string, k: string, s: string)
    requires s != FlatKey(t, k) && Held(m, s)
    ensures Held(m[t := Table(m, t) - {k}], s)
  {
    hide FlatKey, Table;
    var u, l :| l in Table(m, u) && s == FlatKey(u, l);
    TableSet(m, t, Table(m, t) - {k}, u);
  }

  lemma DropKeeps(db: Flat, m: Tables, t: string, k: string)
    requires Represents(db, m) && Named(t)
    ensures Represents(db - {FlatKey(t, k)}, m[t := Table(m, t) - {k}])
  {
    hide FlatKey, Plain, Table, Held, Record;
    var db', m' := db - {FlatKey(t, k)}, m[t := Table(m, t) - {k}];
    forall u, l | l in Table(m', u) ensures Record(db', u, l, Table(m', u)[l]) { DropRecord(db, m, t, k, u, l); }
    forall s | s in db' ensures Held(m', s) { DropHeld(m, t, k, s); }
  }

  /** One operation: the same reply, and the stores still correspond. */
  lemma StepRefines(db: Flat, m: Tables, op: Op)
    requires Represents(db, m) && Sensible(op)
    ensures Flatly(db, op).1 == Tabled(m, op).1 && Represents(Flatly(db, op).0, Tabled(m, op).0)
  {
    hide Represents, FlatKey, Plain;
    Lookup(db, m, op.table, op.key);
    match op
    case Create(t, k, data) => PutKeeps(db, m, t, k, data);
    case Update(t, k, data) => PutKeeps(db, m, t, k, data);
    case Delete(t, k) => if k in Table(m, t) { DropKeeps(db, m, t, k); }
    case Read(_, _) =>
  }

  function RunFlat(db: Flat, ops: seq<Op>): seq<Reply>
    decreases |ops|
  {
    if ops == [] then [] else [Flatly(db, ops[0]).1] + RunFlat(Flatly(db, ops[0]).0, ops[1..])
  }

  function RunTables(m: Tables, ops: seq<Op>): seq<Reply>
    decreases |ops|
  {
    if ops == [] then [] else [Tabled(m, ops[0]).1] + RunTables(Tabled(m, ops[0]).0, ops[1..])
  }

  /** No run of the flat store can be told from the run of the tables. */
  lemma {:induction false} RunRefines(db: Flat, m: Tables, ops: seq<Op>)
    requires Represents(db, m) && forall i :: 0 <= i < |ops| ==> Sensible(ops[i])
    ensures RunFlat(db, ops) == RunTables(m, ops)
    decreases |ops|
  {
    hide Represents, Flatly, Tabled, Sensible;
    if ops != [] {
      StepRefines(db, m, ops[0]);
      RunRefines(Flatly(db, ops[0]).0, Tabled(m, ops[0]).0, ops[1..]);
    }
  }

  /** `GetAllDetails` returns exactly the keys of its own table, each once. */
  lemma AllDetailsAreTheTable(db: Flat, m: Tables, table: string, listed: seq<string>, ids: seq<string>)
    requires Represents(db, m) && Named(table) && Listing(listed, db, table + ":*")
    requires |ids| == |listed| && forall i :: 0 <= i < |ids| ==> ids[i] == TrimPrefix(listed[i], table + ":")
    ensures forall i, j :: 0 <= i < j < |ids| ==> ids[i] != ids[j]
    ensures forall k :: k in ids <==> k in Table(m, table)
  {
    hide Match, Represents;
    var p := table + ":";
    assert p + "*" == table + ":*";
    forall s | s in db ensures Match(table + ":*", s) <==> p <= s { PrefixPattern(p, s); }
    forall i | 0 <= i < |listed| ensures listed[i] == FlatKey(table, ids[i]) {
      assert listed[i] in listed;
    }
    forall k ensures k in ids <==> k in Table(m, table) {
      Lookup(db, m, table, k);
      if k in Table(m, table) {
        assert p <= FlatKey(table, k) && FlatKey(table, k) in listed;
        var i :| 0 <= i < |listed| && listed[i] == FlatKey(table, k);
        assert ids[i] == k;
      }
    }
  }

  /** When exactly one record's flat key ends with `key`, that record is read back. */
  lemma ResourceDetailsFindsRecord(db: Flat, m: Tables, key: string, listed: seq<string>, t: string, k: string)
    requires Represents(db, m) && Plain(key) && Listing(listed, db, "*" + key)
    requires k in Table(m, t) && HasSuffix(FlatKey(t, k), key)
    requires forall u, l :: l in Table(m, u) && HasSuffix(FlatKey(u, l), key) ==> u == t && l == k
    ensures listed == [FlatKey(t, k)] && ':' in FlatKey(t, k) && ReadFlat(db, FlatKey(t, k)) == Ok(Table(m, t)[k])
  {
    hide Match, Table, HasSuffix;
    var s := FlatKey(t, k);
    assert s[|t|] == ':';
    assert Record(db, t, k, Table(m, t)[k]);
    SuffixPattern(key, s);
    assert s in listed;
    forall i | 0 <= i < |listed| ensures listed[i] == s {
      var x := listed[i];
      assert x in listed;
      SuffixPattern(key, x);
      assert Held(m, x);
      var u, l :| l in Table(m, u) && x == FlatKey(u, l);
    }
    OnlyOne(listed, s);
  }

  lemma OnlyOne(listed: seq<string>, s: string)
    requires |listed| > 0 && forall i :: 0 <= i < |listed| ==> listed[i] == s
    requires forall i, j :: 0 <= i < j < |listed| ==> listed[i] != listed[j]
    ensures listed == [s]
  {
    assert listed[0] == listed[|listed| - 1];
  }
}
