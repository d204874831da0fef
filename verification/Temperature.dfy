/**
 The sensor records of svc-device-manager/system_operations.go: `getDeviceTemperature` cuts
 the JSON text of a chassis into name/value tokens (`JSONToByte`, config.go) and fills one
 record at a time, with a mask that tells which of seven fields are filled.
 */
module Temperature {
  datatype Token = Token(name: string, value: string)

  /** The fields of a record; bit `b` of the mask belongs to `FIELDS[b]`. */
  const FIELDS: seq<string> := [
    "Name", "MemberId", "LowerThresholdNonCritical", "UpperThresholdNonCritical",
    "UpperThresholdCritical", "UpperThresholdFatal", "ReadingCelsius"
  ]

  type Record = map<string, string>

  // ---------------------------------------------------------------- specification

  function Names(ts: seq<Token>): set<string> { set i | 0 <= i < |ts| :: ts[i].name }

  /** The first value under a name. */
  function First(ts: seq<Token>, n: string): string
    requires n in Names(ts)
  {
    if ts[0].name == n then ts[0].value
    else
      assert exists i :: 0 <= i < |ts[1..]| && ts[1..][i].name == n by {
        var i :| 0 <= i < |ts| && ts[i].name == n;
        assert ts[1..][i - 1].name == n;
      }
      First(ts[1..], n)
  }

  predicate Covers(names: set<string>, fields: seq<string>) { forall b :: 0 <= b < |fields| ==> fields[b] in names }

  function RecordOf(ts: seq<Token>, fields: seq<string>): Record
    requires Covers(Names(ts), fields)
  {
    map n | n in fields :: First(ts, n)
  }

  /** One record each time the tokens since the previous one (`seg`) hold every field; it has
      the first value of each. */
  function Records(seg: seq<Token>, ts: seq<Token>, fields: seq<string>): seq<Record>
    decreases |ts|
  {
    if ts == [] then []
    else
      var seg' := seg + [ts[0]];
      if Covers(Names(seg'), fields) then [RecordOf(seg', fields)] + Records([], ts[1..], fields)
      else Records(seg', ts[1..], fields)
  }

  function AllRecords(chassis: seq<seq<Token>>, fields: seq<string>): seq<Record> {
    if chassis == [] then []
    else AllRecords(chassis[..|chassis| - 1], fields) + Records([], chassis[|chassis| - 1], fields)
  }

  // ---------------------------------------------------------------- the accumulator

  lemma NamesSnoc(ts: seq<Token>, t: Token)
    ensures Names(ts + [t]) == Names(ts) + {t.name}
  {
    var us := ts + [t];
    forall n ensures n in Names(us) <==> n in Names(ts) + {t.name} {
      if n in Names(ts) {
        var i :| 0 <= i < |ts| && ts[i].name == n;
        assert us[i].name == n;
      }
      assert us[|ts|].name == t.name;
    }
  }

  lemma {:induction false} FirstSnoc(ts: seq<Token>, t: Token, n: string)
    requires n in Names(ts + [t])
    ensures First(ts + [t], n) == if n in Names(ts) then First(ts, n) else t.value
    decreases |ts|
  {
    NamesSnoc(ts, t);
    var us := ts + [t];
    if ts == [] {
      assert us[0] == t;
    } else if ts[0].name != n {
      assert us[1..] == ts[1..] + [t];
      NamesCons(us);
      NamesCons(ts);
      FirstSnoc(ts[1..], t, n);
    } else {
      assert us[0] == ts[0];
    }
  }

  lemma NamesCons(ts: seq<Token>)
    requires ts != []
    ensures Names(ts) == {ts[0].name} + Names(ts[1..])
  {
    forall n ensures n in Names(ts) <==> n == ts[0].name || n in Names(ts[1..]) {
      if n in Names(ts) && n != ts[0].name {
        var i :| 0 <= i < |ts| && ts[i].name == n;
        assert ts[1..][i - 1].name == n;
      }
      if n in Names(ts[1..]) {
        var i :| 0 <= i < |ts[1..]| && ts[1..][i].name == n;
        assert ts[i + 1].name == n;
      }
    }
  }

  /** `mask` and `data` after the tokens `seg` since the last record. */
  ghost predicate Filled(mask: set<nat>, data: Record, seg: seq<Token>, fields: seq<string>) {
    && (forall b :: b in mask <==> 0 <= b < |fields| && fields[b] in Names(seg))
    && (forall n :: n in data ==> n in fields)
    && (forall b :: b in mask ==> fields[b] in data && data[fields[b]] == First(seg, fields[b]))
  }

  /** The `if` statements for one token: a field that is not filled takes the value. */
  method Fill(t: Token, mask0: set<nat>, data0: Record, fields: seq<string>, ghost seg: seq<Token>) returns (mask: set<nat>, data: Record)
    requires Filled(mask0, data0, seg, fields)
    ensures Filled(mask, data, seg + [t], fields)
  {
    mask, data := mask0, data0;
    for b := 0 to |fields|
      invariant forall c :: c in mask <==> c in mask0 || (0 <= c < b && fields[c] == t.name)
      invariant forall n :: n in data <==> n in data0 || (n == t.name && exists c :: 0 <= c < b && c !in mask0 && fields[c] == n)
      invariant forall n :: n in data ==> data[n] == if n == t.name && (exists c :: 0 <= c < b && c !in mask0 && fields[c] == n) then t.value else data0[n]
    {
      if b !in mask && t.name == fields[b] {
        data := data[fields[b] := t.value];
        mask := mask + {b};
      }
    }
    NamesSnoc(seg, t);
    forall c | c in mask ensures fields[c] in data && data[fields[c]] == First(seg + [t], fields[c]) {
      FirstSnoc(seg, t, fields[c]);
    }
  }

  /** A mask with the first `n` bits set. */
  function Bits(n: nat): (s: set<nat>)
    ensures forall b: nat :: b in s <==> b < n
  {
    if n == 0 then {} else Bits(n - 1) + {n - 1}
  }

  lemma FilledComplete(mask: set<nat>, data: Record, seg: seq<Token>, fields: seq<string>)
    requires Filled(mask, data, seg, fields)
    ensures mask == Bits(|fields|) <==> Covers(Names(seg), fields)
    ensures Covers(Names(seg), fields) ==> data == RecordOf(seg, fields)
  {
    if Covers(Names(seg), fields) {
      forall n | n in fields ensures n in data && data[n] == First(seg, n) {
        var b :| 0 <= b < |fields| && fields[b] == n;
        assert b in mask;
      }
    }
    if mask == Bits(|fields|) {
      forall b | 0 <= b < |fields| ensures fields[b] in Names(seg) { assert b in mask; }
    }
  }

  /** The tokens of one chassis.  `mapData` is shared between all chassis and never cleared. */
  method Accumulate(tokens: seq<Token>, mapData: Record, fields: seq<string>) returns (dataSlice: seq<Record>, data: Record)
    requires fields != [] && forall n :: n in mapData ==> n in fields
    ensures dataSlice == Records([], tokens, fields)
    ensures forall n :: n in data ==> n in fields
  {
    dataSlice, data := [], mapData;
    var okValue: set<nat> := {};
    ghost var seg: seq<Token> := [];
    var i := 0;
    assert tokens[0..] == tokens;
    while i < |tokens|
      invariant i <= |tokens|
      invariant Filled(okValue, data, seg, fields)
      invariant dataSlice + Records(seg, tokens[i..], fields) == Records([], tokens, fields)
    {
      assert tokens[i..][1..] == tokens[i + 1..];
      ghost var seg' := seg + [tokens[i]];
      okValue, data := Fill(tokens[i], okValue, data, fields, seg);
      FilledComplete(okValue, data, seg', fields);
      seg := seg';
      if okValue == Bits(|fields|) {
        dataSlice := dataSlice + [data];
        okValue := {};
        seg := [];
      }
      i := i + 1;
    }
  }

  /** Every record has exactly the fields asked for. */
  lemma {:induction false} RecordKeys(seg: seq<Token>, ts: seq<Token>, fields: seq<string>)
    ensures forall r :: r in Records(seg, ts, fields) ==> forall n :: n in r <==> n in fields
    decreases |ts|
  {
    if ts != [] {
      var seg' := seg + [ts[0]];
      if Covers(Names(seg'), fields) {
        RecordKeys([], ts[1..], fields);
      } else {
        RecordKeys(seg', ts[1..], fields);
      }
    }
  }

  lemma {:induction false} AllRecordKeys(chassis: seq<seq<Token>>, fields: seq<string>)
    ensures forall r :: r in AllRecords(chassis, fields) ==> forall n :: n in r <==> n in fields
  {
    if chassis != [] {
      AllRecordKeys(chassis[..|chassis| - 1], fields);
      RecordKeys([], chassis[|chassis| - 1], fields);
    }
  }

  /** A record has the seven fields of the answer, and no other. */
  lemma RecordHasSeven(chassis: seq<seq<Token>>, r: Record)
    requires r in AllRecords(chassis, FIELDS)
    ensures r.Keys == {"Name", "MemberId", "LowerThresholdNonCritical", "UpperThresholdNonCritical",
                       "UpperThresholdCritical", "UpperThresholdFatal", "ReadingCelsius"}
  {
    hide AllRecords;
    AllRecordKeys(chassis, FIELDS);
    assert FIELDS[0] == "Name" && FIELDS[1] == "MemberId" && FIELDS[2] == "LowerThresholdNonCritical";
    assert FIELDS[3] == "UpperThresholdNonCritical" && FIELDS[4] == "UpperThresholdCritical";
    assert FIELDS[5] == "UpperThresholdFatal" && FIELDS[6] == "ReadingCelsius";
  }

  // ---------------------------------------------------------------- one record per sensor

  ghost predicate Fieldless(ts: seq<Token>, fields: seq<string>) {
    forall i :: 0 <= i < |ts| ==> ts[i].name !in fields
  }

  /** A sensor block that may lack fields, but names none twice. */
  ghost predicate Partial(ts: seq<Token>, fields: seq<string>) {
    forall i, j :: 0 <= i < j < |ts| && ts[i].name in fields ==> ts[i].name != ts[j].name
  }

  /** A sensor block carries every field exactly once, among any other tokens. */
  ghost predicate Block(ts: seq<Token>, fields: seq<string>) { Covers(Names(ts), fields) && Partial(ts, fields) }

  lemma {:induction false} FirstConcat(xs: seq<Token>, ys: seq<Token>, n: string)
    ensures Names(xs + ys) == Names(xs) + Names(ys)
    ensures n in Names(xs) ==> First(xs + ys, n) == First(xs, n)
    ensures n !in Names(xs) && n in Names(ys) ==> First(xs + ys, n) == First(ys, n)
    decreases |xs|
  {
    if xs == [] {
      assert xs + ys == ys;
    } else {
      FirstConcat(xs[1..], ys, n);
      assert (xs + ys)[1..] == xs[1..] + ys;
      NamesCons(xs);
      NamesCons(xs + ys);
    }
  }

  /** Tokens of no field only lengthen the segment. */
  lemma {:induction false} SkipFieldless(seg: seq<Token>, f: seq<Token>, rest: seq<Token>, fields: seq<string>)
    requires Fieldless(f, fields) && fields != [] && !Covers(Names(seg), fields)
    ensures Records(seg, f + rest, fields) == Records(seg + f, rest, fields)
    decreases |f|
  {
    if f == [] {
      assert f + rest == rest && seg + f == seg;
    } else {
      var t := f[0];
      NamesSnoc(seg, t);
      assert (f + rest)[1..] == f[1..] + rest;
      assert (seg + [t]) + f[1..] == seg + f;
      SkipFieldless(seg + [t], f[1..], rest, fields);
    }
  }

  lemma RecordIgnoresFieldless(seg: seq<Token>, ts: seq<Token>, more: seq<Token>, fields: seq<string>)
    requires Fieldless(seg, fields) && Covers(Names(ts), fields)
    ensures Covers(Names(seg + ts), fields) && Covers(Names(ts + more), fields)
    ensures RecordOf(seg + ts, fields) == RecordOf(ts, fields) == RecordOf(ts + more, fields)
  {
    FirstConcat(seg, ts, "");
    FirstConcat(ts, more, "");
    forall n | n in fields ensures First(seg + ts, n) == First(ts, n) && First(ts + more, n) == First(ts, n) {
      FieldlessNames(seg, fields, n);
      var b :| 0 <= b < |fields| && fields[b] == n;
      FirstConcat(seg, ts, n);
      FirstConcat(ts, more, n);
    }
  }

  lemma FieldlessNames(ts: seq<Token>, fields: seq<string>, n: string)
    requires Fieldless(ts, fields) && n in fields
    ensures n !in Names(ts)
  {
  }

  /** From inside a block: the block's own record is emitted, and what follows in it is fieldless. */
  lemma {:induction false} WalkBlock(seg: seq<Token>, block: seq<Token>, k: nat, rest: seq<Token>, fields: seq<string>)
    requires fields != [] && Fieldless(seg, fields) && Block(block, fields) && k <= |block|
    requires !Covers(Names(block[..k]), fields)
    ensures exists j :: 0 <= j <= |block| && Fieldless(block[j..], fields) &&
              Records(seg + block[..k], block[k..] + rest, fields) == [RecordOf(block, fields)] + Records([], block[j..] + rest, fields)
    decreases |block| - k
  {
    assert block[..|block|] == block;
    var t := block[k];
    var upto := block[..k + 1];
    assert block[..k] + [t] == upto && block[k..][0] == t;
    assert (block[k..] + rest)[1..] == block[k + 1..] + rest;
    assert (seg + block[..k]) + [t] == seg + upto;
    FirstConcat(seg, upto, "");
    if Covers(Names(upto), fields) {
      assert upto + block[k + 1..] == block;
      RecordIgnoresFieldless(seg, upto, block[k + 1..], fields);
      RestIsFieldless(block, k + 1, fields);
    } else {
      forall b | 0 <= b < |fields| ensures fields[b] in Names(seg + upto) <==> fields[b] in Names(upto) {
        FieldlessNames(seg, fields, fields[b]);
      }
      WalkBlock(seg, block, k + 1, rest, fields);
    }
  }

  lemma RestIsFieldless(block: seq<Token>, k: nat, fields: seq<string>)
    requires Block(block, fields) && k <= |block| && Covers(Names(block[..k]), fields)
    ensures Fieldless(block[k..], fields)
  {
    forall i | 0 <= i < |block[k..]| ensures block[k..][i].name !in fields {
      forall b | 0 <= b < |fields| ensures fields[b] != block[k + i].name {
        var j :| 0 <= j < k && block[..k][j].name == fields[b];
        assert block[j].name == fields[b];
      }
    }
  }

  function Flatten<T>(xs: seq<seq<T>>): seq<T> { if xs == [] then [] else xs[0] + Flatten(xs[1..]) }

  ghost function RecordsOf(blocks: seq<seq<Token>>, fields: seq<string>): seq<Record>
    requires forall i :: 0 <= i < |blocks| ==> Block(blocks[i], fields)
  {
    if blocks == [] then []
    else
      assert Block(blocks[0], fields);
      [RecordOf(blocks[0], fields)] + RecordsOf(blocks[1..], fields)
  }

  /** If every sensor block carries each field exactly once, the output is one record for each
      sensor, in order, with that sensor's own values. */
  lemma {:induction false} OneRecordPerSensor(seg: seq<Token>, blocks: seq<seq<Token>>, fields: seq<string>)
    requires fields != [] && Fieldless(seg, fields) && forall i :: 0 <= i < |blocks| ==> Block(blocks[i], fields)
    ensures Records(seg, Flatten(blocks), fields) == RecordsOf(blocks, fields)
    decreases |blocks|
  {
    if blocks != [] {
      hide Names, Covers, First;
      var block, rest := blocks[0], Flatten(blocks[1..]);
      assert block[..0] == [] && block[0..] == block && seg + [] == seg;
      NothingCovers(fields);
      WalkBlock(seg, block, 0, rest, fields);
      var j :| 0 <= j <= |block| && Fieldless(block[j..], fields) &&
        Records(seg + block[..0], block[0..] + rest, fields) == [RecordOf(block, fields)] + Records([], block[j..] + rest, fields);
      SkipFieldless([], block[j..], rest, fields);
      assert [] + block[j..] == block[j..];
      OneRecordPerSensor(block[j..], blocks[1..], fields);
    }
  }

  // ---------------------------------------------------------------- where records end

  /** The tokens of one record: they hold every field, and without the last of them they do not. */
  ghost predicate Segment(ts: seq<Token>, fields: seq<string>) {
    ts != [] && Covers(Names(ts), fields) && !Covers(Names(ts[..|ts| - 1]), fields)
  }

  lemma NothingCovers(fields: seq<string>)
    requires fields != []
    ensures !Covers(Names([]), fields)
  {
    FieldlessNames([], fields, fields[0]);
  }

  /** The stream is cut into segments: each record has for each field its first value since the
      previous record, and what is left over at the end makes no record. */
  lemma {:induction false} RecordsAreSegments(seg: seq<Token>, ts: seq<Token>, fields: seq<string>)
    returns (segments: seq<seq<Token>>, rest: seq<Token>)
    requires fields != [] && !Covers(Names(seg), fields)
    ensures seg + ts == Flatten(segments) + rest && !Covers(Names(rest), fields)
    ensures |Records(seg, ts, fields)| == |segments|
    ensures forall i :: 0 <= i < |segments| ==> Segment(segments[i], fields) && Records(seg, ts, fields)[i] == RecordOf(segments[i], fields)
    decreases |ts|
  {
    hide Names, RecordOf, Covers;
    if ts == [] {
      segments, rest := [], seg;
    } else {
      var seg' := seg + [ts[0]];
      assert seg'[..|seg|] == seg && seg' + ts[1..] == seg + ts;
      if Covers(Names(seg'), fields) {
        NothingCovers(fields);
        var more;
        more, rest := RecordsAreSegments([], ts[1..], fields);
        segments := [seg'] + more;
        assert [] + ts[1..] == ts[1..];
        assert seg + ts == Flatten(segments) + rest;
      } else {
        segments, rest := RecordsAreSegments(seg', ts[1..], fields);
      }
    }
  }

  // ---------------------------------------------------------------- incomplete sensors

  function Count(ts: seq<Token>, f: string): nat {
    if ts == [] then 0 else (if ts[0].name == f then 1 else 0) + Count(ts[1..], f)
  }

  lemma {:induction false} CountConcat(xs: seq<Token>, ys: seq<Token>, f: string)
    ensures Count(xs + ys, f) == Count(xs, f) + Count(ys, f)
    decreases |xs|
  {
    if xs == [] {
      assert xs + ys == ys;
    } else {
      assert (xs + ys)[1..] == xs[1..] + ys;
      CountConcat(xs[1..], ys, f);
    }
  }

  lemma {:induction false} CountZero(ts: seq<Token>, f: string)
    ensures Count(ts, f) == 0 <==> f !in Names(ts)
    decreases |ts|
  {
    if ts != [] {
      NamesCons(ts);
      CountZero(ts[1..], f);
    }
  }

  lemma {:induction false} CountOnce(ts: seq<Token>, f: string, fields: seq<string>)
    requires Partial(ts, fields) && f in fields
    ensures Count(ts, f) <= 1
    decreases |ts|
  {
    if ts != [] {
      forall i, j | 0 <= i < j < |ts[1..]| && ts[1..][i].name in fields ensures ts[1..][i].name != ts[1..][j].name {
        assert ts[1..][i] == ts[i + 1] && ts[1..][j] == ts[j + 1];
      }
      CountOnce(ts[1..], f, fields);
      if ts[0].name == f {
        forall i | 0 <= i < |ts[1..]| ensures ts[1..][i].name != f { assert ts[1..][i] == ts[i + 1]; }
        CountZero(ts[1..], f);
      }
    }
  }

  /** There are no more records than tokens of any one field. */
  lemma {:induction false} RecordsAtMost(seg: seq<Token>, ts: seq<Token>, fields: seq<string>, f: string)
    requires f in fields
    ensures |Records(seg, ts, fields)| <= Count(seg, f) + Count(ts, f)
    decreases |ts|
  {
    if ts != [] {
      var seg' := seg + [ts[0]];
      CountConcat(seg, [ts[0]], f);
      if Covers(Names(seg'), fields) {
        var b :| 0 <= b < |fields| && fields[b] == f;
        CountZero(seg', f);
        RecordsAtMost([], ts[1..], fields, f);
      } else {
        RecordsAtMost(seg', ts[1..], fields, f);
      }
    }
  }

  lemma {:induction false} CountBlocks(blocks: seq<seq<Token>>, fields: seq<string>, f: string)
    requires f in fields && forall i :: 0 <= i < |blocks| ==> Partial(blocks[i], fields)
    ensures Count(Flatten(blocks), f) <= |blocks|
    ensures (exists i :: 0 <= i < |blocks| && f !in Names(blocks[i])) ==> Count(Flatten(blocks), f) < |blocks|
    decreases |blocks|
  {
    if blocks != [] {
      CountConcat(blocks[0], Flatten(blocks[1..]), f);
      CountOnce(blocks[0], f, fields);
      CountZero(blocks[0], f);
      CountBlocks(blocks[1..], fields, f);
      if i :| 1 <= i < |blocks| && f !in Names(blocks[i]) {
        assert f !in Names(blocks[1..][i - 1]);
      }
    }
  }

  lemma {:induction false} RecordsOfLength(blocks: seq<seq<Token>>, fields: seq<string>)
    requires forall i :: 0 <= i < |blocks| ==> Block(blocks[i], fields)
    ensures |RecordsOf(blocks, fields)| == |blocks|
  {
    if blocks != [] { RecordsOfLength(blocks[1..], fields); }
  }

  /** When no sensor names a field twice, there is one record for each sensor if and only if no
      sensor lacks a field. */
  lemma CompleteSensors(blocks: seq<seq<Token>>, fields: seq<string>)
    requires fields != [] && forall i :: 0 <= i < |blocks| ==> Partial(blocks[i], fields)
    ensures |Records([], Flatten(blocks), fields)| == |blocks| <==> forall i :: 0 <= i < |blocks| ==> Covers(Names(blocks[i]), fields)
    ensures |Records([], Flatten(blocks), fields)| <= |blocks|
  {
    hide Records, RecordsOf;
    RecordsAtMost([], Flatten(blocks), fields, fields[0]);
    CountBlocks(blocks, fields, fields[0]);
    if i, b :| 0 <= i < |blocks| && 0 <= b < |fields| && fields[b] !in Names(blocks[i]) {
      CountBlocks(blocks, fields, fields[b]);
      RecordsAtMost([], Flatten(blocks), fields, fields[b]);
    } else {
      OneRecordPerSensor([], blocks, fields);
      RecordsOfLength(blocks, fields);
    }
  }

  /** The sensor that lacks a field is mixed with the next one that has it: its record has its
      own values and, for the missing field, the next sensor's. */
  lemma MissingFieldMixes(a: seq<Token>, b: seq<Token>, fields: seq<string>, n: string)
    requires fields != [] && !Covers(Names(a), fields) && Covers(Names(b), fields) && n in fields
    ensures Records([], a + b, fields) != [] && n in Records([], a + b, fields)[0] && n in Names(b)
    ensures Records([], a + b, fields)[0][n] == if n in Names(a) then First(a, n) else First(b, n)
  {
    FirstConcat(a, b, n);
    FieldlessNames([], fields, fields[0]);
    assert [] + (a + b) == a + b;
    FirstRecord([], a + b, fields);
    var i :| 0 <= i < |fields| && fields[i] == n;
  }

  /** The first record takes, for each field, its first value in the whole stream. */
  lemma {:induction false} FirstRecord(seg: seq<Token>, ts: seq<Token>, fields: seq<string>)
    requires !Covers(Names(seg), fields) && Covers(Names(seg + ts), fields)
    ensures Records(seg, ts, fields) != [] && Records(seg, ts, fields)[0] == RecordOf(seg + ts, fields)
    decreases |ts|
  {
    assert seg + [] == seg;
    if ts != [] {
      var seg' := seg + [ts[0]];
      assert seg' + ts[1..] == seg + ts;
      if Covers(Names(seg'), fields) {
        RecordIgnoresFieldless([], seg', ts[1..], fields);
      } else {
        FirstRecord(seg', ts[1..], fields);
      }
    }
  }

  /** After a complete sensor `a`, tokens `extra` that name fields again go into the record of the
      next sensor `b`: it has its own values if and only if `extra` brings no other value. */
  lemma RepeatedFieldLeaks(a: seq<Token>, extra: seq<Token>, b: seq<Token>, fields: seq<string>)
    requires fields != [] && Block(a, fields) && Covers(Names(b), fields)
    ensures var rs := Records([], a + extra + b, fields);
            && |rs| >= 2 && rs[0] == RecordOf(a, fields) && rs[1].Keys == RecordOf(b, fields).Keys
            && (forall n :: n in fields ==> n in Names(b) && n in rs[1] && rs[1][n] == if n in Names(extra) then First(extra, n) else First(b, n))
            && (rs[1] == RecordOf(b, fields) <==> forall n :: n in fields && n in Names(extra) ==> First(extra, n) == First(b, n))
  {
    hide Names, First, Block, Records, Covers;
    var rest := extra + b;
    var seg := AfterBlock(a, rest, fields);
    assert a + extra + b == a + rest;
    FirstConcat(seg, rest, "");
    FirstConcat(extra, b, "");
    CoversMore(b, seg + rest, fields);
    FieldlessNames(seg, fields, fields[0]);
    CoversAt(seg, fields, 0);
    FirstRecord(seg, rest, fields);
    var r, own := RecordOf(seg + rest, fields), RecordOf(b, fields);
    forall n | n in fields ensures n in Names(b) && r[n] == if n in Names(extra) then First(extra, n) else First(b, n) {
      CoversField(b, fields, n);
      FieldlessNames(seg, fields, n);
      FirstConcat(seg, rest, n);
      FirstConcat(extra, b, n);
    }
    if forall n :: n in fields && n in Names(extra) ==> First(extra, n) == First(b, n) {
      assert forall n :: n in fields ==> r[n] == own[n];
      assert r == own;
    } else {
      var n :| n in fields && n in Names(extra) && First(extra, n) != First(b, n);
      assert r[n] != own[n];
    }
  }

  /** What is left of a block behind its record only lengthens the next segment. */
  lemma AfterBlock(a: seq<Token>, rest: seq<Token>, fields: seq<string>) returns (seg: seq<Token>)
    requires fields != [] && Block(a, fields)
    ensures Fieldless(seg, fields) && Records([], a + rest, fields) == [RecordOf(a, fields)] + Records(seg, rest, fields)
  {
    hide Records, Names;
    assert a[..0] == [] && a[0..] == a && [] + a[..0] == [];
    NothingCovers(fields);
    WalkBlock([], a, 0, rest, fields);
    var j :| 0 <= j <= |a| && Fieldless(a[j..], fields) &&
      Records([] + a[..0], a[0..] + rest, fields) == [RecordOf(a, fields)] + Records([], a[j..] + rest, fields);
    seg := a[j..];
    SkipFieldless([], seg, rest, fields);
    assert [] + seg == seg;
  }

  lemma CoversMore(b: seq<Token>, c: seq<Token>, fields: seq<string>)
    requires Covers(Names(b), fields) && Names(b) <= Names(c)
    ensures Covers(Names(c), fields)
  {
  }

  lemma CoversAt(ts: seq<Token>, fields: seq<string>, b: nat)
    requires b < |fields| && fields[b] !in Names(ts)
    ensures !Covers(Names(ts), fields)
  {
  }

  lemma CoversField(ts: seq<Token>, fields: seq<string>, n: string)
    requires Covers(Names(ts), fields) && n in fields
    ensures n in Names(ts)
  {
  }
}
