/**
 From the JSON text of the sensors of a chassis to the temperature records
 (svc-device-manager/config.go and system_operations.go).  `JSONToByte` knows no JSON: it cuts
 the text at every comma and colon, also inside strings and nested values, and trims quotes,
 braces and brackets off the pieces.
 */
module SensorText {
  import opened Strings
  import opened Temperature
  import opened Options

  /** The cutset of `strings.Trim`. */
  predicate Cut(c: char) { c == '"' || c == '{' || c == '}' || c == '[' || c == ']' }

  function TrimLeft(s: string): string { if s != [] && Cut(s[0]) then TrimLeft(s[1..]) else s }
  function TrimRight(s: string): string { if s != [] && Cut(s[|s| - 1]) then TrimRight(s[..|s| - 1]) else s }
  function Trim(s: string): string { TrimRight(TrimLeft(s)) }

  // ---------------------------------------------------------------- the grid of a text

  type Row = seq<string>

  function TrimAll(parts: seq<string>): (row: Row)
    ensures |row| == |parts|
  {
    seq(|parts|, i requires 0 <= i < |parts| => Trim(parts[i]))
  }

  function Cells(piece: string): (row: Row)
    ensures row != []
  {
    TrimAll(Split(piece, ":"))
  }

  function AllCells(pieces: seq<string>): (g: seq<Row>)
    ensures |g| == |pieces|
  {
    seq(|pieces|, i requires 0 <= i < |pieces| => Cells(pieces[i]))
  }

  /** The trimmed cells of a text: a row for each comma-separated piece. */
  function Grid(text: string): (g: seq<Row>)
    ensures g != [] && forall i :: 0 <= i < |g| ==> g[i] != []
  {
    AllCells(Split(text, ","))
  }

  /** The code looks at the first two cells of each row and panics when there are fewer. */
  predicate Readable(g: seq<Row>) { forall i :: 0 <= i < |g| ==> |g[i]| >= 2 }

  function Tokens(g: seq<Row>): seq<Token>
    requires Readable(g)
  {
    seq(|g|, i requires 0 <= i < |g| => Token(g[i][0], g[i][1]))
  }

  /** Rewrites the pieces in place as `name:value`; None is the index panic. */
  method JSONToByte(text: string) returns (retData: Option<seq<string>>)
    ensures retData.Some? <==> Readable(Grid(text))
    ensures retData.Some? ==>
              |retData.value| == |Grid(text)| &&
              forall i :: 0 <= i < |Grid(text)| ==> retData.value[i] == Grid(text)[i][0] + ":" + Grid(text)[i][1]
  {
    hide Trim, Split;
    var pieces := Split(text, ",");
    var data := pieces;
    for index := 0 to |pieces|
      invariant |data| == |pieces|
      invariant forall i :: 0 <= i < index ==> |Cells(pieces[i])| >= 2 && data[i] == Cells(pieces[i])[0] + ":" + Cells(pieces[i])[1]
      invariant forall i :: index <= i < |pieces| ==> data[i] == pieces[i]
    {
      var kv := Split(data[index], ":");
      if |kv| < 2 {
        assert |Grid(text)[index]| < 2;
        return None;
      }
      data := data[index := Trim(kv[0]) + ":" + Trim(kv[1])];
    }
    retData := Some(data);
  }

  /** The split that `getDeviceTemperature` makes of each rewritten piece. */
  method ReadTokens(data: seq<string>) returns (tokens: Option<seq<Token>>)
    ensures tokens.Some? <==> forall i :: 0 <= i < |data| ==> |Split(data[i], ":")| >= 2
    ensures tokens.Some? ==>
              |tokens.value| == |data| && forall i :: 0 <= i < |data| ==>
                |Split(data[i], ":")| >= 2 && tokens.value[i] == Token(Split(data[i], ":")[0], Split(data[i], ":")[1])
  {
    hide Split;
    var ts: seq<Token> := [];
    for i := 0 to |data|
      invariant |ts| == i && forall j :: 0 <= j < i ==>
                  |Split(data[j], ":")| >= 2 && ts[j] == Token(Split(data[j], ":")[0], Split(data[j], ":")[1])
    {
      var kv := Split(data[i], ":");
      if |kv| < 2 {
        return None;
      }
      ts := ts + [Token(kv[0], kv[1])];
    }
    return Some(ts);
  }

  // ---------------------------------------------------------------- the second split changes nothing

  lemma {:induction false} SplitPartsFree(s: string, c: char, i: nat)
    requires i < |Split(s, [c])|
    ensures c !in Split(s, [c])[i]
    decreases |s|
  {
    hide Strings.Index;
    var k := Strings.Index(s, [c]);
    if k == -1 {
      AbsentBefore(s, c, |s|);
      assert s[..|s|] == s;
    } else {
      AbsentBefore(s, c, k);
      var rest := s[k + 1..];
      assert Split(s, [c]) == [s[..k]] + Split(rest, [c]);
      if i > 0 {
        SplitPartsFree(rest, c, i - 1);
      }
    }
  }

  lemma {:induction false} TrimLeftKeeps(s: string, c: char)
    requires c !in s
    ensures c !in TrimLeft(s)
  {
    if s != [] && Cut(s[0]) { TrimLeftKeeps(s[1..], c); }
  }

  lemma {:induction false} TrimRightKeeps(s: string, c: char)
    requires c !in s
    ensures c !in TrimRight(s)
  {
    if s != [] && Cut(s[|s| - 1]) { TrimRightKeeps(s[..|s| - 1], c); }
  }

  lemma TrimKeeps(s: string, c: char)
    requires c !in s
    ensures c !in Trim(s)
  {
    TrimLeftKeeps(s, c);
    TrimRightKeeps(TrimLeft(s), c);
  }

  /** A rewritten piece splits into exactly its name and its value. */
  lemma ResplitRow(text: string, i: nat)
    requires i < |Grid(text)| && |Grid(text)[i]| >= 2
    ensures Split(Grid(text)[i][0] + ":" + Grid(text)[i][1], ":") == [Grid(text)[i][0], Grid(text)[i][1]]
  {
    hide Split, Trim;
    var parts := Split(Split(text, ",")[i], ":");
    SplitPartsFree(Split(text, ",")[i], ':', 0);
    SplitPartsFree(Split(text, ",")[i], ':', 1);
    TrimKeeps(parts[0], ':');
    TrimKeeps(parts[1], ':');
    SplitBoth(Trim(parts[0]), Trim(parts[1]), ':');
    NoSplit(Trim(parts[0]), ':');
    NoSplit(Trim(parts[1]), ':');
  }

  // ---------------------------------------------------------------- all chassis

  datatype Outcome = FetchFailed | Panicked | Data(records: seq<Record>)

  /** The text of the chassis was fetched and can be read. */
  predicate Fine(chassis: Option<string>) { chassis.Some? && Readable(Grid(chassis.value)) }

  function TokenLists(chassis: seq<Option<string>>): seq<seq<Token>>
    requires forall i :: 0 <= i < |chassis| ==> Fine(chassis[i])
  {
    seq(|chassis|, i requires 0 <= i < |chassis| && Fine(chassis[i]) => Tokens(Grid(chassis[i].value)))
  }

  ghost predicate FirstBad(chassis: seq<Option<string>>, k: int) {
    0 <= k < |chassis| && !Fine(chassis[k]) && forall i :: 0 <= i < k ==> Fine(chassis[i])
  }

  lemma TokenListsSnoc(chassis: seq<Option<string>>, k: nat)
    requires k < |chassis| && forall i :: 0 <= i <= k ==> Fine(chassis[i])
    ensures AllRecords(TokenLists(chassis[..k + 1]), FIELDS) ==
              AllRecords(TokenLists(chassis[..k]), FIELDS) + Records([], Tokens(Grid(chassis[k].value)), FIELDS)
  {
    hide Records, Tokens, Readable, Grid;
    var all := TokenLists(chassis[..k + 1]);
    assert all[..k] == TokenLists(chassis[..k]) && all[k] == Tokens(Grid(chassis[k].value));
  }

  /** `getDeviceTemperature` over the JSON texts of the chassis; None is a chassis whose data could
      not be fetched.  The first chassis that fails decides; otherwise the records are those of
      each chassis on its own, in order. */
  method GetDeviceTemperature(chassis: seq<Option<string>>) returns (r: Outcome)
    ensures r.Data? <==> forall i :: 0 <= i < |chassis| ==> Fine(chassis[i])
    ensures r.Data? ==> r.records == AllRecords(TokenLists(chassis), FIELDS)
    ensures !r.Data? ==> exists k :: FirstBad(chassis, k) && (r.FetchFailed? <==> chassis[k].None?)
  {
    assert TokenLists(chassis[..0]) == [] && AllRecords([], FIELDS) == [];
    hide Records, AllRecords, Tokens, Grid, Readable;
    var mapData: Record := map[];
    var out: seq<Record> := [];
    for k := 0 to |chassis|
      invariant forall i :: 0 <= i < k ==> Fine(chassis[i])
      invariant forall n :: n in mapData ==> n in FIELDS
      invariant out == AllRecords(TokenLists(chassis[..k]), FIELDS)
    {
      if chassis[k].None? {
        assert FirstBad(chassis, k);
        return FetchFailed;
      }
      var tokens := ChassisTokens(chassis[k].value);
      if tokens.None? {
        assert FirstBad(chassis, k);
        return Panicked;
      }
      var records;
      records, mapData := Accumulate(tokens.value, mapData, FIELDS);
      TokenListsSnoc(chassis, k);
      out := out + records;
    }
    assert chassis[..|chassis|] == chassis;
    r := Data(out);
  }

  /** Cutting, rewriting and splitting again yields the tokens of the grid. */
  method ChassisTokens(text: string) returns (tokens: Option<seq<Token>>)
    ensures tokens.Some? <==> Readable(Grid(text))
    ensures tokens.Some? ==> tokens.value == Tokens(Grid(text))
  {
    hide Grid, Split;
    var data := JSONToByte(text);
    if data.None? {
      return None;
    }
    tokens := ReadTokens(data.value);
    forall i | 0 <= i < |Grid(text)|
      ensures Split(data.value[i], ":") == [Grid(text)[i][0], Grid(text)[i][1]]
    {
      ResplitRow(text, i);
    }
  }

  // ---------------------------------------------------------------- laws of the grid

  /** Punctuation that trimming removes. */
  predicate AllCut(s: string) { forall i :: 0 <= i < |s| ==> Cut(s[i]) }

  lemma {:induction false} TrimLeftOff(l: string, s: string)
    requires AllCut(l)
    ensures TrimLeft(l + s) == TrimLeft(s)
  {
    if l == [] {
      assert l + s == s;
    } else {
      assert (l + s)[1..] == l[1..] + s;
      TrimLeftOff(l[1..], s);
    }
  }

  lemma {:induction false} TrimRightOff(s: string, r: string)
    requires AllCut(r)
    ensures TrimRight(s + r) == TrimRight(s)
    decreases |r|
  {
    if r == [] {
      assert s + r == s;
    } else {
      assert (s + r)[..|s + r| - 1] == s + r[..|r| - 1];
      TrimRightOff(s, r[..|r| - 1]);
    }
  }

  lemma {:induction false} TrimLeftEnd(s: string, r: string)
    requires AllCut(r)
    ensures TrimLeft(s + r) == if TrimLeft(s) == "" then "" else TrimLeft(s) + r
  {
    if s == [] {
      assert s + r == r + [];
      TrimLeftOff(r, []);
    } else if Cut(s[0]) {
      assert (s + r)[1..] == s[1..] + r;
      TrimLeftEnd(s[1..], r);
    }
  }

  /** Punctuation at the ends of a cell does not matter. */
  lemma TrimDressed(l: string, s: string, r: string)
    requires AllCut(l) && AllCut(r)
    ensures Trim(l + s) == Trim(s) && Trim(s + r) == Trim(s)
  {
    TrimLeftOff(l, s);
    TrimLeftEnd(s, r);
    TrimRightOff(TrimLeft(s), r);
  }

  lemma CutIsNoSeparator(l: string, c: char)
    requires AllCut(l) && (c == ',' || c == ':')
    ensures c !in l
  {
  }

  /** Punctuation before or after a text changes none of its cells. */
  lemma GridDressed(l: string, a: string, r: string)
    requires AllCut(l) && AllCut(r)
    ensures Grid(l + a) == Grid(a) && Grid(a + r) == Grid(a)
  {
    hide Split, Cells, AllCut;
    CutIsNoSeparator(l, ',');
    CutIsNoSeparator(r, ',');
    SplitConcat(l, a, ',');
    NoSplit(l, ',');
    SplitConcat(a, r, ',');
    NoSplit(r, ',');
    var ps := Split(a, ",");
    CellsDressed(l, ps[0], r);
    CellsDressed(l, ps[|ps| - 1], r);
    assert Split(l + a, ",") == ps[0 := l + ps[0]];
    assert Split(a + r, ",") == ps[|ps| - 1 := ps[|ps| - 1] + r];
  }

  lemma CellsDressed(l: string, a: string, r: string)
    requires AllCut(l) && AllCut(r)
    ensures Cells(l + a) == Cells(a) && Cells(a + r) == Cells(a)
  {
    hide Split, Trim, AllCut;
    CutIsNoSeparator(l, ':');
    CutIsNoSeparator(r, ':');
    SplitConcat(l, a, ':');
    NoSplit(l, ':');
    SplitConcat(a, r, ':');
    NoSplit(r, ':');
    var ps := Split(a, ":");
    TrimDressed(l, ps[0], r);
    TrimDressed(l, ps[|ps| - 1], r);
    assert Split(l + a, ":") == ps[0 := l + ps[0]];
    assert Split(a + r, ":") == ps[|ps| - 1 := ps[|ps| - 1] + r];
  }

  /** A comma puts the rows of two texts one after the other. */
  lemma GridComma(a: string, b: string)
    ensures Grid(a + "," + b) == Grid(a) + Grid(b)
  {
    hide Split, Cells;
    SplitBoth(a, b, ',');
  }

  lemma CellsColon(a: string, b: string)
    ensures Cells(a + ":" + b) == Cells(a) + Cells(b)
  {
    hide Split, Trim;
    SplitBoth(a, b, ':');
  }

  /** A colon joins the last row of one text and the first row of the other. */
  lemma GridColon(a: string, b: string)
    ensures Grid(a + ":" + b) == Fuse(Grid(a), Grid(b))
  {
    hide Split, Cells;
    var ps, qs := Split(a, ","), Split(b, ",");
    SplitConcat(a + ":", b, ',');
    SplitConcat(a, ":", ',');
    NoSplit(":", ',');
    var n := |ps| - 1;
    CellsColon(ps[n], qs[0]);
    var joined := ps[..n] + [ps[n] + ":" + qs[0]] + qs[1..];
    assert Split(a + ":" + b, ",") == joined;
    var g := Fuse(Grid(a), Grid(b));
    forall i | 0 <= i < |joined| ensures Cells(joined[i]) == g[i] {
    }
  }

  // ---------------------------------------------------------------- JSON values

  /** A value as json.Marshal writes it; `text` is what stands between the quotes of a string. */
  datatype Value =
    | Leaf(text: string, quoted: bool)
    | Obj(fields: seq<Field>)
    | Arr(elems: seq<Value>)

  datatype Field = Field(name: string, value: Value)

  function Quote(s: string): string { "\"" + s + "\"" }

  function Text(v: Value): string {
    match v
    case Leaf(text, quoted) => if quoted then Quote(text) else text
    case Obj(fields) => "{" + FieldsText(fields) + "}"
    case Arr(elems) => "[" + ElemsText(elems) + "]"
  }

  function FieldsText(fs: seq<Field>): string {
    if fs == [] then ""
    else Quote(fs[0].name) + ":" + Text(fs[0].value) + if |fs| == 1 then "" else "," + FieldsText(fs[1..])
  }

  function ElemsText(es: seq<Value>): string {
    if es == [] then "" else Text(es[0]) + if |es| == 1 then "" else "," + ElemsText(es[1..])
  }

  /** The rows a value is cut into, by its structure: a name shares a row with the first row of
      its value, and nothing else of the nesting is left. */
  function Layout(v: Value): (g: seq<Row>)
    ensures g != [] && forall i :: 0 <= i < |g| ==> g[i] != []
    decreases v, 1
  {
    match v
    case Leaf(text, _) => Grid(text)
    case Obj(fields) => if fields == [] then [[""]] else FieldsLayout(fields)
    case Arr(elems) => if elems == [] then [[""]] else ElemsLayout(elems)
  }

  function FieldsLayout(fs: seq<Field>): (g: seq<Row>)
    ensures (fs != [] ==> g != []) && forall i :: 0 <= i < |g| ==> g[i] != []
    decreases fs, 0
  {
    if fs == [] then [] else Fuse(Grid(fs[0].name), Layout(fs[0].value)) + FieldsLayout(fs[1..])
  }

  function ElemsLayout(es: seq<Value>): (g: seq<Row>)
    ensures (es != [] ==> g != []) && forall i :: 0 <= i < |g| ==> g[i] != []
    decreases es, 0
  {
    if es == [] then [] else Layout(es[0]) + ElemsLayout(es[1..])
  }

  /** No character that the cutting or the trimming looks at. */
  predicate Clean(s: string) {
    '"' !in s && '{' !in s && '}' !in s && '[' !in s && ']' !in s && ',' !in s && ':' !in s
  }

  lemma CleanGrid(s: string)
    requires Clean(s)
    ensures Grid(s) == [[s]]
  {
    NoSplit(s, ',');
    NoSplit(s, ':');
    assert Trim(s) == s;
    assert Cells(s) == [s];
    assert AllCells([s]) == [[s]];
  }

  lemma GridQuote(s: string)
    ensures Grid(Quote(s)) == Grid(s)
  {
    hide Grid;
    GridDressed("\"", s + "\"", "");
    GridDressed("", s, "\"");
    assert Quote(s) == "\"" + (s + "\"");
  }

  /** Cutting the text of any JSON value yields the rows of its structure. */
  lemma {:induction false} TextLayout(v: Value)
    ensures Grid(Text(v)) == Layout(v)
    decreases v, 1
  {
    hide Grid;
    CleanGrid("");
    match v
    case Leaf(text, quoted) => GridQuote(text);
    case Obj(fields) =>
      FieldsTextLayout(fields);
      GridDressed("{", FieldsText(fields) + "}", "");
      GridDressed("", FieldsText(fields), "}");
      assert Text(v) == "{" + (FieldsText(fields) + "}");
    case Arr(elems) =>
      ElemsTextLayout(elems);
      GridDressed("[", ElemsText(elems) + "]", "");
      GridDressed("", ElemsText(elems), "]");
      assert Text(v) == "[" + (ElemsText(elems) + "]");
  }

  lemma {:induction false} FieldsTextLayout(fs: seq<Field>)
    ensures fs != [] ==> Grid(FieldsText(fs)) == FieldsLayout(fs)
    decreases fs, 0
  {
    hide Grid;
    if fs != [] {
      var first := Quote(fs[0].name) + ":" + Text(fs[0].value);
      GridQuote(fs[0].name);
      TextLayout(fs[0].value);
      GridColon(Quote(fs[0].name), Text(fs[0].value));
      FieldsTextLayout(fs[1..]);
      if |fs| == 1 {
        assert FieldsText(fs) == first;
      } else {
        GridComma(first, FieldsText(fs[1..]));
        assert FieldsText(fs) == first + "," + FieldsText(fs[1..]);
      }
    }
  }

  lemma {:induction false} ElemsTextLayout(es: seq<Value>)
    ensures es != [] ==> Grid(ElemsText(es)) == ElemsLayout(es)
    decreases es, 0
  {
    hide Grid;
    if es != [] {
      TextLayout(es[0]);
      ElemsTextLayout(es[1..]);
      if |es| == 1 {
        assert ElemsText(es) == Text(es[0]);
      } else {
        GridComma(Text(es[0]), ElemsText(es[1..]));
        assert ElemsText(es) == Text(es[0]) + "," + ElemsText(es[1..]);
      }
    }
  }

  // ---------------------------------------------------------------- sensors

  lemma TokensConcat(g: seq<Row>, h: seq<Row>)
    ensures Readable(g + h) <==> Readable(g) && Readable(h)
    ensures Readable(g + h) ==> Tokens(g + h) == Tokens(g) + Tokens(h)
  {
    assert Readable(g + h) ==> Readable(g) by {
      assert forall i :: 0 <= i < |g| ==> (g + h)[i] == g[i];
    }
    assert Readable(g + h) ==> Readable(h) by {
      assert forall i :: 0 <= i < |h| ==> (g + h)[|g| + i] == h[i];
    }
  }

  lemma {:induction false} SensorRows(sensors: seq<Value>, blocks: seq<seq<Token>>)
    requires |blocks| == |sensors|
    requires forall i :: 0 <= i < |sensors| && Readable(Layout(sensors[i])) ==> blocks[i] == Tokens(Layout(sensors[i]))
    ensures Readable(ElemsLayout(sensors)) <==> forall i :: 0 <= i < |sensors| ==> Readable(Layout(sensors[i]))
    ensures Readable(ElemsLayout(sensors)) ==> Tokens(ElemsLayout(sensors)) == Flatten(blocks)
    decreases |sensors|
  {
    if sensors != [] {
      hide Readable, Tokens, Layout;
      SensorRows(sensors[1..], blocks[1..]);
      TokensConcat(Layout(sensors[0]), ElemsLayout(sensors[1..]));
      forall i | 0 < i < |sensors| ensures sensors[i] == sensors[1..][i - 1] && blocks[i] == blocks[1..][i - 1] {
      }
      assert ElemsLayout(sensors) == Layout(sensors[0]) + ElemsLayout(sensors[1..]);
      if forall i :: 0 <= i < |sensors[1..]| ==> Readable(Layout(sensors[1..][i])) {
        forall i | 0 < i < |sensors| ensures Readable(Layout(sensors[i])) { assert Readable(Layout(sensors[1..][i - 1])); }
      } else {
        var i :| 0 <= i < |sensors[1..]| && !Readable(Layout(sensors[1..][i]));
        assert !Readable(Layout(sensors[i + 1]));
      }
    }
  }

  /** The text of a list of sensors, whatever their values are, can be read if and only if there
      is a sensor and each sensor can be read on its own; then its tokens are those of the
      sensors, in order. */
  lemma RenderedTokens(sensors: seq<Value>, blocks: seq<seq<Token>>)
    requires |blocks| == |sensors|
    requires forall i :: 0 <= i < |sensors| && Readable(Layout(sensors[i])) ==> blocks[i] == Tokens(Layout(sensors[i]))
    ensures Readable(Grid(Text(Arr(sensors)))) <==> sensors != [] && forall i :: 0 <= i < |sensors| ==> Readable(Layout(sensors[i]))
    ensures Readable(Grid(Text(Arr(sensors)))) ==> Tokens(Grid(Text(Arr(sensors)))) == Flatten(blocks)
  {
    hide Grid, Tokens, ElemsLayout, Text;
    TextLayout(Arr(sensors));
    if sensors == [] {
      assert |Layout(Arr(sensors))[0]| == 1;
    } else {
      SensorRows(sensors, blocks);
    }
  }

  /** End to end: the text of a sensor list in which every sensor carries each field once becomes
      one record for each sensor, in order, with the sensor's own values. */
  lemma SensorsBecomeRecords(sensors: seq<Value>, blocks: seq<seq<Token>>)
    requires sensors != [] && |blocks| == |sensors|
    requires forall i :: 0 <= i < |sensors| ==>
      Readable(Layout(sensors[i])) && blocks[i] == Tokens(Layout(sensors[i])) && Block(blocks[i], FIELDS)
    ensures Readable(Grid(Text(Arr(sensors))))
    ensures Records([], Tokens(Grid(Text(Arr(sensors)))), FIELDS) == RecordsOf(blocks, FIELDS)
  {
    hide Block, Records, RecordsOf, Tokens, Grid, Text, Readable, Layout;
    RenderedTokens(sensors, blocks);
    OneRecordPerSensor([], blocks, FIELDS);
  }

  /** A sensor of plain names and values is read as exactly those names and values. */
  lemma {:induction false} PlainSensor(fs: seq<Field>)
    requires forall i :: 0 <= i < |fs| ==> Clean(fs[i].name) && fs[i].value.Leaf? && Clean(fs[i].value.text)
    ensures |FieldsLayout(fs)| == |fs| && forall i :: 0 <= i < |fs| ==> FieldsLayout(fs)[i] == [fs[i].name, fs[i].value.text]
    decreases |fs|
  {
    hide Grid, Clean;
    if fs != [] {
      CleanGrid(fs[0].name);
      CleanGrid(fs[0].value.text);
      PlainSensor(fs[1..]);
      assert [fs[0].name] + [fs[0].value.text] == [fs[0].name, fs[0].value.text];
      assert Fuse([[fs[0].name]], [[fs[0].value.text]]) == [[fs[0].name, fs[0].value.text]];
      var rest := FieldsLayout(fs[1..]);
      assert FieldsLayout(fs) == [[fs[0].name, fs[0].value.text]] + rest;
      forall i | 0 < i < |fs| ensures FieldsLayout(fs)[i] == [fs[i].name, fs[i].value.text] {
        assert FieldsLayout(fs)[i] == rest[i - 1] && fs[i] == fs[1..][i - 1];
      }
    }
  }

  /** A chassis without a sensor list is a panic: `null`, like every plain value, holds no colon. */
  lemma NoSensorsPanics(text: string)
    requires Clean(text)
    ensures !Readable(Grid(Text(Leaf(text, false))))
  {
    hide Grid;
    CleanGrid(text);
    assert |[[text]][0]| == 1;
  }

  /** A nested value is lost: the field is read as the first name inside it. */
  lemma NestedField(name: string, inner: string, v: Value, more: seq<Field>)
    requires Clean(name) && Clean(inner)
    ensures var rows := FieldsLayout([Field(name, Obj([Field(inner, v)] + more))]);
            |rows[0]| >= 3 && Tokens([rows[0]]) == [Token(name, inner)]
  {
    hide Grid, Clean;
    CleanGrid(name);
    CleanGrid(inner);
    var fs := [Field(inner, v)] + more;
    assert fs[0] == Field(inner, v) && fs[1..] == more;
    var first := Fuse([[inner]], Layout(v));
    assert FieldsLayout(fs) == first + FieldsLayout(more);
    assert first[0] == [inner] + Layout(v)[0];
    var outer := [Field(name, Obj(fs))];
    assert FieldsLayout(outer) == Fuse([[name]], FieldsLayout(fs)) + FieldsLayout(outer[1..]);
    var row := [name] + ([inner] + Layout(v)[0]);
    assert FieldsLayout(outer)[0] == row && row[0] == name && row[1] == inner && Layout(v)[0] != [];
  }

  /** A list of plain values inside a sensor cannot be read: its second element is a row of its own. */
  lemma ListPanics(name: string, a: Value, b: Value, more: seq<Value>)
    requires b.Leaf? && Clean(b.text)
    ensures !Readable(FieldsLayout([Field(name, Arr([a, b] + more))]))
  {
    hide Grid, Clean;
    CleanGrid(b.text);
    var es := [a, b] + more;
    var rest := es[1..];
    assert es[0] == a && rest[0] == b;
    var la, lm := Layout(a), ElemsLayout(rest[1..]);
    assert ElemsLayout(rest) == Layout(b) + lm;
    assert Layout(b) == [[b.text]];
    assert ElemsLayout(es) == la + ([[b.text]] + lm);
    var fs := [Field(name, Arr(es))];
    var g := Fuse(Grid(name), ElemsLayout(es));
    assert FieldsLayout(fs) == g + FieldsLayout(fs[1..]);
    var k := |Grid(name)| - 1 + |la|;
    assert g[k] == [b.text];
    assert FieldsLayout(fs)[k] == [b.text];
  }
}
