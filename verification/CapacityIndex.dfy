/**
 The capacity search of redis.go: `CreateIndex` writes a list of numbers as one member
 `[v1 v2]::id`, and `GetStorageList` scans the index, takes the members apart again and
 compares every number with a bound.
 */
module CapacityIndex {
  import opened Strings
  import opened Decimals
  import opened IndexValues
  import opened SortedSets
  import Glob
  import R = ResourceIndex
  import opened Options

  datatype Entry = Entry(id: string, capacities: seq<Decimal>) {
    predicate Valid() { forall i :: 0 <= i < |capacities| ==> capacities[i].Valid() }
  }

  /** The member written for a list of numbers. */
  function Member(e: Entry): string { IndexValues.Member(FloatsV(e.capacities), e.id) }

  /** The comparison keys of section 5.1.1.1 of OData 4.0 Part 2; any other key selects nothing. */
  predicate Holds(condition: string, v: Decimal, bound: Decimal)
    requires v.Valid() && bound.Valid()
  {
    if condition == "eq" then bound.Value() == v.Value()
    else if condition == "gt" then v.Value() > bound.Value()
    else if condition == "ge" then v.Value() >= bound.Value()
    else if condition == "lt" then v.Value() < bound.Value()
    else if condition == "le" then v.Value() <= bound.Value()
    else false
  }

  /** The keys compare by signs and digits, and every other key selects nothing. */
  lemma HoldsByDigits(v: Decimal, bound: Decimal)
    requires v.Valid() && bound.Valid()
    ensures Holds("gt", v, bound) <==> Less(bound, v)
    ensures Holds("lt", v, bound) <==> Less(v, bound)
    ensures Holds("ge", v, bound) <==> !Less(v, bound)
    ensures Holds("le", v, bound) <==> !Less(bound, v)
    ensures Holds("eq", v, bound) <==> !Less(v, bound) && !Less(bound, v)
    ensures forall c :: c !in {"eq", "gt", "ge", "lt", "le"} ==> !Holds(c, v, bound)
  {
    hide Less;
    ValueOrder(v, bound);
    ValueOrder(bound, v);
  }

  // ---------------------------------------------------------------- reading one member

  /** What the search makes of one member: no `::` (an index panic), a value that is not a
      number, or an id with its numbers. */
  datatype Reading = Panic | NotNumber | Row(id: string, values: seq<Decimal>)

  function ParseAll(ts: seq<string>): Option<seq<Decimal>> {
    if ts == [] then Some([])
    else
      var v := Parse(ts[0]);
      var rest := ParseAll(ts[1..]);
      if v.None? || rest.None? then None else Some([v.value] + rest.value)
  }

  function Values(k: string): seq<string> {
    Split(Without(Without(Split(k, "::")[0], ']'), '['), " ")
  }

  function Read(k: string): Reading {
    var parts := Split(k, "::");
    if |parts| < 2 then Panic
    else
      var vs := ParseAll(Values(k));
      if vs.None? then NotNumber else Row(parts[1], vs.value)
  }

  lemma {:induction false} ParseAllTexts(vs: seq<Decimal>)
    requires forall i :: 0 <= i < |vs| ==> vs[i].Valid()
    ensures ParseAll(Texts(vs)) == Some(vs)
  {
    if vs != [] {
      PrintParse(vs[0]);
      ParseAllTexts(vs[1..]);
      assert Texts(vs)[1..] == Texts(vs[1..]);
      assert [vs[0]] + vs[1..] == vs;
    }
  }

  lemma {:induction false} ParseAllPointwise(ts: seq<string>)
    ensures ParseAll(ts).Some? <==> forall i :: 0 <= i < |ts| ==> Parse(ts[i]).Some?
    ensures ParseAll(ts).Some? ==>
              |ParseAll(ts).value| == |ts| && forall i :: 0 <= i < |ts| ==> ParseAll(ts).value[i] == Parse(ts[i]).value
  {
    if ts != [] {
      ParseAllPointwise(ts[1..]);
      assert forall i :: 0 < i < |ts| ==> ts[i] == ts[1..][i - 1];
      if ParseAll(ts).None? && Parse(ts[0]).Some? {
        var i :| 0 <= i < |ts[1..]| && Parse(ts[1..][i]).None?;
        assert ts[i + 1] == ts[1..][i];
      }
    }
  }

  /** The punctuation characters never occur in the printed numbers. */
  lemma TextsChars(vs: seq<Decimal>, c: char)
    requires forall i :: 0 <= i < |vs| ==> vs[i].Valid()
    requires c !in "-." && !('0' <= c <= '9')
    ensures forall t :: t in Texts(vs) ==> c !in t
  {
    forall t | t in Texts(vs) ensures c !in t {
      var i :| 0 <= i < |vs| && t == Texts(vs)[i];
      PrintChars(vs[i], c);
    }
  }

  lemma ValuesOfMember(e: Entry)
    requires e.Valid()
    ensures |Split(Member(e), "::")| >= 2
    ensures Values(Member(e)) == Split(Join(Texts(e.capacities), " "), " ")
    ensures Split(Member(e), "::")[1] == e.id <==> !Contains(e.id, "::")
  {
    var body := Join(Texts(e.capacities), " ");
    TextsChars(e.capacities, ':');
    TextsChars(e.capacities, '[');
    TextsChars(e.capacities, ']');
    JoinAbsent(Texts(e.capacities), " ", ':');
    JoinAbsent(Texts(e.capacities), " ", '[');
    JoinAbsent(Texts(e.capacities), " ", ']');
    var list := "[" + body + "]";
    SplitMark(list, e.id);
    assert Member(e) == list + "::" + e.id;
    StripBrackets(body);
  }

  lemma StripBrackets(body: string)
    requires '[' !in body && ']' !in body
    ensures Without(Without("[" + body + "]", ']'), '[') == body
  {
    WithoutConcat("[" + body, "]", ']');
    WithoutAbsent("[" + body, ']');
    assert Without("]", ']') == "";
    assert Without("[" + body + "]", ']') == "[" + body;
    WithoutConcat("[", body, '[');
    WithoutAbsent(body, '[');
    assert Without("[", '[') == "";
  }

  lemma ReadEmpty(e: Entry)
    requires e.Valid() && e.capacities == []
    ensures Read(Member(e)) == NotNumber
  {
    ValuesOfMember(e);
    assert Texts(e.capacities) == [];
    assert Values(Member(e)) == Split("", " ") == [""];
    assert Parse("").None? by {
      assert Split("", ".") == [""];
    }
  }

  lemma ReadNonEmpty(e: Entry)
    requires e.Valid() && e.capacities != []
    ensures |Split(Member(e), "::")| >= 2 && Read(Member(e)) == Row(Split(Member(e), "::")[1], e.capacities)
  {
    ValuesOfMember(e);
    TextsChars(e.capacities, ' ');
    SplitJoin(Texts(e.capacities), ' ');
    ParseAllTexts(e.capacities);
  }

  /** A member is read back as its id and its numbers if and only if the list is not empty and
      the id holds no `::`; an empty list can never be read back. */
  lemma ReadMember(e: Entry)
    requires e.Valid()
    ensures e.capacities == [] <==> Read(Member(e)) == NotNumber
    ensures Read(Member(e)) == Row(e.id, e.capacities) <==> e.capacities != [] && !Contains(e.id, "::")
  {
    if e.capacities == [] {
      ReadEmpty(e);
    } else {
      ReadNonEmpty(e);
      ValuesOfMember(e);
    }
  }

  // ---------------------------------------------------------------- the search

  datatype Result = Found(ids: seq<string>) | ParseError | IndexPanic

  predicate Distinct(s: seq<string>) { forall i, j :: 0 <= i < j < |s| ==> s[i] != s[j] }

  /** The comparison a condition and a bound stand for. */
  function Test(condition: string, bound: Decimal): Decimal -> bool
    requires bound.Valid()
  {
    (v: Decimal) => v.Valid() && Holds(condition, v, bound)
  }

  ghost predicate SelectedBy(row: Reading, test: Decimal -> bool, id: string) {
    row.Row? && row.id == id && exists i :: 0 <= i < |row.values| && test(row.values[i])
  }

  ghost predicate Selected(rows: seq<Reading>, test: Decimal -> bool, id: string) {
    exists i :: 0 <= i < |rows| && SelectedBy(rows[i], test, id)
  }

  ghost predicate FirstBad(rows: seq<Reading>, i: int) {
    0 <= i < |rows| && !rows[i].Row? && forall j :: 0 <= j < i ==> rows[j].Row?
  }

  /** The answer for the rows read: the first that cannot be read decides the failure;
      otherwise the selected ids, each once. */
  ghost predicate Answers(rows: seq<Reading>, test: Decimal -> bool, r: Result) {
    match r
    case Found(ids) =>
      && (forall i :: 0 <= i < |rows| ==> rows[i].Row?)
      && Distinct(ids)
      && forall id :: id in ids <==> Selected(rows, test, id)
    case ParseError => exists i :: FirstBad(rows, i) && rows[i].NotNumber?
    case IndexPanic => exists i :: FirstBad(rows, i) && rows[i].Panic?
  }

  function Rows(ks: seq<string>): (rows: seq<Reading>)
    ensures |rows| == |ks|
  {
    if ks == [] then [] else [Read(ks[0])] + Rows(ks[1..])
  }

  lemma {:induction false} RowAt(ks: seq<string>, i: nat)
    requires i < |ks|
    ensures Rows(ks)[i] == Read(ks[i])
  {
    if i > 0 {
      RowAt(ks[1..], i - 1);
    }
  }

  method GetUniqueSlice(input: seq<string>) returns (list: seq<string>)
    ensures Distinct(list)
    ensures forall x :: x in list <==> x in input
  {
    var keys: set<string> := {};
    list := [];
    for n := 0 to |input|
      invariant Distinct(list)
      invariant forall x :: x in list <==> x in input[..n]
      invariant forall x :: x in keys <==> x in list
    {
      assert input[..n + 1] == input[..n] + [input[n]];
      if input[n] !in keys {
        keys := keys + {input[n]};
        list := list + [input[n]];
      }
    }
    assert input[..|input|] == input;
  }

  /** The numbers of one member against the bound: the id, once for every number that fits. */
  method SearchValues(texts: seq<string>, id: string, test: Decimal -> bool) returns (row: Result)
    ensures !row.IndexPanic?
    ensures row.Found? <==> ParseAll(texts).Some?
    ensures row.Found? ==> forall x :: x in row.ids <==> SelectedBy(Row(id, ParseAll(texts).value), test, x)
  {
    hide Parse, ParseAll;
    ParseAllPointwise(texts);
    var ids := [];
    for n := 0 to |texts|
      invariant forall i :: 0 <= i < n ==> Parse(texts[i]).Some?
      invariant forall i :: 0 <= i < |ids| ==> ids[i] == id
      invariant ids != [] <==> exists i :: 0 <= i < n && test(Parse(texts[i]).value)
    {
      var v := Parse(texts[n]);
      if v.None? {
        return ParseError;
      }
      if test(v.value) {
        ids := ids + [id];
      }
    }
    assert ids != [] ==> ids[0] == id;
    row := Found(ids);
  }

  method SearchRow(k: string, test: Decimal -> bool) returns (row: Result)
    ensures row.IndexPanic? <==> Read(k).Panic?
    ensures row.ParseError? <==> Read(k).NotNumber?
    ensures row.Found? ==> forall id :: id in row.ids <==> SelectedBy(Read(k), test, id)
  {
    var parts := Split(k, "::");
    if |parts| < 2 {
      return IndexPanic;
    }
    var values := Without(parts[0], ']');
    values := Without(values, '[');
    row := SearchValues(Split(values, " "), parts[1], test);
  }

  /** `GetStorageList` over the pages its scan returns. */
  method GetStorageList(pages: seq<Page>, bound: Decimal, condition: string, regexFlag: bool) returns (r: Result)
    requires bound.Valid()
    ensures regexFlag ==> r == Found(Gathered(pages))
    ensures !regexFlag ==> Answers(Rows(Gathered(pages)), Test(condition, bound), r)
  {
    hide Read, Rows, Gathered, Test;
    var getList := ScanAll(pages);
    if regexFlag {
      return Found(getList);
    }
    var test := Test(condition, bound);
    ghost var rows := Rows(getList);
    var storeList: seq<string> := [];
    for n := 0 to |getList|
      invariant forall j :: 0 <= j < n ==> rows[j].Row?
      invariant forall id :: id in storeList <==> exists i :: 0 <= i < n && SelectedBy(rows[i], test, id)
    {
      var row := SearchRow(getList[n], test);
      RowAt(getList, n);
      if !row.Found? {
        assert FirstBad(rows, n);
        return row;
      }
      storeList := storeList + row.ids;
    }
    storeList := GetUniqueSlice(storeList);
    r := Found(storeList);
  }

  // ---------------------------------------------------------------- refinement

  /** The index as `CreateIndex` leaves it: one member with score 0 for each list. */
  ghost predicate Indexes(z: ZSet, entries: set<Entry>) {
    && (forall e :: e in entries ==> e.Valid() && Member(e) in z)
    && forall m :: m in z ==> z[m] == "0" && exists e :: e in entries && m == Member(e)
  }

  /** The query the search stands for. */
  ghost predicate HasCapacity(entries: set<Entry>, test: Decimal -> bool, id: string) {
    exists e, i :: e in entries && e.id == id && 0 <= i < |e.capacities| && test(e.capacities[i])
  }

  /** A scan for everything gathers exactly the members. */
  lemma ScanGathers(pages: seq<Page>, z: ZSet, entries: set<Entry>, x: string)
    requires Indexes(z, entries) && Scan(pages, z, "*")
    ensures x in Gathered(pages) <==> x in z
  {
    GatheredMembers(pages, x);
    if x in z {
      MemberListed(pages, z, entries, x);
    }
    if x in Gathered(pages) {
      var p :| 0 <= p < |pages| && x in pages[p];
      ListedIsMember(pages[p], z, entries, x);
    }
  }

  lemma MemberListed(pages: seq<Page>, z: ZSet, entries: set<Entry>, x: string)
    requires Indexes(z, entries) && Scan(pages, z, "*") && x in z
    ensures x != "0" && exists p :: 0 <= p < |pages| && x in pages[p]
  {
    Glob.AnyPattern(x);
    assert x in Matching(z, "*");
    var e :| e in entries && x == Member(e);
    assert |x| >= 4;
    var p :| 0 <= p < |pages| && x in Listed(pages[p]);
  }

  lemma ListedIsMember(page: Page, z: ZSet, entries: set<Entry>, x: string)
    requires Indexes(z, entries) && PageOf(page, z, "*") && x in page && x != "0"
    ensures x in z
  {
    hide Member, Glob.Match;
    var j :| 0 <= j < |page| && page[j] == x;
    var i := j / 2;
    assert 2 * i <= j <= 2 * i + 1 && page[2 * i] in z;
  }

  lemma SelectedMeansCapacity(z: ZSet, entries: set<Entry>, ks: seq<string>, rows: seq<Reading>, test: Decimal -> bool, id: string)
    requires Indexes(z, entries)
    requires forall x :: x in ks <==> x in z
    requires |rows| == |ks| && forall i, e :: 0 <= i < |ks| && e in entries && ks[i] == Member(e) ==> rows[i] == Row(e.id, e.capacities)
    ensures Selected(rows, test, id) <==> HasCapacity(entries, test, id)
  {
    if Selected(rows, test, id) {
      var i :| 0 <= i < |rows| && SelectedBy(rows[i], test, id);
      assert ks[i] in z;
      var e :| e in entries && ks[i] == Member(e);
    }
    if HasCapacity(entries, test, id) {
      var e, j :| e in entries && e.id == id && 0 <= j < |e.capacities| && test(e.capacities[j]);
      var i :| 0 <= i < |ks| && ks[i] == Member(e);
      assert SelectedBy(rows[i], test, id);
    }
  }

  /** Capacity search refines the plain query: over every index under ids without `::`, and
      every scan of it, the search succeeds if and only if no list is empty, and then each id
      with some capacity that passes the comparison is returned exactly once, and no other. */
  lemma CapacitySearchRefinesQuery(z: ZSet, entries: set<Entry>, pages: seq<Page>, test: Decimal -> bool, r: Result)
    requires Indexes(z, entries) && Scan(pages, z, "*")
    requires forall e :: e in entries ==> !Contains(e.id, "::")
    requires Answers(Rows(Gathered(pages)), test, r)
    ensures r.Found? <==> forall e :: e in entries ==> e.capacities != []
    ensures !r.Found? ==> r == ParseError
    ensures r.Found? ==> Distinct(r.ids) && forall id :: id in r.ids <==> HasCapacity(entries, test, id)
  {
    hide Read, Rows, Gathered, Member, Contains, Scan;
    var ks := Gathered(pages);
    var rows := Rows(ks);
    forall x ensures x in ks <==> x in z { ScanGathers(pages, z, entries, x); }
    forall i, e | 0 <= i < |ks| && e in entries && ks[i] == Member(e)
      ensures rows[i] == if e.capacities == [] then NotNumber else Row(e.id, e.capacities)
    {
      RowAt(ks, i);
      ReadMember(e);
    }
    if r.Found? {
      forall e | e in entries ensures e.capacities != [] {
        var i :| 0 <= i < |ks| && ks[i] == Member(e);
      }
      forall id ensures id in r.ids <==> HasCapacity(entries, test, id) {
        SelectedMeansCapacity(z, entries, ks, rows, test, id);
      }
    } else {
      var i :| FirstBad(rows, i);
      assert ks[i] in z;
      var e :| e in entries && ks[i] == Member(e);
    }
  }

  // ---------------------------------------------------------------- from insertion to search

  function EntrySet(es: seq<Entry>): set<Entry> { set e | e in es }

  lemma EntrySetLast(es: seq<Entry>)
    requires es != []
    ensures EntrySet(es) == EntrySet(es[..|es| - 1]) + {es[|es| - 1]}
  {
    assert es == es[..|es| - 1] + [es[|es| - 1]];
  }

  /** The database after `CreateIndex` has run for each entry on the one index. */
  function Inserts(db: R.Database, name: string, es: seq<Entry>): R.Database {
    if es == [] then db
    else R.Inserted(Inserts(db, name, es[..|es| - 1]), map[name := FloatsV(es[|es| - 1].capacities)], es[|es| - 1].id)
  }

  lemma InsertKeeps(db: R.Database, name: string, entries: set<Entry>, e: Entry)
    requires Indexes(R.Get(db, name), entries) && e.Valid()
    ensures Indexes(R.Get(R.Inserted(db, map[name := FloatsV(e.capacities)], e.id), name), entries + {e})
  {
    assert IndexValues.Member(FloatsV(e.capacities), e.id) == Member(e);
    hide Member, IndexValues.Member;
    var z := R.Get(db, name);
    var z' := R.Get(R.Inserted(db, map[name := FloatsV(e.capacities)], e.id), name);
    assert z' == z[Member(e) := "0"];
    forall m | m in z' ensures z'[m] == "0" && exists x :: x in entries + {e} && m == Member(x) {
      if m == Member(e) {
        assert e in entries + {e};
      } else {
        var x :| x in entries && m == Member(x);
        assert x in entries + {e};
      }
    }
  }

  lemma {:induction false} InsertsIndex(name: string, es: seq<Entry>)
    requires forall i :: 0 <= i < |es| ==> es[i].Valid()
    ensures Indexes(R.Get(Inserts(map[], name, es), name), EntrySet(es))
  {
    if es != [] {
      hide Indexes, R.Inserted, R.Get, EntrySet;
      var n := |es| - 1;
      InsertsIndex(name, es[..n]);
      InsertKeeps(Inserts(map[], name, es[..n]), name, EntrySet(es[..n]), es[n]);
      EntrySetLast(es);
    }
  }

  /** From insertion to search: after any insertions of non-empty lists under ids without `::`,
      and for any scan of what is then in the database, the search returns each id with a fitting
      capacity exactly once, and no other. */
  lemma SearchAfterInserts(name: string, es: seq<Entry>, pages: seq<Page>, test: Decimal -> bool, r: Result)
    requires forall i :: 0 <= i < |es| ==> es[i].Valid() && es[i].capacities != [] && !Contains(es[i].id, "::")
    requires Scan(pages, R.Get(Inserts(map[], name, es), name), "*") && Answers(Rows(Gathered(pages)), test, r)
    ensures r.Found? && Distinct(r.ids) && forall id :: id in r.ids <==> HasCapacity(EntrySet(es), test, id)
  {
    hide Scan, Answers, Rows, Gathered, Inserts, Contains, Indexes;
    InsertsIndex(name, es);
    CapacitySearchRefinesQuery(R.Get(Inserts(map[], name, es), name), EntrySet(es), pages, test, r);
  }

  /** The comparison keys, by the digits of the numbers. */
  predicate Passes(condition: string, v: Decimal, bound: Decimal) {
    match condition
    case "eq" => !Less(v, bound) && !Less(bound, v)
    case "gt" => Less(bound, v)
    case "ge" => !Less(v, bound)
    case "lt" => Less(v, bound)
    case "le" => !Less(bound, v)
    case _ => false
  }

  /** An id is asked for exactly when one of its capacities compares with the bound as the key says. */
  lemma QueryMeans(entries: set<Entry>, condition: string, bound: Decimal, id: string)
    requires bound.Valid() && forall e :: e in entries ==> e.Valid()
    ensures HasCapacity(entries, Test(condition, bound), id) <==>
              exists e, i :: e in entries && e.id == id && 0 <= i < |e.capacities| && Passes(condition, e.capacities[i], bound)
  {
    hide Less, Holds;
    forall e, i | e in entries && 0 <= i < |e.capacities|
      ensures Test(condition, bound)(e.capacities[i]) <==> Passes(condition, e.capacities[i], bound)
    {
      HoldsByDigits(e.capacities[i], bound);
    }
  }
}
