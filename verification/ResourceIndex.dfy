/**
 The life of the search indexes of redis.go: `CreateIndex` adds members, `Del` scans for
 `*id` and removes what the scan lists, `UpdateResourceIndex` does the one after the other.

 `Del` gives up at the first page without a match, so the paging decides whether an id is
 removed; the paging is an input here.
 */
module ResourceIndex {
  import opened Strings
  import opened Glob
  import opened SortedSets
  import opened IndexValues
  import opened Decimals

  /** All indexes of the database, by name. */
  type Database = map<string, ZSet>

  type Form = map<string, Value>

  function Get(db: Database, name: string): ZSet {
    if name in db then db[name] else map[]
  }

  predicate Supported(form: Form) { forall i :: i in form ==> !form[i].Other? }

  // ---------------------------------------------------------------- what the operations do

  function Added(z: ZSet, v: Value, id: string): ZSet { z[Member(v, id) := Score(v)] }

  function Inserted(db: Database, form: Form, id: string): Database
  {
    map i | i in db.Keys + form.Keys :: if i in form then Added(Get(db, i), form[i], id) else db[i]
  }

  /** The texts that `Del` hands to ZREM for a page: everything listed but "0". */
  function Swept(page: Page): set<string> { set x | x in page && x != "0" }

  /** `Del` works through the pages up to the first empty one. */
  function SweptAll(pages: seq<Page>): set<string> {
    if pages == [] || pages[0] == [] then {} else Swept(pages[0]) + SweptAll(pages[1..])
  }

  lemma SweptStep(z: ZSet, pages: seq<Page>, p: nat)
    requires p < |pages| && pages[p] != []
    ensures z - SweptAll(pages[p..]) == z - Swept(pages[p]) - SweptAll(pages[p + 1..])
  {
    assert pages[p..][1..] == pages[p + 1..];
  }

  lemma SweptStop(z: ZSet, pages: seq<Page>, p: nat)
    requires p == |pages| || (p < |pages| && pages[p] == [])
    ensures z - SweptAll(pages[p..]) == z
  {
  }

  predicate SomeEmpty(pages: seq<Page>) { exists p :: 0 <= p < |pages| && pages[p] == [] }

  function Removed(db: Database, name: string, pages: seq<Page>): Database {
    db[name := Get(db, name) - SweptAll(pages)]
  }

  function SweptEach(db: Database, names: set<string>, scans: map<string, seq<Page>>): Database
    requires names <= scans.Keys
  {
    map i | i in db.Keys + names :: if i in names then Get(db, i) - SweptAll(scans[i]) else db[i]
  }

  function Updated(db: Database, form: Form, id: string, scans: map<string, seq<Page>>): Database
    requires form.Keys <= scans.Keys
  {
    Inserted(SweptEach(db, form.Keys, scans), form, id)
  }

  class IndexStore {
    var db: Database

    constructor ()
      ensures db == map[]
    {
      db := map[];
    }

    /** Go visits the form in any order.  An unsupported value stops the loop; the indexes
        visited before keep their new members. */
    method CreateIndex(form: Form, uuid: string) returns (ok: bool)
      modifies this
      ensures ok <==> Supported(form)
      ensures ok ==> db == Inserted(old(db), form, uuid)
      ensures !ok ==> exists done :: done <= form.Keys && Supported(Part(form, done)) && db == Inserted(old(db), Part(form, done), uuid)
    {
      hide Added, Inserted;
      var rest := form.Keys;
      ghost var done: set<string> := {};
      InsertedNone(db, form, uuid);
      while rest != {}
        invariant rest + done == form.Keys && rest !! done
        invariant Supported(Part(form, done))
        invariant db == Inserted(old(db), Part(form, done), uuid)
        decreases rest
      {
        var index :| index in rest;
        var value := form[index];
        if value.Other? {
          return false;
        }
        InsertedStep(old(db), form, done, index, uuid);
        db := db[index := Added(Get(db, index), value, uuid)];
        rest, done := rest - {index}, done + {index};
      }
      assert Part(form, done) == form;
      ok := true;
    }

    /** Returns true, or false for "no data with ID found". */
    method Del(index: string, pages: seq<Page>) returns (found: bool)
      modifies this
      ensures db == Removed(old(db), index, pages)
      ensures found <==> !SomeEmpty(pages)
    {
      hide Swept, SweptAll;
      ghost var z := Get(db, index);
      ghost var goal := z - SweptAll(pages);
      db := db[index := Get(db, index)];
      var p := 0;
      assert pages[p..] == pages;
      while p < |pages|
        invariant p <= |pages| && forall q :: 0 <= q < p ==> pages[q] != []
        invariant db == old(db)[index := z]
        invariant z - SweptAll(pages[p..]) == goal
      {
        if |pages[p]| < 1 {
          SweptStop(z, pages, p);
          return false;
        }
        SweptStep(z, pages, p);
        SweepPage(index, pages[p]);
        z := z - Swept(pages[p]);
        p := p + 1;
      }
      SweptStop(z, pages, p);
      found := true;
    }

    /** One ZREM for every text of the page but "0". */
    method SweepPage(index: string, page: Page)
      modifies this
      ensures db == old(db)[index := Get(old(db), index) - Swept(page)]
    {
      var z := Get(db, index);
      ghost var z0 := z;
      db := db[index := z];
      for j := 0 to |page|
        invariant db == old(db)[index := z] && z == z0 - Swept(page[..j])
      {
        assert page[..j + 1] == page[..j] + [page[j]];
        if page[j] != "0" {
          z := z - {page[j]};
          db := db[index := z];
        }
      }
      assert page[..|page|] == page;
    }

    /** The error "no data with ID found" of `Del` is ignored. */
    method UpdateResourceIndex(form: Form, uuid: string, scans: map<string, seq<Page>>) returns (ok: bool)
      requires form.Keys <= scans.Keys
      modifies this
      ensures ok <==> Supported(form)
      ensures ok ==> db == Updated(old(db), form, uuid, scans)
      ensures !ok ==> exists done :: done <= form.Keys && Supported(Part(form, done))
                        && db == Inserted(SweptEach(old(db), form.Keys, scans), Part(form, done), uuid)
    {
      var rest := form.Keys;
      ghost var done: set<string> := {};
      while rest != {}
        invariant rest + done == form.Keys && rest !! done
        invariant db == SweptEach(old(db), done, scans)
        decreases rest
      {
        var index :| index in rest;
        var found := Del(index, scans[index]);
        rest, done := rest - {index}, done + {index};
      }
      assert done == form.Keys;
      ok := CreateIndex(form, uuid);
    }
  }

  function Part(form: Form, names: set<string>): Form {
    map i | i in form && i in names :: form[i]
  }

  lemma InsertedNone(db: Database, form: Form, id: string)
    ensures Inserted(db, Part(form, {}), id) == db
  {
  }

  lemma InsertedStep(db: Database, form: Form, done: set<string>, i: string, id: string)
    requires i in form && i !in done
    ensures var part := Inserted(db, Part(form, done), id);
            Inserted(db, Part(form, done + {i}), id) == part[i := Added(Get(part, i), form[i], id)]
  {
    hide Added;
  }

  // ---------------------------------------------------------------- what an index stands for

  /** No id is a proper suffix of another, and none holds a glob character. */
  ghost predicate SuffixFree(ids: set<string>) {
    && (forall a, b :: a in ids && b in ids && HasSuffix(a, b) ==> a == b)
    && forall a :: a in ids ==> Plain(a)
  }

  /** The index holds exactly one member for each id: the encoding of its value. */
  ghost predicate Encodes(z: ZSet, m: map<string, Value>) {
    && (forall id :: id in m ==> Proper(m[id]) && Member(m[id], id) in z && z[Member(m[id], id)] == Score(m[id]))
    && forall s :: s in z ==> exists id :: id in m && s == Member(m[id], id)
  }

  /** Among suffix-free ids, a member ends with an id only if it is that id's own. */
  lemma MemberOfId(ids: set<string>, v: Value, id: string, k: string)
    requires SuffixFree(ids) && id in ids && k in ids
    ensures HasSuffix(Member(v, id), k) <==> id == k
  {
    hide ValueText;
    var s := Member(v, id);
    SuffixOfConcat(ValueText(v) + "::", id);
    assert s == (ValueText(v) + "::") + id;
    if HasSuffix(s, k) {
      if |k| <= |id| { SuffixesNest(s, k, id); } else { SuffixesNest(s, id, k); }
    }
  }

  lemma IdIsPlain(ids: set<string>, k: string)
    requires SuffixFree(ids) && k in ids
    ensures Plain(k)
  {
  }

  lemma MembersDiffer(ids: set<string>, v: Value, id: string, w: Value, k: string)
    requires SuffixFree(ids) && id in ids && k in ids && id != k
    ensures Member(v, id) != Member(w, k)
  {
    MemberOfId(ids, v, id, k);
    MemberOfId(ids, w, k, k);
  }

  lemma MatchesOfId(ids: set<string>, z: ZSet, m: map<string, Value>, k: string, s: string)
    requires SuffixFree(ids) && m.Keys <= ids && k in ids && Encodes(z, m) && s in z
    ensures Match("*" + k, s) <==> k in m && s == Member(m[k], k)
  {
    hide Member, Match, Proper, SuffixFree, HasSuffix;
    IdIsPlain(ids, k);
    SuffixPattern(k, s);
    var id :| id in m && s == Member(m[id], id);
    MemberOfId(ids, m[id], id, k);
    if k in m { MemberOfId(ids, m[k], k, k); }
  }

  /** Members hold a colon; scores do not. */
  lemma MembersHaveColon(z: ZSet, m: map<string, Value>, s: string)
    requires Encodes(z, m) && s in z
    ensures ':' in s && ':' !in z[s]
  {
    hide Print, Lower, IntText, NatText;
    var id :| id in m && s == Member(m[id], id);
    assert s[|ValueText(m[id])|] == ':';
    ScoreHasNoColon(m[id]);
  }

  lemma ScoreHasNoColon(v: Value)
    requires Proper(v)
    ensures ':' !in Score(v)
  {
    if v.FloatV? { PrintChars(v.d, ':'); }
  }

  /** What a page for `*k` can hold of the index: the one member of `k`, if it has one. */
  lemma PageHolds(ids: set<string>, z: ZSet, m: map<string, Value>, k: string, page: Page, x: string)
    requires SuffixFree(ids) && m.Keys <= ids && k in ids && Encodes(z, m)
    requires PageOf(page, z, "*" + k) && x in page && x in z
    ensures k in m && x == Member(m[k], k)
  {
    hide Member, Match, Encodes;
    var j :| 0 <= j < |page| && page[j] == x;
    var i := j / 2;
    assert 2 * i <= j <= 2 * i + 1;
    MatchesOfId(ids, z, m, k, page[2 * i]);
    MembersHaveColon(z, m, page[2 * i]);
    MembersHaveColon(z, m, x);
  }

  lemma {:induction false} SweptHolds(ids: set<string>, z: ZSet, m: map<string, Value>, k: string, pages: seq<Page>, x: string)
    requires SuffixFree(ids) && m.Keys <= ids && k in ids && Encodes(z, m)
    requires forall p :: 0 <= p < |pages| ==> PageOf(pages[p], z, "*" + k)
    requires x in SweptAll(pages) && x in z
    ensures k in m && x == Member(m[k], k)
  {
    hide Member, Match, Encodes, PageOf, SuffixFree;
    if x in Swept(pages[0]) {
      PageHolds(ids, z, m, k, pages[0], x);
    } else {
      SweptHolds(ids, z, m, k, pages[1..], x);
    }
  }

  /** `Del` takes the id's member out of the index if the first page lists it, and nothing else. */
  lemma DelEffect(ids: set<string>, z: ZSet, m: map<string, Value>, k: string, pages: seq<Page>)
    requires SuffixFree(ids) && m.Keys <= ids && k in ids && Encodes(z, m) && Scan(pages, z, "*" + k)
    ensures z - SweptAll(pages) == if k in m && pages[0] != [] then z - {Member(m[k], k)} else z
  {
    hide Member, Match, Encodes, SuffixFree;
    forall x | x in SweptAll(pages) && x in z ensures k in m && x == Member(m[k], k) && pages[0] != [] {
      SweptHolds(ids, z, m, k, pages, x);
    }
    if k in m && pages[0] != [] {
      FirstPageSwept(ids, z, m, k, pages);
    }
  }

  lemma FirstPageSwept(ids: set<string>, z: ZSet, m: map<string, Value>, k: string, pages: seq<Page>)
    requires SuffixFree(ids) && m.Keys <= ids && k in ids && k in m && Encodes(z, m)
    requires pages != [] && pages[0] != [] && PageOf(pages[0], z, "*" + k)
    ensures Member(m[k], k) in SweptAll(pages)
  {
    hide Member, Match, Encodes, SuffixFree;
    var x := pages[0][2 * 0];
    assert x in z;
    MatchesOfId(ids, z, m, k, x);
    MembersHaveColon(z, m, x);
    assert x in Swept(pages[0]);
  }

  lemma EncodesRemove(ids: set<string>, z: ZSet, m: map<string, Value>, k: string)
    requires SuffixFree(ids) && m.Keys <= ids && k in m && Encodes(z, m)
    ensures Encodes(z - {Member(m[k], k)}, m - {k})
  {
    hide Member, SuffixFree, Proper;
    var z', m' := z - {Member(m[k], k)}, m - {k};
    forall id | id in m' ensures Member(m'[id], id) in z' {
      MembersDiffer(ids, m[id], id, m[k], k);
    }
    forall s | s in z' ensures exists id :: id in m' && s == Member(m'[id], id) {
      var id :| id in m && s == Member(m[id], id);
      assert id in m';
    }
  }

  lemma EncodesAdd(ids: set<string>, z: ZSet, m: map<string, Value>, k: string, v: Value)
    requires SuffixFree(ids) && m.Keys <= ids && k in ids && k !in m && Proper(v) && Encodes(z, m)
    ensures Encodes(Added(z, v, k), m[k := v])
  {
    hide Member, SuffixFree, Proper;
    var z', m' := Added(z, v, k), m[k := v];
    forall id | id in m' ensures Member(m'[id], id) in z' && z'[Member(m'[id], id)] == Score(m'[id]) {
      if id != k { MembersDiffer(ids, m[id], id, v, k); }
    }
    forall s | s in z' ensures exists id :: id in m' && s == Member(m'[id], id) {
      if s == Member(v, k) {
        assert k in m';
      } else {
        var id :| id in m && s == Member(m[id], id);
        assert id in m';
      }
    }
  }

  /** A leftover member makes an index that no longer stands for a map without its id. */
  lemma StaleMember(ids: set<string>, z: ZSet, m: map<string, Value>, k: string, v: Value)
    requires SuffixFree(ids) && m.Keys <= ids && k in ids && Proper(v) && Member(v, k) in z
    requires k in m ==> Proper(m[k]) && Member(v, k) != Member(m[k], k)
    ensures !Encodes(z, m)
  {
    hide Member, SuffixFree;
    if Encodes(z, m) {
      var id :| id in m && Member(v, k) == Member(m[id], id);
      if id != k { MembersDiffer(ids, v, k, m[id], id); }
      assert false;
    }
  }

  /** `Del` turns the encoding of a map into the encoding of the map without the id if and
      only if the id is not indexed or the first page of the scan is not empty; otherwise it
      changes nothing. */
  lemma DelExact(ids: set<string>, z: ZSet, m: map<string, Value>, k: string, pages: seq<Page>)
    requires SuffixFree(ids) && m.Keys <= ids && k in ids && Encodes(z, m) && Scan(pages, z, "*" + k)
    ensures pages != []
    ensures Encodes(z - SweptAll(pages), m - {k}) <==> (k in m ==> pages[0] != [])
    ensures k in m && pages[0] == [] ==> z - SweptAll(pages) == z
  {
    hide Encodes, SuffixFree, AllListed, PageOf, Member, Proper;
    DelEffect(ids, z, m, k, pages);
    if k !in m {
      assert m - {k} == m;
    } else if pages[0] != [] {
      EncodesRemove(ids, z, m, k);
    } else {
      EncodesHas(z, m, k);
      StaleMember(ids, z, m - {k}, k, m[k]);
    }
  }

  /** Whatever is indexed, some scan hides the member from `Del` behind an empty first page. */
  lemma DelCanMissId(ids: set<string>, z: ZSet, m: map<string, Value>, k: string) returns (pages: seq<Page>)
    requires SuffixFree(ids) && m.Keys <= ids && k in m && Encodes(z, m)
    ensures Scan(pages, z, "*" + k) && pages[0] == [] && !Encodes(z - SweptAll(pages), m - {k})
  {
    hide Match, Member, SuffixFree, Encodes;
    EncodesHas(z, m, k);
    var s := Member(m[k], k);
    pages := [[], [s, z[s]]];
    forall x | x in z ensures Match("*" + k, x) <==> x == s { MatchesOfId(ids, z, m, k, x); }
    assert Listed(pages[1]) == {s} by { assert pages[1][2 * 0] == s; }
    assert AllListed(pages) == {s} by { assert s in Listed(pages[1]); }
    DelExact(ids, z, m, k, pages);
  }

  lemma EncodesHas(z: ZSet, m: map<string, Value>, k: string)
    requires Encodes(z, m) && k in m
    ensures Proper(m[k]) && Member(m[k], k) in z
  {
  }

  /** `UpdateResourceIndex` leaves the encoding of the map with the new value if and only if
      the id was not indexed, the first page was not empty, or the value prints the same. */
  lemma UpdateExact(ids: set<string>, z: ZSet, m: map<string, Value>, k: string, v: Value, pages: seq<Page>)
    requires SuffixFree(ids) && m.Keys <= ids && k in ids && Encodes(z, m) && Scan(pages, z, "*" + k) && Proper(v)
    ensures pages != []
    ensures Encodes(Added(z - SweptAll(pages), v, k), m[k := v]) <==>
              (k in m ==> pages[0] != [] || ValueText(m[k]) == ValueText(v))
  {
    hide Encodes, SuffixFree, AllListed, PageOf, Proper, Member, ValueText;
    DelEffect(ids, z, m, k, pages);
    if k !in m {
      EncodesAdd(ids, z, m, k, v);
    } else {
      EncodesHas(z, m, k);
      EncodesRemove(ids, z, m, k);
      var z1 := z - {Member(m[k], k)};
      EncodesAdd(ids, z1, m - {k}, k, v);
      assert (m - {k})[k := v] == m[k := v];
      SameText(m[k], v, k);
      if pages[0] == [] {
        if ValueText(m[k]) == ValueText(v) {
          assert Added(z, v, k) == Added(z1, v, k);
        } else {
          StaleMember(ids, Added(z, v, k), m[k := v], k, m[k]);
        }
      }
    }
  }

  lemma SameText(v: Value, w: Value, k: string)
    ensures Member(v, k) == Member(w, k) <==> ValueText(v) == ValueText(w)
  {
    if Member(v, k) == Member(w, k) {
      var a, b := Member(v, k), Member(w, k);
      assert a[..|a| - |k| - 2] == ValueText(v) && b[..|b| - |k| - 2] == ValueText(w);
    }
  }

  // ---------------------------------------------------------------- every run

  type Model = map<string, map<string, Value>>

  function GetModel(a: Model, name: string): map<string, Value> {
    if name in a then a[name] else map[]
  }

  datatype Op =
    | Create(form: Form, id: string)
    | Delete(name: string, id: string, pages: seq<Page>)
    | Update(form: Form, id: string, scans: map<string, seq<Page>>)

  function Apply(db: Database, op: Op): Database
    requires WellFormed(op)
  {
    match op
    case Create(form, id) => Inserted(db, form, id)
    case Delete(name, id, pages) => Removed(db, name, pages)
    case Update(form, id, scans) => Updated(db, form, id, scans)
  }

  function ApplyModel(a: Model, op: Op): Model {
    match op
    case Create(form, id) => SetEach(a, form, id)
    case Delete(name, id, _) => a[name := GetModel(a, name) - {id}]
    case Update(form, id, _) => SetEach(a, form, id)
  }

  function SetEach(a: Model, form: Form, id: string): Model {
    map i | i in a.Keys + form.Keys :: if i in form then GetModel(a, i)[id := form[i]] else a[i]
  }

  ghost predicate WellFormed(op: Op) {
    match op
    case Create(form, id) => forall i :: i in form ==> Proper(form[i])
    case Delete(name, id, pages) => true
    case Update(form, id, scans) => form.Keys <= scans.Keys && forall i :: i in form ==> Proper(form[i])
  }

  /** The inputs the promise covers: fresh ids are inserted, every scan is a scan of the index
      as it is then, and its first page lists the id when the id is indexed. */
  ghost predicate Covered(ids: set<string>, db: Database, a: Model, op: Op) {
    op.id in ids && WellFormed(op) &&
    match op
    case Create(form, id) => forall i :: i in form ==> id !in GetModel(a, i)
    case Delete(name, id, pages) => ListsId(pages, db, a, name, id)
    case Update(form, id, scans) => forall i :: i in form ==> ListsId(scans[i], db, a, i, id)
  }

  ghost predicate ListsId(pages: seq<Page>, db: Database, a: Model, name: string, id: string) {
    Scan(pages, Get(db, name), "*" + id) && (id in GetModel(a, name) ==> pages[0] != [])
  }

  /** Every index is the encoding of its map. */
  ghost predicate Represents(ids: set<string>, db: Database, a: Model) {
    forall i :: GetModel(a, i).Keys <= ids && Encodes(Get(db, i), GetModel(a, i))
  }

  ghost predicate CoveredRun(ids: set<string>, db: Database, a: Model, ops: seq<Op>)
    decreases |ops|
  {
    ops == [] || (Covered(ids, db, a, ops[0]) && CoveredRun(ids, Apply(db, ops[0]), ApplyModel(a, ops[0]), ops[1..]))
  }

  function Run(db: Database, ops: seq<Op>): Database
    requires forall i :: 0 <= i < |ops| ==> WellFormed(ops[i])
    decreases |ops|
  {
    if ops == [] then db else Run(Apply(db, ops[0]), ops[1..])
  }

  function RunModel(a: Model, ops: seq<Op>): Model
    decreases |ops|
  {
    if ops == [] then a else RunModel(ApplyModel(a, ops[0]), ops[1..])
  }

  lemma StepKeeps(ids: set<string>, db: Database, a: Model, op: Op)
    requires SuffixFree(ids) && Represents(ids, db, a) && Covered(ids, db, a, op)
    ensures Represents(ids, Apply(db, op), ApplyModel(a, op))
  {
    hide Encodes, SuffixFree, Scan, Proper, Member;
    var db', a' := Apply(db, op), ApplyModel(a, op);
    forall i ensures GetModel(a', i).Keys <= ids && Encodes(Get(db', i), GetModel(a', i)) {
      assert GetModel(a, i).Keys <= ids && Encodes(Get(db, i), GetModel(a, i));
      match op
      case Create(form, id) =>
        if i in form { EncodesAdd(ids, Get(db, i), GetModel(a, i), id, form[i]); }
      case Delete(name, id, pages) =>
        if i == name { DelExact(ids, Get(db, i), GetModel(a, i), id, pages); }
      case Update(form, id, scans) =>
        if i in form { UpdateExact(ids, Get(db, i), GetModel(a, i), id, form[i], scans[i]); }
    }
  }

  /** Over every covered run each index stays the encoding of the map from id to latest value. */
  lemma {:induction false} RunKeeps(ids: set<string>, db: Database, a: Model, ops: seq<Op>)
    requires SuffixFree(ids) && Represents(ids, db, a) && CoveredRun(ids, db, a, ops)
    ensures (forall i :: 0 <= i < |ops| ==> WellFormed(ops[i])) && Represents(ids, Run(db, ops), RunModel(a, ops))
    decreases |ops|
  {
    hide SuffixFree, Represents, Apply, ApplyModel, WellFormed;
    if ops != [] {
      StepKeeps(ids, db, a, ops[0]);
      CoveredWellFormed(ids, db, a, ops[0]);
      RunKeeps(ids, Apply(db, ops[0]), ApplyModel(a, ops[0]), ops[1..]);
      assert forall i :: 0 < i < |ops| ==> ops[i] == ops[1..][i - 1];
    }
  }

  lemma CoveredWellFormed(ids: set<string>, db: Database, a: Model, op: Op)
    requires Covered(ids, db, a, op)
    ensures WellFormed(op)
  {
  }
}
