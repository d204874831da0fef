/**
 The JSON search of svc-device-manager/data_collector.go: `parseMap` and `parseArray`
 look for a keyword at one exact object depth, share an archive of scalar texts already
 reported, and set a package-level flag that nothing ever clears.

 Go ranges over a map in an arbitrary order; `ParseMap` picks an arbitrary remaining key in
 each iteration, so its contract holds for every order.
 */
module JsonWalker {
  import opened Options

  datatype Json =
    | Null
    | Bool(b: bool)
    | Num(text: string)  // the 'g' rendering of the float64
    | Str(s: string)
    | Arr(elems: seq<Json>)
    | Obj(fields: map<string, Json>)

  /** One element of the returned slice: a text, or the (key-sorted) JSON rendering of a value. */
  datatype Item = Text(s: string) | Marshalled(v: Json)

  /** `valueConvertToString` on the values that reach it: scalars and null. */
  function Convert(v: Json): Option<string> {
    match v
    case Str(s) => Some(s)
    case Num(t) => Some(t)
    case Bool(b) => Some(if b then "true" else "false")
    case _ => None
  }

  // ---------------------------------------------------------------- specification

  /** The objects a value holds directly: itself, or the object elements of an array.
      Arrays add no depth, and an array inside an array is not searched. */
  function DirectObjects(v: Json): (os: set<Json>)
    ensures forall q :: q in os ==> q.Obj?
  {
    match v
    case Obj(_) => {v}
    case Arr(es) => set e | e in es && e.Obj?
    case _ => {}
  }

  /** Breadth first: the objects `d` object levels below `o`. */
  ghost function Level(o: Json, d: nat): (os: set<Json>)
    requires o.Obj?
    ensures forall q :: q in os ==> q.Obj?
  {
    if d == 0 then {o}
    else set p, k, q | p in Level(o, d - 1) && k in p.fields && q in DirectObjects(p.fields[k]) :: q
  }

  /** Sum of `f` over every occurrence of a value under `kw` exactly `d` object levels below `o`. */
  ghost function Sum<T>(o: Json, d: nat, kw: string, f: Json -> multiset<T>): multiset<T>
    requires o.Obj?
    decreases o, 2, 0
  {
    if d == 0 then
      if kw in o.fields then f(o.fields[kw]) else multiset{}
    else
      SumKeys(o, o.fields.Keys, d - 1, kw, f)
  }

  ghost function SumKeys<T>(o: Json, ks: set<string>, d: nat, kw: string, f: Json -> multiset<T>): multiset<T>
    requires o.Obj? && ks <= o.fields.Keys
    decreases o, 1, |ks|
  {
    if ks == {} then multiset{}
    else
      var k :| k in ks;
      SumValue(o.fields[k], d, kw, f) + SumKeys(o, ks - {k}, d, kw, f)
  }

  ghost function SumValue<T>(v: Json, d: nat, kw: string, f: Json -> multiset<T>): multiset<T>
    decreases v, 4, 0
  {
    match v
    case Obj(_) => Sum(v, d, kw, f)
    case Arr(es) => SumElems(es, d, kw, f)
    case _ => multiset{}
  }

  ghost function SumElems<T>(es: seq<Json>, d: nat, kw: string, f: Json -> multiset<T>): multiset<T>
    decreases es, 3, 0
  {
    if es == [] then multiset{}
    else (if es[0].Obj? then Sum(es[0], d, kw, f) else multiset{}) + SumElems(es[1..], d, kw, f)
  }

  function Single(v: Json): multiset<Json> { multiset{v} }

  /** What a value found under the keyword adds besides archived scalars: an object is
      marshalled; an array adds its string elements as they are and itself, marshalled,
      once for every object element. */
  function ItemsOf(v: Json): multiset<Item> {
    match v
    case Obj(_) => multiset{Marshalled(v)}
    case Arr(es) => ElemItems(v, |es|)
    case _ => multiset{}
  }

  function ElemItems(v: Json, n: nat): multiset<Item>
    requires v.Arr? && n <= |v.elems|
  {
    if n == 0 then multiset{} else ElemItems(v, n - 1) + ElemItem(v, v.elems[n - 1])
  }

  function ElemItem(v: Json, e: Json): multiset<Item> {
    match e
    case Obj(_) => multiset{Marshalled(v)}
    case Str(s) => multiset{Text(s)}
    case _ => multiset{}
  }

  function Objects(es: seq<Json>): nat {
    if es == [] then 0 else Objects(es[..|es| - 1]) + if es[|es| - 1].Obj? then 1 else 0
  }

  lemma CountLast<T>(xs: seq<T>, x: T, y: T)
    ensures multiset(xs + [x])[y] == multiset(xs)[y] + if x == y then 1 else 0
  {
  }

  lemma CountSum(a: multiset<Item>, b: multiset<Item>, i: Item)
    ensures (a + b)[i] == a[i] + b[i]
  {
  }

  lemma ObjectsLast(es: seq<Json>, e: Json)
    ensures Objects(es + [e]) == Objects(es) + if e.Obj? then 1 else 0
  {
    assert (es + [e])[..|es|] == es;
  }

  lemma ElemContributes(v: Json, e: Json, s: string, w: Json)
    ensures ElemItem(v, e)[Text(s)] == if e == Str(s) then 1 else 0
    ensures ElemItem(v, e)[Marshalled(w)] == if w == v && e.Obj? then 1 else 0
  {
  }

  /** The first elements of an array contribute each of their strings as often as they hold it,
      the array's rendering once for every object among them, and nothing else. */
  ghost predicate Contributed(v: Json, es: seq<Json>, items: multiset<Item>) {
    && (forall s :: items[Text(s)] == multiset(es)[Str(s)])
    && forall w :: items[Marshalled(w)] == if w == v then Objects(es) else 0
  }

  lemma ContributedNothing(v: Json)
    ensures Contributed(v, [], multiset{})
  {
  }

  lemma ContributedStep(v: Json, es: seq<Json>, e: Json, items: multiset<Item>)
    requires v.Arr? && Contributed(v, es, items)
    ensures Contributed(v, es + [e], items + ElemItem(v, e))
  {
    hide ElemItem, Objects;
    var all := items + ElemItem(v, e);
    ObjectsLast(es, e);
    forall s ensures all[Text(s)] == multiset(es + [e])[Str(s)] {
      ElemContributes(v, e, s, v);
      CountSum(items, ElemItem(v, e), Text(s));
      CountLast(es, e, Str(s));
    }
    forall w ensures all[Marshalled(w)] == if w == v then Objects(es + [e]) else 0 {
      ElemContributes(v, e, "", w);
      CountSum(items, ElemItem(v, e), Marshalled(w));
    }
  }

  lemma {:induction false} ArrayContributes(v: Json, n: nat)
    requires v.Arr? && n <= |v.elems|
    ensures Contributed(v, v.elems[..n], ElemItems(v, n))
  {
    hide Contributed, ElemItems, ElemItem, ItemsOf;
    if n == 0 {
      ArrayItems(v, 0);
      ContributedNothing(v);
      assert v.elems[..0] == [];
    } else {
      ArrayContributes(v, n - 1);
      ArrayItems(v, n - 1);
      ContributedStep(v, v.elems[..n - 1], v.elems[n - 1], ElemItems(v, n - 1));
      assert v.elems[..n] == v.elems[..n - 1] + [v.elems[n - 1]];
    }
  }

  /** What a value found contributes besides scalars. */
  lemma ItemsMean(v: Json, s: string, w: Json)
    ensures v.Obj? ==> ItemsOf(v) == multiset{Marshalled(v)}
    ensures v.Arr? ==> ItemsOf(v)[Text(s)] == multiset(v.elems)[Str(s)]
    ensures v.Arr? ==> ItemsOf(v)[Marshalled(w)] == if w == v then Objects(v.elems) else 0
    ensures !v.Obj? && !v.Arr? ==> ItemsOf(v) == multiset{}
  {
    if v.Arr? {
      ArrayContributes(v, |v.elems|);
      assert v.elems[..|v.elems|] == v.elems;
    }
  }

  /** The walk panics (reflect.TypeOf(nil).Kind()) on a null element of an array under the keyword. */
  ghost predicate Panics(v: Json) { v.Arr? && exists i :: 0 <= i < |v.elems| && v.elems[i].Null? }

  /** `Sum` as the walker addresses it: `level` objects have been entered above `o`. */
  ghost function Below<T>(o: Json, level: nat, pos: nat, kw: string, f: Json -> multiset<T>): multiset<T>
    requires o.Obj?
  {
    if level < pos then Sum(o, pos - level - 1, kw, f) else multiset{}
  }

  /** The same for the objects held directly by a value. */
  ghost function BelowElems<T>(es: seq<Json>, level: nat, pos: nat, kw: string, f: Json -> multiset<T>): multiset<T> {
    if level < pos then SumElems(es, pos - level - 1, kw, f) else multiset{}
  }

  /** The share of the fields `ks` of `o`; `level` counts `o` itself. */
  ghost function Part<T>(o: Json, ks: set<string>, level: nat, pos: nat, kw: string, f: Json -> multiset<T>): multiset<T>
    requires o.Obj? && ks <= o.fields.Keys
  {
    if level == pos then
      if kw in ks then f(o.fields[kw]) else multiset{}
    else if level < pos then
      SumKeys(o, ks, pos - level - 1, kw, f)
    else
      multiset{}
  }

  /** The share of one field. */
  ghost function Share<T>(k: string, v: Json, level: nat, pos: nat, kw: string, f: Json -> multiset<T>): multiset<T> {
    if level == pos then
      if k == kw then f(v) else multiset{}
    else if level < pos then
      SumValue(v, pos - level - 1, kw, f)
    else
      multiset{}
  }

  /** The texts of the scalars among the values found. */
  ghost function ScalarTexts(hits: multiset<Json>): set<string> {
    set v | v in hits && Convert(v).Some? :: Convert(v).value
  }

  /** The scalar results: each text not archived yet, once. */
  ghost function FreshItems(texts: set<string>, archive: set<string>): set<Item> {
    set s | s in texts && s !in archive :: Text(s)
  }

  /** Everything one (partial) walk reports and archives, whatever the order of its visits. */
  ghost predicate Collected(paths: seq<Item>, before: set<string>, after: set<string>, hits: multiset<Json>, items: multiset<Item>) {
    && after == before + ScalarTexts(hits)
    && multiset(paths) == items + multiset(FreshItems(ScalarTexts(hits), before))
  }

  lemma CollectedThen(p: seq<Item>, q: seq<Item>, a: set<string>, b: set<string>, c: set<string>,
                      h: multiset<Json>, g: multiset<Json>, i: multiset<Item>, j: multiset<Item>)
    requires Collected(p, a, b, h, i) && Collected(q, b, c, g, j)
    ensures Collected(p + q, a, c, h + g, i + j)
  {
    assert ScalarTexts(h + g) == ScalarTexts(h) + ScalarTexts(g);
    assert multiset(p + q) == multiset(p) + multiset(q);
    assert FreshItems(ScalarTexts(h + g), a) == FreshItems(ScalarTexts(h), a) + FreshItems(ScalarTexts(g), b);
    assert FreshItems(ScalarTexts(h), a) !! FreshItems(ScalarTexts(g), b);
  }

  lemma CollectedNothing(a: set<string>)
    ensures Collected([], a, a, multiset{}, multiset{})
  {
    assert ScalarTexts(multiset{}) == {};
  }

  lemma CollectedCompound(paths: seq<Item>, a: set<string>, v: Json)
    requires (v.Obj? || v.Arr?) && multiset(paths) == ItemsOf(v)
    ensures Collected(paths, a, a, Single(v), ItemsOf(v))
  {
    assert ScalarTexts(Single(v)) == {};
  }

  lemma FreshItemsSingle(x: string, a: set<string>)
    ensures FreshItems({x}, a) == if x in a then {} else {Text(x)}
  {
  }

  lemma CollectedScalar(a: set<string>, v: Json)
    requires !v.Obj? && !v.Arr?
    ensures Convert(v).None? || Convert(v).value in a ==> Collected([], a, a, Single(v), ItemsOf(v))
    ensures Convert(v).Some? && Convert(v).value !in a ==>
              Collected([Text(Convert(v).value)], a, a + {Convert(v).value}, Single(v), ItemsOf(v))
  {
    var c := Convert(v);
    if c.None? {
      assert ScalarTexts(Single(v)) == {};
    } else {
      assert v in Single(v);
      assert ScalarTexts(Single(v)) == {c.value};
      FreshItemsSingle(c.value, a);
    }
  }

  // ---------------------------------------------------------------- order of the keys

  /** Any key may be taken first: the sum does not depend on the order of visits. */
  lemma {:induction false} SumKeysPick<T>(o: Json, ks: set<string>, k: string, d: nat, kw: string, f: Json -> multiset<T>)
    requires o.Obj? && ks <= o.fields.Keys && k in ks
    ensures SumKeys(o, ks, d, kw, f) == SumValue(o.fields[k], d, kw, f) + SumKeys(o, ks - {k}, d, kw, f)
    decreases |ks|
  {
    var c :| c in ks && SumKeys(o, ks, d, kw, f) == SumValue(o.fields[c], d, kw, f) + SumKeys(o, ks - {c}, d, kw, f);
    if c != k {
      SumKeysPick(o, ks - {c}, k, d, kw, f);
      SumKeysPick(o, ks - {k}, c, d, kw, f);
      assert ks - {c} - {k} == ks - {k} - {c};
    }
  }

  lemma PartStep<T>(o: Json, done: set<string>, k: string, level: nat, pos: nat, kw: string, f: Json -> multiset<T>)
    requires o.Obj? && done <= o.fields.Keys && k in o.fields && k !in done
    ensures Part(o, done + {k}, level, pos, kw, f) == Part(o, done, level, pos, kw, f) + Share(k, o.fields[k], level, pos, kw, f)
  {
    if level < pos {
      SumKeysPick(o, done + {k}, k, pos - level - 1, kw, f);
      assert done + {k} - {k} == done;
    }
  }

  lemma PartAll<T>(o: Json, level: nat, pos: nat, kw: string, f: Json -> multiset<T>)
    requires o.Obj?
    ensures Part(o, o.fields.Keys, level + 1, pos, kw, f) == Below(o, level, pos, kw, f)
  {
  }

  lemma ShareCases<T>(k: string, v: Json, lv: nat, pos: nat, kw: string, f: Json -> multiset<T>)
    ensures lv == pos && k == kw ==> Share(k, v, lv, pos, kw, f) == f(v)
    ensures !(lv == pos && k == kw) ==>
              Share(k, v, lv, pos, kw, f) ==
              if v.Obj? then Below(v, lv, pos, kw, f) else if v.Arr? then BelowElems(v.elems, lv, pos, kw, f) else multiset{}
  {
  }

  lemma Append(p: seq<Item>, q: seq<Item>)
    ensures multiset(p + q) == multiset(p) + multiset(q)
  {
  }

  lemma BelowElemsSnoc<T>(es: seq<Json>, e: Json, level: nat, pos: nat, kw: string, f: Json -> multiset<T>)
    ensures BelowElems(es + [e], level, pos, kw, f) == BelowElems(es, level, pos, kw, f) + if e.Obj? then Below(e, level, pos, kw, f) else multiset{}
  {
    if level < pos {
      SumElemsSnoc(es, e, pos - level - 1, kw, f);
    }
  }

  lemma {:induction false} SumElemsSnoc<T>(es: seq<Json>, e: Json, d: nat, kw: string, f: Json -> multiset<T>)
    ensures SumElems(es + [e], d, kw, f) == SumElems(es, d, kw, f) + if e.Obj? then Sum(e, d, kw, f) else multiset{}
  {
    if es == [] {
      assert (es + [e])[1..] == [];
    } else {
      SumElemsSnoc(es[1..], e, d, kw, f);
      assert (es + [e])[1..] == es[1..] + [e];
    }
  }

  // ---------------------------------------------------------------- depth

  /** `q` lies `d` levels below some object directly under `o`. */
  ghost predicate UnderChild(o: Json, d: nat, q: Json)
    requires o.Obj?
  {
    exists k, c :: k in o.fields && c in DirectObjects(o.fields[k]) && q in Level(c, d)
  }

  /** Level by level and child by child reach the same objects. */
  lemma {:induction false} LevelByChild(o: Json, d: nat, q: Json)
    requires o.Obj?
    ensures q in Level(o, d + 1) <==> UnderChild(o, d, q)
    decreases d
  {
    if d == 0 {
      assert Level(o, 0) == {o};
      assert forall c: Json :: c.Obj? ==> Level(c, 0) == {c};
    } else {
      if q in Level(o, d + 1) {
        var p, j :| p in Level(o, d) && j in p.fields && q in DirectObjects(p.fields[j]);
        LevelByChild(o, d - 1, p);
        var k, c :| k in o.fields && c in DirectObjects(o.fields[k]) && p in Level(c, d - 1);
        assert q in Level(c, d);
      }
      if UnderChild(o, d, q) {
        var k, c :| k in o.fields && c in DirectObjects(o.fields[k]) && q in Level(c, d);
        var p, j :| p in Level(c, d - 1) && j in p.fields && q in DirectObjects(p.fields[j]);
        assert UnderChild(o, d - 1, p);
        LevelByChild(o, d - 1, p);
      }
    }
  }

  /** Some object `d` levels below `o` holds `v` under the keyword. */
  ghost predicate HeldAt(o: Json, d: nat, kw: string, v: Json)
    requires o.Obj?
  {
    exists q :: q in Level(o, d) && kw in q.fields && q.fields[kw] == v
  }

  /** The values found are exactly those under the keyword in an object at that depth. */
  lemma {:induction false} HitsAreAtDepth(o: Json, d: nat, kw: string, v: Json)
    requires o.Obj?
    ensures v in Sum(o, d, kw, Single) <==> HeldAt(o, d, kw, v)
    decreases d
  {
    if d == 0 {
      assert Level(o, 0) == {o};
    } else {
      SumKeysMember(o, o.fields.Keys, d - 1, kw, v);
      if v in Sum(o, d, kw, Single) {
        var k, c :| k in o.fields && c in DirectObjects(o.fields[k]) && v in Sum(c, d - 1, kw, Single);
        HitsAreAtDepth(c, d - 1, kw, v);
        var q :| q in Level(c, d - 1) && kw in q.fields && q.fields[kw] == v;
        assert UnderChild(o, d - 1, q);
        LevelByChild(o, d - 1, q);
      }
      if HeldAt(o, d, kw, v) {
        var q :| q in Level(o, d) && kw in q.fields && q.fields[kw] == v;
        LevelByChild(o, d - 1, q);
        var k, c :| k in o.fields && c in DirectObjects(o.fields[k]) && q in Level(c, d - 1);
        HitsAreAtDepth(c, d - 1, kw, v);
      }
    }
  }

  lemma {:induction false} SumKeysMember(o: Json, ks: set<string>, d: nat, kw: string, v: Json)
    requires o.Obj? && ks <= o.fields.Keys
    ensures v in SumKeys(o, ks, d, kw, Single) <==> exists k, c :: k in ks && c in DirectObjects(o.fields[k]) && v in Sum(c, d, kw, Single)
    decreases |ks|
  {
    if ks != {} {
      var k :| k in ks && SumKeys(o, ks, d, kw, Single) == SumValue(o.fields[k], d, kw, Single) + SumKeys(o, ks - {k}, d, kw, Single);
      SumKeysMember(o, ks - {k}, d, kw, v);
      SumValueMember(o.fields[k], d, kw, v);
    }
  }

  lemma SumValueMember(w: Json, d: nat, kw: string, v: Json)
    ensures v in SumValue(w, d, kw, Single) <==> exists c :: c in DirectObjects(w) && v in Sum(c, d, kw, Single)
  {
    if w.Arr? {
      SumElemsMember(w.elems, d, kw, v);
      assert SumValue(w, d, kw, Single) == SumElems(w.elems, d, kw, Single);
      assert forall c :: c in DirectObjects(w) <==> c in w.elems && c.Obj?;
    } else if w.Obj? {
      assert DirectObjects(w) == {w};
    }
  }

  lemma {:induction false} SumElemsMember(es: seq<Json>, d: nat, kw: string, v: Json)
    ensures v in SumElems(es, d, kw, Single) <==> exists c :: c in es && c.Obj? && v in Sum(c, d, kw, Single)
  {
    if es != [] {
      SumElemsMember(es[1..], d, kw, v);
      assert forall c :: c in es <==> c == es[0] || c in es[1..];
    }
  }

  /** `s` is the text of a scalar under the keyword at object depth `pos` (the root is depth 1). */
  ghost predicate ScalarAt(o: Json, pos: nat, kw: string, s: string)
    requires o.Obj?
  {
    pos > 0 && exists q :: q in Level(o, pos - 1) && kw in q.fields && Convert(q.fields[kw]) == Some(s)
  }

  /** Besides what objects and arrays contribute, the results are the scalar texts at that depth
      not archived before, each once, and the archive grows by exactly those texts. */
  lemma ScalarSearchExact(o: Json, pos: nat, kw: string, paths: seq<Item>, before: set<string>, after: set<string>, items: multiset<Item>)
    requires o.Obj? && Collected(paths, before, after, Below(o, 0, pos, kw, Single), items)
    ensures forall x :: multiset(paths)[x] == items[x] + if x.Text? && x.s !in before && ScalarAt(o, pos, kw, x.s) then 1 else 0
    ensures forall s :: s in after <==> s in before || ScalarAt(o, pos, kw, s)
  {
    var hits := Below(o, 0, pos, kw, Single);
    forall s ensures s in ScalarTexts(hits) <==> ScalarAt(o, pos, kw, s) {
      if s in ScalarTexts(hits) {
        var v :| v in hits && Convert(v).Some? && Convert(v).value == s;
        HitsAreAtDepth(o, pos - 1, kw, v);
      }
      if ScalarAt(o, pos, kw, s) {
        var q :| q in Level(o, pos - 1) && kw in q.fields && Convert(q.fields[kw]) == Some(s);
        HitsAreAtDepth(o, pos - 1, kw, q.fields[kw]);
      }
    }
  }

  /** A scalar text is that of a string, a number or a truth value held at that depth. */
  lemma ScalarTextMeans(o: Json, pos: nat, kw: string, s: string)
    requires o.Obj? && pos > 0
    ensures ScalarAt(o, pos, kw, s) <==>
              || HeldAt(o, pos - 1, kw, Str(s))
              || HeldAt(o, pos - 1, kw, Num(s))
              || (s == "true" && HeldAt(o, pos - 1, kw, Bool(true)))
              || (s == "false" && HeldAt(o, pos - 1, kw, Bool(false)))
  {
    if ScalarAt(o, pos, kw, s) {
      var q :| q in Level(o, pos - 1) && kw in q.fields && Convert(q.fields[kw]) == Some(s);
      assert HeldAt(o, pos - 1, kw, q.fields[kw]);
    }
  }

  // ---------------------------------------------------------------- what objects and arrays contribute

  /** The hits of a search, weighed one by one: any sum is the sum over the hits. */
  ghost function Weigh(hits: multiset<Json>, f: Json -> multiset<Item>): multiset<Item>
    decreases |hits|
  {
    if hits == multiset{} then multiset{}
    else
      var v :| v in hits;
      f(v) + Weigh(hits - multiset{v}, f)
  }

  lemma WeighSome(hits: multiset<Json>, f: Json -> multiset<Item>) returns (c: Json)
    requires hits != multiset{}
    ensures c in hits && Weigh(hits, f) == f(c) + Weigh(hits - multiset{c}, f)
  {
    c :| c in hits && Weigh(hits, f) == f(c) + Weigh(hits - multiset{c}, f);
  }

  lemma {:induction false} WeighPick(hits: multiset<Json>, v: Json, f: Json -> multiset<Item>)
    requires v in hits
    ensures Weigh(hits, f) == f(v) + Weigh(hits - multiset{v}, f)
    decreases |hits|
  {
    hide Weigh;
    var c := WeighSome(hits, f);
    if c != v {
      WeighPick(hits - multiset{c}, v, f);
      WeighPick(hits - multiset{v}, c, f);
      assert hits - multiset{c} - multiset{v} == hits - multiset{v} - multiset{c};
    }
  }

  lemma {:induction false} WeighConcat(g: multiset<Json>, h: multiset<Json>, f: Json -> multiset<Item>)
    ensures Weigh(g + h, f) == Weigh(g, f) + Weigh(h, f)
    decreases |g|
  {
    if g == multiset{} {
      assert g + h == h;
    } else {
      hide Weigh;
      var v :| v in g;
      var g' := g - multiset{v};
      WeighPick(g, v, f);
      WeighPick(g + h, v, f);
      Remove(g, h, v);
      WeighConcat(g', h, f);
      Associate(f(v), Weigh(g', f), Weigh(h, f));
    }
  }

  lemma Remove(g: multiset<Json>, h: multiset<Json>, v: Json)
    requires v in g
    ensures g + h - multiset{v} == (g - multiset{v}) + h
  {
  }

  lemma Associate(a: multiset<Item>, b: multiset<Item>, c: multiset<Item>)
    ensures a + (b + c) == (a + b) + c
  {
  }

  lemma WeighSingle(v: Json, f: Json -> multiset<Item>)
    ensures Weigh(Single(v), f) == f(v)
  {
    WeighPick(Single(v), v, f);
    assert Single(v) - multiset{v} == multiset{};
  }

  /** A search that sums contributions finds exactly the contributions of the values found,
      counted as often as the values are. */
  lemma {:induction false} SumWeighs(o: Json, d: nat, kw: string, f: Json -> multiset<Item>)
    requires o.Obj?
    ensures Sum(o, d, kw, f) == Weigh(Sum(o, d, kw, Single), f)
    decreases o, 2, 0
  {
    if d == 0 {
      if kw in o.fields { WeighSingle(o.fields[kw], f); }
    } else {
      SumKeysWeighs(o, o.fields.Keys, d - 1, kw, f);
    }
  }

  lemma {:induction false} SumKeysWeighs(o: Json, ks: set<string>, d: nat, kw: string, f: Json -> multiset<Item>)
    requires o.Obj? && ks <= o.fields.Keys
    ensures SumKeys(o, ks, d, kw, f) == Weigh(SumKeys(o, ks, d, kw, Single), f)
    decreases o, 1, |ks|
  {
    if ks != {} {
      var k :| k in ks;
      SumKeysPick(o, ks, k, d, kw, f);
      SumKeysPick(o, ks, k, d, kw, Single);
      SumValueWeighs(o.fields[k], d, kw, f);
      SumKeysWeighs(o, ks - {k}, d, kw, f);
      WeighConcat(SumValue(o.fields[k], d, kw, Single), SumKeys(o, ks - {k}, d, kw, Single), f);
    }
  }

  lemma {:induction false} SumValueWeighs(v: Json, d: nat, kw: string, f: Json -> multiset<Item>)
    ensures SumValue(v, d, kw, f) == Weigh(SumValue(v, d, kw, Single), f)
    decreases v, 4, 0
  {
    if v.Obj? {
      SumWeighs(v, d, kw, f);
    } else if v.Arr? {
      SumElemsWeighs(v.elems, d, kw, f);
    }
  }

  lemma {:induction false} SumElemsWeighs(es: seq<Json>, d: nat, kw: string, f: Json -> multiset<Item>)
    ensures SumElems(es, d, kw, f) == Weigh(SumElems(es, d, kw, Single), f)
    decreases es, 3, 0
  {
    if es != [] {
      var first := if es[0].Obj? then Sum(es[0], d, kw, Single) else multiset{};
      if es[0].Obj? { SumWeighs(es[0], d, kw, f); }
      SumElemsWeighs(es[1..], d, kw, f);
      WeighConcat(first, SumElems(es[1..], d, kw, Single), f);
    }
  }

  lemma {:induction false} WeighMember(hits: multiset<Json>, f: Json -> multiset<Item>, i: Item)
    ensures i in Weigh(hits, f) <==> exists v :: v in hits && i in f(v)
    decreases |hits|
  {
    if hits != multiset{} {
      var v :| v in hits && Weigh(hits, f) == f(v) + Weigh(hits - multiset{v}, f);
      WeighMember(hits - multiset{v}, f, i);
    }
  }

  /** An item is contributed if and only if a value under the keyword at that depth contributes it. */
  lemma ItemsAreAtDepth(o: Json, d: nat, kw: string, i: Item)
    requires o.Obj?
    ensures i in Sum(o, d, kw, ItemsOf) <==> exists v :: HeldAt(o, d, kw, v) && i in ItemsOf(v)
  {
    hide Sum, HeldAt, Weigh, ItemsOf;
    SumWeighs(o, d, kw, ItemsOf);
    WeighMember(Sum(o, d, kw, Single), ItemsOf, i);
    forall v ensures v in Sum(o, d, kw, Single) <==> HeldAt(o, d, kw, v) { HitsAreAtDepth(o, d, kw, v); }
  }

  // ---------------------------------------------------------------- the walker

  class Walker {
    var bfound: bool          // package variable, never reset
    var archive: set<string>  // keys of the shared map[string]bool

    constructor ()
      ensures !bfound && archive == {}
    {
      bfound, archive := false, {};
    }

    /** Reports, for every order of key visits, the same bag of results.  `ok` is false when
        the walk panics. */
    method ParseMap(o: Json, level: nat, pos: nat, kw: string) returns (paths: seq<Item>, found: bool, ok: bool)
      requires o.Obj?
      modifies this
      ensures ok <==> forall v :: v in Below(o, level, pos, kw, Single) ==> !Panics(v)
      ensures ok ==> Collected(paths, old(archive), archive, Below(o, level, pos, kw, Single), Below(o, level, pos, kw, ItemsOf))
      ensures ok ==> found == bfound == (old(bfound) || Below(o, level, pos, kw, Single) != multiset{})
      decreases o, 0
    {
      hide Collected, Share, Below, Panics;
      CollectedNothing(archive);
      var lv := level + 1;
      paths := [];
      found, ok := bfound, true;
      var rest := o.fields.Keys;
      ghost var done: set<string> := {};
      while rest != {}
        invariant rest + done == o.fields.Keys && rest !! done
        invariant forall v :: v in Part(o, done, lv, pos, kw, Single) ==> !Panics(v)
        invariant Collected(paths, old(archive), archive, Part(o, done, lv, pos, kw, Single), Part(o, done, lv, pos, kw, ItemsOf))
        invariant bfound == (old(bfound) || Part(o, done, lv, pos, kw, Single) != multiset{})
        decreases rest
      {
        var k :| k in rest;
        PartStep(o, done, k, lv, pos, kw, Single);
        PartStep(o, done, k, lv, pos, kw, ItemsOf);
        ghost var before := archive;
        var p;
        p, ok := ParseField(k, o.fields[k], lv, pos, kw);
        if !ok {
          BadFieldIsBelow(o, k, level, pos, kw);
          return;
        }
        CollectedThen(paths, p, old(archive), before, archive,
                      Part(o, done, lv, pos, kw, Single), Share(k, o.fields[k], lv, pos, kw, Single),
                      Part(o, done, lv, pos, kw, ItemsOf), Share(k, o.fields[k], lv, pos, kw, ItemsOf));
        paths := paths + p;
        rest, done := rest - {k}, done + {k};
      }
      assert done == o.fields.Keys;
      PartAll(o, level, pos, kw, Single);
      PartAll(o, level, pos, kw, ItemsOf);
      found := bfound;
    }

    /** The body of the range loop in `parseMap`: one key and its value. */
    method ParseField(k: string, v: Json, lv: nat, pos: nat, kw: string) returns (paths: seq<Item>, ok: bool)
      modifies this
      ensures ok <==> forall w :: w in Share(k, v, lv, pos, kw, Single) ==> !Panics(w)
      ensures ok ==> Collected(paths, old(archive), archive, Share(k, v, lv, pos, kw, Single), Share(k, v, lv, pos, kw, ItemsOf))
      ensures ok ==> bfound == (old(bfound) || Share(k, v, lv, pos, kw, Single) != multiset{})
      decreases v, 4
    {
      paths, ok := [], true;
      ShareCases(k, v, lv, pos, kw, Single);
      ShareCases(k, v, lv, pos, kw, ItemsOf);
      var hit := lv == pos && k == kw;
      if hit {
        bfound := true;
      }
      if v.Obj? {
        if hit {
          paths := [Marshalled(v)];
          CollectedCompound(paths, archive, v);
        } else {
          var f;
          paths, f, ok := ParseMap(v, lv, pos, kw);
        }
      } else if v.Arr? {
        if hit {
          paths, ok := ParseKeywordArray(v, lv, pos, kw);
        } else {
          paths, ok := ParseArray(v, lv, pos, kw);
        }
      } else if hit {
        paths := ParseScalar(v);
      } else {
        CollectedNothing(archive);
      }
    }

    /** A scalar found under the keyword: reported unless its text is archived already. */
    method ParseScalar(v: Json) returns (paths: seq<Item>)
      requires !v.Obj? && !v.Arr?
      modifies this`archive
      ensures Collected(paths, old(archive), archive, Single(v), ItemsOf(v))
    {
      CollectedScalar(archive, v);
      paths := [];
      var c := Convert(v);
      if c.Some? && c.value !in archive {
        archive := archive + {c.value};
        paths := [Text(c.value)];
      }
    }

    /** The elements of an array found under the keyword. */
    method ParseKeywordArray(v: Json, lv: nat, pos: nat, kw: string) returns (paths: seq<Item>, ok: bool)
      requires v.Arr? && lv == pos && bfound
      modifies this
      ensures ok <==> !Panics(v)
      ensures ok ==> Collected(paths, old(archive), archive, Single(v), ItemsOf(v)) && bfound
      decreases v, 3
    {
      hide Collected, Panics, ItemsOf, ElemItems, ElemItem;
      ArrayItems(v, 0);
      paths, ok := [], true;
      var i := 0;
      while i < |v.elems|
        invariant i <= |v.elems|
        invariant forall j :: 0 <= j < i ==> !v.elems[j].Null?
        invariant ok && archive == old(archive) && bfound
        invariant multiset(paths) == ElemItems(v, i)
      {
        var p;
        p, ok := ParseKeywordElem(v, v.elems[i], lv, pos, kw);
        if !ok {
          NullPanics(v, i);
          return;
        }
        Append(paths, p);
        ArrayItems(v, i);
        paths := paths + p;
        i := i + 1;
      }
      NullPanics(v, 0);
      CollectedCompound(paths, archive, v);
    }

    /** One element of an array found under the keyword.  A number, a boolean or an array makes
        the code search the whole array again, below the wanted depth: nothing is found. */
    method ParseKeywordElem(v: Json, e: Json, lv: nat, pos: nat, kw: string) returns (paths: seq<Item>, ok: bool)
      requires v.Arr? && lv == pos
      modifies this
      ensures ok <==> !e.Null?
      ensures ok ==> multiset(paths) == ElemItem(v, e) && archive == old(archive) && bfound == old(bfound)
      decreases v, 2
    {
      paths, ok := [], true;
      if e.Null? {
        ok := false;
      } else if e.Obj? {
        paths := [Marshalled(v)];
      } else if e.Str? {
        paths := [Text(e.s)];
      } else {
        paths, ok := ParseArray(v, lv, pos, kw);
        CollectedNothing(archive);
      }
    }

    /** Searches the object elements; `lv` objects have been entered already. */
    method ParseArray(a: Json, lv: nat, pos: nat, kw: string) returns (paths: seq<Item>, ok: bool)
      requires a.Arr?
      modifies this
      ensures ok <==> forall w :: w in BelowElems(a.elems, lv, pos, kw, Single) ==> !Panics(w)
      ensures ok ==> Collected(paths, old(archive), archive, BelowElems(a.elems, lv, pos, kw, Single), BelowElems(a.elems, lv, pos, kw, ItemsOf))
      ensures ok ==> bfound == (old(bfound) || BelowElems(a.elems, lv, pos, kw, Single) != multiset{})
      decreases a, 1
    {
      hide Collected, Below, Panics;
      paths, ok := [], true;
      CollectedNothing(archive);
      ghost var hits, items := BelowElems([], lv, pos, kw, Single), BelowElems([], lv, pos, kw, ItemsOf);
      var i := 0;
      while i < |a.elems|
        invariant i <= |a.elems|
        invariant hits == BelowElems(a.elems[..i], lv, pos, kw, Single) && items == BelowElems(a.elems[..i], lv, pos, kw, ItemsOf)
        invariant ok && forall w :: w in hits ==> !Panics(w)
        invariant Collected(paths, old(archive), archive, hits, items)
        invariant bfound == (old(bfound) || hits != multiset{})
      {
        var e := a.elems[i];
        assert a.elems[..i + 1] == a.elems[..i] + [e];
        BelowElemsSnoc(a.elems[..i], e, lv, pos, kw, Single);
        BelowElemsSnoc(a.elems[..i], e, lv, pos, kw, ItemsOf);
        if e.Obj? {
          ghost var before := archive;
          var p, f;
          p, f, ok := ParseMap(e, lv, pos, kw);
          if !ok {
            BadElemIsBelow(a.elems, i, lv, pos, kw);
            return;
          }
          ghost var h, t := Below(e, lv, pos, kw, Single), Below(e, lv, pos, kw, ItemsOf);
          CollectedThen(paths, p, old(archive), before, archive, hits, h, items, t);
          paths := paths + p;
          hits, items := hits + h, items + t;
        }
        i := i + 1;
      }
      assert a.elems[..i] == a.elems;
    }
  }

  lemma ArrayItems(v: Json, i: nat)
    requires v.Arr? && i <= |v.elems|
    ensures ItemsOf(v) == ElemItems(v, |v.elems|) && ElemItems(v, 0) == multiset{}
    ensures i < |v.elems| ==> ElemItems(v, i + 1) == ElemItems(v, i) + ElemItem(v, v.elems[i])
  {
  }

  lemma NullPanics(v: Json, i: nat)
    requires v.Arr?
    ensures i < |v.elems| && v.elems[i].Null? ==> Panics(v)
    ensures (forall j :: 0 <= j < |v.elems| ==> !v.elems[j].Null?) ==> !Panics(v)
  {
  }

  lemma BadFieldIsBelow(o: Json, k: string, level: nat, pos: nat, kw: string)
    requires o.Obj? && k in o.fields
    ensures Share(k, o.fields[k], level + 1, pos, kw, Single) <= Below(o, level, pos, kw, Single)
  {
    if level + 1 < pos {
      SumKeysPick(o, o.fields.Keys, k, pos - level - 2, kw, Single);
    }
  }

  lemma {:induction false} BadElemIsBelow(es: seq<Json>, i: nat, lv: nat, pos: nat, kw: string)
    requires i < |es| && es[i].Obj?
    ensures Below(es[i], lv, pos, kw, Single) <= BelowElems(es, lv, pos, kw, Single)
  {
    if i > 0 {
      BadElemIsBelow(es[1..], i - 1, lv, pos, kw);
    }
  }
}
