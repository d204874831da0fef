/**
 The parts of Go's `strings` package that the persistence layer builds its keys and
 index members with, and the facts about splitting and joining that its lookups rest on.
 */
module Strings {

  predicate HasPrefix(s: string, p: string) { p <= s }

  predicate HasSuffix(s: string, p: string) { |p| <= |s| && s[|s| - |p|..] == p }

  /** Position of the leftmost occurrence of `sep`, or -1. */
  function Index(s: string, sep: string): (i: int)
    requires sep != []
    ensures i == -1 || (0 <= i && i + |sep| <= |s| && sep <= s[i..])
    ensures forall j :: 0 <= j <= |s| && (i == -1 || j < i) ==> !(sep <= s[j..])
  {
    if |s| < |sep| then -1
    else if sep <= s then 0
    else
      var i := Index(s[1..], sep);
      assert forall j :: 0 < j <= |s| ==> s[j..] == s[1..][j - 1..];
      if i == -1 then -1 else i + 1
  }

  predicate Contains(s: string, sep: string)
    requires sep != []
  {
    Index(s, sep) != -1
  }

  function Split(s: string, sep: string): (parts: seq<string>)
    requires sep != []
    ensures |parts| >= 1
    decreases |s|
  {
    var i := Index(s, sep);
    if i == -1 then [s] else [s[..i]] + Split(s[i + |sep|..], sep)
  }

  function Join(parts: seq<string>, sep: string): string {
    if parts == [] then ""
    else if |parts| == 1 then parts[0]
    else parts[0] + sep + Join(parts[1..], sep)
  }

  /** `strings.Replace(s, c, "", -1)` for a one-character `c`. */
  function Without(s: string, c: char): string {
    if s == [] then ""
    else (if s[0] == c then "" else [s[0]]) + Without(s[1..], c)
  }

  // ---------------------------------------------------------------- splitting

  /** `sep` is first met right after `v`. */
  lemma SplitAt(v: string, sep: string, rest: string)
    requires sep != [] && Index(v + sep + rest, sep) == |v|
    ensures Split(v + sep + rest, sep) == [v] + Split(rest, sep)
  {
    var s := v + sep + rest;
    assert s[..|v|] == v && s[|v| + |sep|..] == rest;
  }

  lemma IndexIs(s: string, sep: string, i: nat)
    requires sep != [] && i <= |s| && sep <= s[i..]
    requires forall j :: 0 <= j < i ==> !(sep <= s[j..])
    ensures Index(s, sep) == i
  {
  }

  /** A one-character separator absent from `v`. */
  lemma IndexChar(v: string, c: char, rest: string)
    requires c !in v
    ensures Index(v + [c] + rest, [c]) == |v|
  {
    var s := v + [c] + rest;
    forall j | 0 <= j < |v| ensures !([c] <= s[j..]) {
      assert s[j..][0] == v[j];
    }
    assert s[|v|..] == [c] + rest;
    IndexIs(s, [c], |v|);
  }

  lemma NoSplit(s: string, c: char)
    requires c !in s
    ensures Split(s, [c]) == [s]
  {
    assert forall j :: 0 <= j < |s| ==> s[j..][0] == s[j];
  }

  /** Splitting undoes joining when no part holds the separator. */
  lemma {:induction false} SplitJoin(parts: seq<string>, c: char)
    requires parts != [] && forall p :: p in parts ==> c !in p
    ensures Split(Join(parts, [c]), [c]) == parts
    decreases |parts|
  {
    if |parts| == 1 {
      NoSplit(parts[0], c);
    } else {
      SplitJoin(parts[1..], c);
      var rest := Join(parts[1..], [c]);
      IndexChar(parts[0], c, rest);
      SplitAt(parts[0], [c], rest);
      assert parts == [parts[0]] + parts[1..];
    }
  }

  /** Appends the first of `ys` to the last of `xs`. */
  function Fuse<T>(xs: seq<seq<T>>, ys: seq<seq<T>>): (zs: seq<seq<T>>)
    requires xs != [] && ys != []
    ensures |zs| == |xs| + |ys| - 1
  {
    xs[..|xs| - 1] + [xs[|xs| - 1] + ys[0]] + ys[1..]
  }

  lemma AbsentBefore(s: string, c: char, n: nat)
    requires n <= |s| && forall j :: 0 <= j < n ==> !([c] <= s[j..])
    ensures c !in s[..n]
  {
    forall j | 0 <= j < n ensures s[j] != c {
      assert s[j..][0] == s[j];
    }
  }

  lemma FuseFirst<T>(xs: seq<T>, ys: seq<seq<T>>)
    requires ys != []
    ensures Fuse([xs], ys) == [xs + ys[0]] + ys[1..]
    ensures Fuse([[], []], ys) == [[]] + ys
  {
    assert [] + ys[0] == ys[0];
  }

  lemma SplitAbsent(v: string, c: char, more: string)
    requires c !in v
    ensures Split(v + [c] + more, [c]) == [v] + Split(more, [c])
  {
    IndexChar(v, c, more);
    SplitAt(v, [c], more);
  }

  lemma SplitHead(x: char, rest: string, c: char)
    requires x != c
    ensures Split([x] + rest, [c]) == [[x] + Split(rest, [c])[0]] + Split(rest, [c])[1..]
  {
    var i := Index(rest, [c]);
    if i == -1 {
      AbsentBefore(rest, c, |rest|);
      assert rest[..|rest|] == rest;
      hide Split, Index;
      NoSplit(rest, c);
      NoSplit([x] + rest, c);
    } else {
      var v, more := rest[..i], rest[i + 1..];
      AbsentBefore(rest, c, i);
      assert rest == v + [c] + more && [x] + rest == ([x] + v) + [c] + more;
      hide Split, Index;
      SplitAbsent(v, c, more);
      SplitAbsent([x] + v, c, more);
    }
  }

  /** Splitting at a character, one character at a time. */
  lemma SplitStep(s: string, c: char)
    requires s != []
    ensures Split(s, [c]) == Fuse(if s[0] == c then [[], []] else [[s[0]]], Split(s[1..], [c]))
  {
    hide Split, Index;
    FuseFirst([s[0]], Split(s[1..], [c]));
    if s[0] == c {
      assert s == [] + [c] + s[1..];
      SplitAbsent([], c, s[1..]);
    } else {
      assert s == [s[0]] + s[1..];
      SplitHead(s[0], s[1..], c);
    }
  }

  lemma FuseAssociates<T>(xs: seq<seq<T>>, ys: seq<seq<T>>, zs: seq<seq<T>>)
    requires xs != [] && ys != [] && zs != []
    ensures Fuse(Fuse(xs, ys), zs) == Fuse(xs, Fuse(ys, zs))
  {
    var l, r := Fuse(Fuse(xs, ys), zs), Fuse(xs, Fuse(ys, zs));
    if |ys| == 1 {
      assert (xs[|xs| - 1] + ys[0]) + zs[0] == xs[|xs| - 1] + (ys[0] + zs[0]);
    }
    assert forall i :: 0 <= i < |l| ==> l[i] == r[i];
  }

  /** The parts of a concatenation: the last and the first part grow together. */
  lemma {:induction false} SplitConcat(a: string, b: string, c: char)
    ensures Split(a + b, [c]) == Fuse(Split(a, [c]), Split(b, [c]))
    decreases |a|
  {
    hide Split, Index;
    if a == [] {
      NoSplit(a, c);
      assert a + b == b && [] + Split(b, [c])[0] == Split(b, [c])[0];
    } else {
      SplitStep(a, c);
      SplitStep(a + b, c);
      assert (a + b)[1..] == a[1..] + b && (a + b)[0] == a[0];
      SplitConcat(a[1..], b, c);
      FuseAssociates(if a[0] == c then [[], []] else [[a[0]]], Split(a[1..], [c]), Split(b, [c]));
    }
  }

  /** The separator ends a part. */
  lemma SplitBoth(a: string, b: string, c: char)
    ensures Split(a + [c] + b, [c]) == Split(a, [c]) + Split(b, [c])
  {
    hide Split, Index;
    var xs, ys := Split(a, [c]), Split(b, [c]);
    SplitConcat(a + [c], b, c);
    SplitConcat(a, [c], c);
    SplitStep([c], c);
    NoSplit([], c);
    assert [c][1..] == [];
    assert Split([c], [c]) == [[], []];
    assert xs[|xs| - 1] + [] == xs[|xs| - 1] && [] + ys[0] == ys[0];
  }

  /** A value without a colon, the `::` mark, and anything after it. */
  lemma IndexMark(v: string, rest: string)
    requires ':' !in v
    ensures Index(v + "::" + rest, "::") == |v|
  {
    var s := v + "::" + rest;
    forall j | 0 <= j < |v| ensures !("::" <= s[j..]) {
      assert s[j..][0] == v[j];
    }
    assert s[|v|..] == "::" + rest;
    IndexIs(s, "::", |v|);
  }

  /** No mark in the text, and none that would begin in it before a colon. */
  predicate MarkFree(v: string) {
    (forall j :: 0 <= j < |v| - 1 ==> !(v[j] == ':' && v[j + 1] == ':')) && (v != "" ==> v[|v| - 1] != ':')
  }

  /** What stands before the first mark, and what behind it, is determined. */
  lemma MarkDetermines(v: string, r: string, w: string, q: string)
    requires MarkFree(v) && MarkFree(w) && v + "::" + r == w + "::" + q
    ensures v == w && r == q
  {
    FirstMark(v, r);
    FirstMark(w, q);
    var s := v + "::" + r;
    assert s[..|v|] == v && s[..|w|] == w && s[|v| + 2..] == r && s[|w| + 2..] == q;
  }

  lemma FirstMark(v: string, rest: string)
    requires MarkFree(v)
    ensures Index(v + "::" + rest, "::") == |v|
  {
    var s := v + "::" + rest;
    forall j | 0 <= j < |v| ensures !("::" <= s[j..]) {
      assert s[j..][0] == v[j] && s[j..][1] == s[j + 1];
      if j < |v| - 1 { assert s[j + 1] == v[j + 1]; }
    }
    assert s[|v|..] == "::" + rest;
    IndexIs(s, "::", |v|);
  }

  /** The part after the first mark is all of `rest` exactly when `rest` holds no mark itself. */
  lemma SplitMark(v: string, rest: string)
    requires ':' !in v
    ensures |Split(v + "::" + rest, "::")| >= 2
    ensures Split(v + "::" + rest, "::")[0] == v
    ensures Split(v + "::" + rest, "::")[1] == rest <==> !Contains(rest, "::")
  {
    IndexMark(v, rest);
    SplitAt(v, "::", rest);
    var i := Index(rest, "::");
    if i != -1 {
      assert |rest[..i]| < |rest|;
    }
  }

  // ---------------------------------------------------------------- removing characters

  lemma {:induction false} WithoutConcat(s: string, t: string, c: char)
    ensures Without(s + t, c) == Without(s, c) + Without(t, c)
  {
    if s == [] {
      assert s + t == t;
    } else {
      assert (s + t)[1..] == s[1..] + t;
      WithoutConcat(s[1..], t, c);
    }
  }

  lemma {:induction false} WithoutAbsent(s: string, c: char)
    requires c !in s
    ensures Without(s, c) == s
  {
    if s != [] {
      WithoutAbsent(s[1..], c);
    }
  }

  lemma {:induction false} JoinAbsent(parts: seq<string>, sep: string, c: char)
    requires c !in sep && forall p :: p in parts ==> c !in p
    ensures c !in Join(parts, sep)
  {
    if |parts| > 1 {
      JoinAbsent(parts[1..], sep, c);
    }
  }

  // ---------------------------------------------------------------- suffixes and prefixes

  /** Two suffixes of one string are suffixes of each other. */
  lemma SuffixesNest(s: string, p: string, q: string)
    requires HasSuffix(s, p) && HasSuffix(s, q) && |p| <= |q|
    ensures HasSuffix(q, p)
  {
    assert q[|q| - |p|..] == s[|s| - |p|..];
  }

  lemma SuffixOfConcat(a: string, b: string)
    ensures HasSuffix(a + b, b)
  {
    assert (a + b)[|a|..] == b;
  }

  /** Two prefixes of one string are prefixes of each other. */
  lemma PrefixesNest(s: string, p: string, q: string)
    requires p <= s && q <= s && |p| <= |q|
    ensures p <= q
  {
    assert q[..|p|] == s[..|p|];
  }
}
