/**
 The event and device subscription indexes of redis.go.  A device entry is one member
 `host::location::[origins]` with score 0.  Event lookups gather a whole scan; device
 lookups return after the first page of theirs.
 */
module Subscriptions {
  import opened Strings
  import opened Glob
  import opened SortedSets

  datatype Subscription = Subscription(host: string, location: string, origins: seq<string>)

  function Key(s: Subscription): string {
    s.host + "::" + s.location + "::" + "[" + Join(s.origins, " ") + "]"
  }

  /** Host and location free of the mark, and origins that can be told apart. */
  predicate Parted(s: Subscription) {
    MarkFree(s.host) && MarkFree(s.location) && s.origins != [""] && forall o :: o in s.origins ==> ' ' !in o
  }

  /** An entry determines its host, its location and its list of origins. */
  lemma KeyDetermines(s: Subscription, t: Subscription)
    requires Parted(s) && Parted(t) && Key(s) == Key(t)
    ensures s == t
  {
    hide MarkFree, Join;
    var a, b := "[" + Join(s.origins, " ") + "]", "[" + Join(t.origins, " ") + "]";
    assert Key(s) == s.host + "::" + (s.location + "::" + a);
    assert Key(t) == t.host + "::" + (t.location + "::" + b);
    MarkDetermines(s.host, s.location + "::" + a, t.host, t.location + "::" + b);
    MarkDetermines(s.location, a, t.location, b);
    assert a[1..|a| - 1] == Join(s.origins, " ") && b[1..|b| - 1] == Join(t.origins, " ");
    JoinDetermines(s.origins, t.origins);
  }

  lemma JoinDetermines(xs: seq<string>, ys: seq<string>)
    requires xs != [""] && ys != [""] && Join(xs, " ") == Join(ys, " ")
    requires (forall x :: x in xs ==> ' ' !in x) && (forall y :: y in ys ==> ' ' !in y)
    ensures xs == ys
  {
    assert Join([], " ") == "";
    hide Join, Split;
    NoSplit("", ' ');
    if xs != [] { SplitJoin(xs, ' '); }
    if ys != [] { SplitJoin(ys, ' '); }
  }

  function Texts(page: Page): set<string> { set x | x in page }

  /** The outcome of `UpdateDeviceSubscription`, given the first pages of its three scans. */
  function UpdatedIndex(z: ZSet, s: Subscription, scan1: seq<Page>, scan2: seq<Page>, scan3: seq<Page>): (ZSet, bool)
    requires scan1 != [] && scan2 != [] && scan3 != []
  {
    if scan1[0] == [] || scan2[0] == [] then (z, false)
    else if scan3[0] != [] then (z - Texts(scan2[0]), false)
    else ((z - Texts(scan2[0]))[Key(s) := "0"], true)
  }

  class SubscriptionIndex {
    var z: ZSet

    /** Refused when the scan for the escaped key lists anything. */
    method CreateEvtSubscriptionIndex(key: string, pages: seq<Page>) returns (ok: bool)
      modifies this
      ensures ok <==> Gathered(pages) == []
      ensures z == if ok then old(z)[key := "0"] else old(z)
    {
      var val := ScanAll(pages);
      if |val| > 0 {
        return false;
      }
      z := z[key := "0"];
      ok := true;
    }

    method DeleteEvtSubscriptions(pages: seq<Page>) returns (ok: bool)
      modifies this
      ensures ok <==> Gathered(pages) != []
      ensures z == old(z) - Texts(Gathered(pages))
    {
      var value := ScanAll(pages);
      if |value| < 1 {
        assert old(z) - Texts(value) == old(z);
        return false;
      }
      Remove(value);
      ok := true;
    }

    /** One ZREM for each text. */
    method Remove(data: seq<string>)
      modifies this
      ensures z == old(z) - Texts(data)
    {
      for i := 0 to |data|
        invariant z == old(z) - Texts(data[..i])
      {
        assert data[..i + 1] == data[..i] + [data[i]];
        z := z - {data[i]};
      }
      assert data[..|data|] == data;
    }

    /** Deletion and creation are separate commands: when the creation is refused, what was
        deleted stays deleted. */
    method UpdateEvtSubscriptions(key: string, found: seq<Page>, again: seq<Page>) returns (ok: bool)
      modifies this
      ensures ok <==> Gathered(found) != [] && Gathered(again) == []
      ensures z == if ok then (old(z) - Texts(Gathered(found)))[key := "0"] else old(z) - Texts(Gathered(found))
    {
      ok := DeleteEvtSubscriptions(found);
      if ok {
        ok := CreateEvtSubscriptionIndex(key, again);
      }
    }

    /** The first page of the scan, or an error when it is empty. */
    method GetDeviceSubscription(pages: seq<Page>) returns (data: Page, ok: bool)
      requires pages != []
      ensures data == pages[0] && (ok <==> pages[0] != [])
    {
      data := pages[0];
      ok := |data| >= 1;
    }

    method DeleteDeviceSubscription(pages: seq<Page>) returns (ok: bool)
      requires pages != []
      modifies this
      ensures ok <==> pages[0] != []
      ensures z == old(z) - Texts(pages[0])
    {
      var value;
      value, ok := GetDeviceSubscription(pages);
      if !ok {
        assert old(z) - Texts(pages[0]) == old(z);
        return;
      }
      Remove(value);
    }

    method CreateDeviceSubscriptionIndex(s: Subscription, pages: seq<Page>) returns (ok: bool)
      requires pages != []
      modifies this
      ensures ok <==> pages[0] == []
      ensures z == if ok then old(z)[Key(s) := "0"] else old(z)
    {
      var val, found := GetDeviceSubscription(pages);
      if |val| > 0 {
        return false;
      }
      z := z[Key(s) := "0"];
      ok := true;
    }

    method UpdateDeviceSubscription(s: Subscription, scan1: seq<Page>, scan2: seq<Page>, scan3: seq<Page>) returns (ok: bool)
      requires scan1 != [] && scan2 != [] && scan3 != []
      modifies this
      ensures (z, ok) == UpdatedIndex(old(z), s, scan1, scan2, scan3)
    {
      var data;
      data, ok := GetDeviceSubscription(scan1);
      if !ok {
        return;
      }
      ok := DeleteDeviceSubscription(scan2);
      if !ok {
        assert z == old(z);
        return;
      }
      ok := CreateDeviceSubscriptionIndex(s, scan3);
    }
  }

  // ---------------------------------------------------------------- the duplicate check

  ghost predicate ScoresZero(z: ZSet) { forall s :: s in z ==> z[s] == "0" }

  /** A scan gathers something exactly when some member other than "0" matches. */
  lemma GathersMatches(z: ZSet, pattern: string, pages: seq<Page>, x: string)
    requires ScoresZero(z) && Scan(pages, z, pattern)
    ensures x in Gathered(pages) <==> x != "0" && x in z && Match(pattern, x)
  {
    hide Match;
    GatheredMembers(pages, x);
    if x in z && Match(pattern, x) {
      assert x in Matching(z, pattern);
      var p :| 0 <= p < |pages| && x in Listed(pages[p]);
    }
    if x in Gathered(pages) {
      var p :| 0 <= p < |pages| && x in pages[p];
      assert PageOf(pages[p], z, pattern);
      var j :| 0 <= j < |pages[p]| && pages[p][j] == x;
      var i := j / 2;
      assert 2 * i <= j <= 2 * i + 1 && pages[p][2 * i] in z;
    }
  }

  /** Over every index and every scan, creation is refused exactly when the key is present. */
  ghost predicate CheckWorks(key: string) {
    forall z, pages :: ScoresZero(z) && Scan(pages, z, Escape(key)) ==> (Gathered(pages) != [] <==> key in z)
  }

  /** The duplicate check works if and only if the key is not "0", holds no wildcard, and holds
      no backslash but at its end or before a closing bracket. */
  lemma DuplicateCheckExact(key: string)
    ensures CheckWorks(key) <==> Tame(key) && key != "0"
  {
    hide Match, Escape, Tame, Gathered, Scan;
    if key == "0" {
      CheckFails(key, key);
    } else if !Tame(key) {
      var s := NotTame(key);
      CheckFails(key, s);
    } else {
      forall z, pages | ScoresZero(z) && Scan(pages, z, Escape(key)) ensures Gathered(pages) != [] <==> key in z {
        DuplicateCheck(z, key, pages);
      }
    }
  }

  lemma DuplicateCheck(z: ZSet, key: string, pages: seq<Page>)
    requires ScoresZero(z) && key != "0" && Tame(key) && Scan(pages, z, Escape(key))
    ensures Gathered(pages) != [] <==> key in z
  {
    hide Match;
    EscapeExact(key);
    assert Match(Escape(key), key);
    GathersMatches(z, Escape(key), pages, key);
    if Gathered(pages) != [] {
      var x := Gathered(pages)[0];
      GathersMatches(z, Escape(key), pages, x);
    }
  }

  /** The index that holds just `s` is one on which the check fails. */
  lemma CheckFails(key: string, s: string)
    requires if key == "0" then s == key else s != "0" && (Match(Escape(key), s) <==> s != key)
    ensures !CheckWorks(key)
  {
    hide Match, Escape;
    var z: ZSet := map[s := "0"];
    var pages := OnePageScan(z, Escape(key));
    GathersMatches(z, Escape(key), pages, s);
    if Gathered(pages) != [] {
      GathersMatches(z, Escape(key), pages, Gathered(pages)[0]);
    }
  }

  /** The key "0" is never refused, present or not: the code takes it for a score. */
  lemma ZeroNeverRefused(z: ZSet, pages: seq<Page>)
    requires ScoresZero(z) && Scan(pages, z, Escape("0"))
    ensures Gathered(pages) == []
  {
    hide Match;
    EscapeExact("0");
    if Gathered(pages) != [] {
      GathersMatches(z, Escape("0"), pages, Gathered(pages)[0]);
    }
  }

  // ---------------------------------------------------------------- device entries

  /** Hosts without glob characters, none of which extends another by a non-digit. */
  ghost predicate Hosts(hosts: set<string>) {
    && (forall a :: a in hosts ==> Plain(a) && ']' !in a)
    && forall a, b :: a in hosts && b in hosts && a < b ==> Digit(b[|a|])
  }

  /** The index holds exactly the entries. */
  ghost predicate Represents(z: ZSet, subs: set<Subscription>) {
    && (forall s :: s in subs ==> Key(s) in z)
    && forall k :: k in z ==> z[k] == "0" && exists s :: s in subs && k == Key(s)
  }

  ghost predicate Known(hosts: set<string>, subs: set<Subscription>) {
    forall s :: s in subs ==> s.host in hosts
  }

  lemma KeyShape(s: Subscription) returns (rest: string)
    ensures Key(s) == s.host + "::" + rest && Key(s)[|s.host|] == ':' && s.host <= Key(s)
  {
    rest := s.location + "::" + "[" + Join(s.origins, " ") + "]";
    assert Key(s) == s.host + "::" + rest;
  }

  /** Among known hosts, an entry starts with a host and goes on with a non-digit only if it is
      that host's own. */
  lemma EntryOfHost(hosts: set<string>, s: Subscription, h: string)
    requires Hosts(hosts) && s.host in hosts && h in hosts
    ensures Match(h + "[^0-9]*", Key(s)) <==> s.host == h
  {
    hide Match, Key;
    var k := Key(s);
    HostPattern(h, k);
    var rest := KeyShape(s);
    if h <= k && |h| < |k| && !Digit(k[|h|]) {
      if |h| <= |s.host| { PrefixesNest(k, h, s.host); } else { PrefixesNest(k, s.host, h); }
    }
  }

  /** Entries of different hosts are different members. */
  lemma KeysOfHosts(hosts: set<string>, s: Subscription, t: Subscription)
    requires Hosts(hosts) && s.host in hosts && t.host in hosts && Key(s) == Key(t)
    ensures s.host == t.host
  {
    hide Match, Key;
    EntryOfHost(hosts, s, t.host);
    EntryOfHost(hosts, t, t.host);
  }

  function OfHost(subs: set<Subscription>, h: string): set<Subscription> { set s | s in subs && s.host == h }

  /** The scan for a host matches exactly the keys of its entries. */
  lemma MatchesOfHost(hosts: set<string>, z: ZSet, subs: set<Subscription>, h: string, k: string)
    requires Hosts(hosts) && h in hosts && Known(hosts, subs) && Represents(z, subs) && k in z
    ensures Match(h + "[^0-9]*", k) <==> exists s :: s in OfHost(subs, h) && k == Key(s)
  {
    hide Match, Key, Hosts;
    var s :| s in subs && k == Key(s);
    EntryOfHost(hosts, s, h);
    if t :| t in OfHost(subs, h) && k == Key(t) {
      KeysOfHosts(hosts, s, t);
    }
  }

  /** What a page for a host takes out of the index: only entries of that host. */
  lemma PageOfHost(hosts: set<string>, z: ZSet, subs: set<Subscription>, h: string, page: Page, x: string)
    requires Hosts(hosts) && h in hosts && Known(hosts, subs) && Represents(z, subs)
    requires PageOf(page, z, h + "[^0-9]*")
    requires x in page && x in z
    ensures x in Listed(page) && exists s :: s in OfHost(subs, h) && x == Key(s)
  {
    hide Match, Key, Hosts, OfHost, Known;
    var j :| 0 <= j < |page| && page[j] == x;
    var i := j / 2;
    assert 2 * i <= j <= 2 * i + 1;
    assert page[2 * i] in z;
    MembersAreLong(z, subs, x);
    MatchesOfHost(hosts, z, subs, h, x);
  }

  lemma MembersAreLong(z: ZSet, subs: set<Subscription>, x: string)
    requires Represents(z, subs) && x in z
    ensures |x| >= 4
  {
    var s :| s in subs && x == Key(s);
  }

  /** No other host's entry is touched, whatever the scans list. */
  lemma UpdateKeepsOtherHosts(hosts: set<string>, z: ZSet, subs: set<Subscription>, s: Subscription,
                              scan1: seq<Page>, scan2: seq<Page>, scan3: seq<Page>, t: Subscription)
    requires Hosts(hosts) && s.host in hosts && Known(hosts, subs) && Represents(z, subs)
    requires scan1 != [] && scan3 != [] && Scan(scan2, z, s.host + "[^0-9]*")
    requires t.host in hosts && t.host != s.host
    ensures Key(t) in UpdatedIndex(z, s, scan1, scan2, scan3).0 <==> Key(t) in z
  {
    hide Match, Key, Hosts, Known, Represents, PageOf, OfHost;
    if Key(t) == Key(s) { KeysOfHosts(hosts, t, s); }
    if Key(t) in scan2[0] && Key(t) in z {
      PageOfHost(hosts, z, subs, s.host, scan2[0], Key(t));
      NotOtherHost(hosts, subs, s.host, t);
    }
  }

  lemma NotOtherHost(hosts: set<string>, subs: set<Subscription>, h: string, t: Subscription)
    requires Hosts(hosts) && Known(hosts, subs) && t.host in hosts
    requires exists u :: u in OfHost(subs, h) && Key(t) == Key(u)
    ensures t.host == h
  {
    hide Key, Hosts;
    var u :| u in OfHost(subs, h) && Key(t) == Key(u);
    KeysOfHosts(hosts, t, u);
  }

  function PageRest(z: ZSet, page: Page): ZSet { z - Texts(page) }

  /** After the deletion an entry of a known host is gone exactly when it was listed. */
  lemma RestOfIndex(hosts: set<string>, z: ZSet, subs: set<Subscription>, h: string, page: Page, t: Subscription)
    requires Hosts(hosts) && h in hosts && Known(hosts, subs) && Represents(z, subs) && t in subs
    requires PageOf(page, z, h + "[^0-9]*")
    ensures Key(t) in PageRest(z, page) <==> Key(t) !in Listed(page)
    ensures Key(t) in Listed(page) ==> t.host == h
  {
    hide Match, Key, Hosts, OfHost;
    if Key(t) in page {
      PageOfHost(hosts, z, subs, h, page, Key(t));
      NotOtherHost(hosts, subs, h, t);
    }
    if Key(t) in Listed(page) {
      assert Key(t) in page;
    }
  }

  /** A refused creation means that an entry of the host was left over. */
  lemma RefusedMeansLeft(hosts: set<string>, z: ZSet, subs: set<Subscription>, s: Subscription, page: Page, scan3: seq<Page>) returns (t: Subscription)
    requires Hosts(hosts) && s.host in hosts && Known(hosts, subs) && Represents(z, subs)
    requires Scan(scan3, PageRest(z, page), Escape(Key(s))) && scan3[0] != []
    ensures t in OfHost(subs, s.host) && Key(t) in PageRest(z, page)
  {
    hide Match, Key, Hosts, Texts, Escape;
    var x := scan3[0][2 * 0];
    assert PageOf(scan3[0], PageRest(z, page), Escape(Key(s)));
    assert x in PageRest(z, page) && Match(Escape(Key(s)), x);
    t :| t in subs && x == Key(t);
    SameHostPrefix(hosts, s, t);
  }

  lemma SameHostPrefix(hosts: set<string>, s: Subscription, t: Subscription)
    requires Hosts(hosts) && s.host in hosts && t.host in hosts && Match(Escape(Key(s)), Key(t))
    ensures t.host == s.host
  {
    hide Match, Key, Escape;
    var rest := KeyShape(s);
    var p := s.host + "::";
    assert Key(s) == p + rest;
    EscapeKeepsPrefix(p, rest, Key(t));
    assert s.host <= Key(t) && Key(t)[|s.host|] == ':' by { assert p[|s.host|] == ':' && p[..|s.host|] == s.host; }
    HostPattern(s.host, Key(t));
    EntryOfHost(hosts, t, s.host);
  }

  /** The entries the update promises: the host's replaced by the new one, all others kept. */
  function Replaced(subs: set<Subscription>, s: Subscription): set<Subscription> {
    subs - OfHost(subs, s.host) + {s}
  }

  ghost predicate AllListedOrNew(subs: set<Subscription>, s: Subscription, page: Page) {
    forall t :: t in OfHost(subs, s.host) ==> Key(t) in Listed(page) || Key(t) == Key(s)
  }

  /** Once the first pages of the two host scans list something, the update leaves exactly the
      promised entries if and only if the second first page listed every entry of the host
      other than the new one. */
  lemma UpdateListed(hosts: set<string>, z: ZSet, subs: set<Subscription>, s: Subscription,
                     scan1: seq<Page>, scan2: seq<Page>, scan3: seq<Page>)
    requires Hosts(hosts) && s.host in hosts && Known(hosts, subs) && Represents(z, subs)
    requires scan1 != [] && scan1[0] != [] && Scan(scan2, z, s.host + "[^0-9]*") && scan2[0] != []
    requires Scan(scan3, PageRest(z, scan2[0]), Escape(Key(s)))
    ensures Represents(UpdatedIndex(z, s, scan1, scan2, scan3).0, Replaced(subs, s)) <==> AllListedOrNew(subs, s, scan2[0])
    ensures (forall t :: t in OfHost(subs, s.host) ==> Key(t) in Listed(scan2[0])) ==> UpdatedIndex(z, s, scan1, scan2, scan3).1
  {
    hide Match, Key, Hosts, Listed, Escape, AllListed;
    var page := scan2[0];
    assert PageOf(page, z, s.host + "[^0-9]*");
    var z1 := PageRest(z, page);
    var z' := UpdatedIndex(z, s, scan1, scan2, scan3).0;
    forall t | t in subs ensures (Key(t) in z1 <==> Key(t) !in Listed(page)) && (Key(t) in Listed(page) ==> t.host == s.host) {
      RestOfIndex(hosts, z, subs, s.host, page, t);
    }
    if scan3[0] != [] {
      var t := RefusedMeansLeft(hosts, z, subs, s, page, scan3);
    }
    if AllListedOrNew(subs, s, page) {
      ReplacedWhenListed(hosts, z, subs, s, page, z');
    }
    if Represents(z', Replaced(subs, s)) {
      ListedWhenReplaced(hosts, z, subs, s, page, z');
    }
  }

  /** A host's entries that all read like the new one: nothing has to change. */
  ghost predicate OnlyNew(subs: set<Subscription>, s: Subscription) {
    OfHost(subs, s.host) != {} && forall t :: t in OfHost(subs, s.host) ==> Key(t) == Key(s)
  }

  /** For all scans, the update leaves exactly the promised entries if and only if
      both first pages of the host scans list something and the second lists every entry of the
      host other than the new one, or the host's only entry was the new one already. */
  lemma UpdateExact(hosts: set<string>, z: ZSet, subs: set<Subscription>, s: Subscription,
                    scan1: seq<Page>, scan2: seq<Page>, scan3: seq<Page>)
    requires Hosts(hosts) && s.host in hosts && Known(hosts, subs) && Represents(z, subs)
    requires Scan(scan1, z, s.host + "[^0-9]*") && Scan(scan2, z, s.host + "[^0-9]*")
    requires Scan(scan3, PageRest(z, scan2[0]), Escape(Key(s)))
    ensures Represents(UpdatedIndex(z, s, scan1, scan2, scan3).0, Replaced(subs, s)) <==>
              if scan1[0] == [] || scan2[0] == [] then OnlyNew(subs, s) else AllListedOrNew(subs, s, scan2[0])
    ensures scan1[0] != [] && (forall t :: t in OfHost(subs, s.host) ==> Key(t) in Listed(scan2[0])) && OfHost(subs, s.host) != {} ==>
              UpdatedIndex(z, s, scan1, scan2, scan3).1
  {
    hide Match, Key, Hosts, Listed, Escape, AllListed, OfHost, Represents, Known, PageRest, OnlyNew, AllListedOrNew, Replaced, PageOf;
    if scan1[0] == [] || scan2[0] == [] {
      UnchangedExact(hosts, z, subs, s);
    } else {
      UpdateListed(hosts, z, subs, s, scan1, scan2, scan3);
    }
    if t :| t in OfHost(subs, s.host) && Key(t) in Listed(scan2[0]) {
      ListedPage(scan2[0], Key(t));
    }
  }

  /** An index left as it is holds the promised entries exactly when they were there before. */
  lemma UnchangedExact(hosts: set<string>, z: ZSet, subs: set<Subscription>, s: Subscription)
    requires Hosts(hosts) && s.host in hosts && Known(hosts, subs) && Represents(z, subs)
    ensures Represents(z, Replaced(subs, s)) <==> OnlyNew(subs, s)
  {
    hide Key, Hosts;
    if Represents(z, Replaced(subs, s)) {
      assert s in Replaced(subs, s);
      var u :| u in subs && Key(s) == Key(u);
      KeysOfHosts(hosts, s, u);
      assert u in OfHost(subs, s.host);
      forall t | t in OfHost(subs, s.host) ensures Key(t) == Key(s) {
        assert Key(t) in z;
        var v :| v in Replaced(subs, s) && Key(t) == Key(v);
        KeysOfHosts(hosts, t, v);
      }
    }
    if OnlyNew(subs, s) {
      var t :| t in OfHost(subs, s.host);
      assert Key(s) == Key(t) && Key(t) in z;
      forall k | k in z ensures z[k] == "0" && exists v :: v in Replaced(subs, s) && k == Key(v) {
        var v :| v in subs && k == Key(v);
        if v.host == s.host {
          assert v in OfHost(subs, s.host) && s in Replaced(subs, s);
        } else {
          assert v in Replaced(subs, s);
        }
      }
      assert forall v :: v in Replaced(subs, s) ==> Key(v) in z;
    }
  }

  /** Whenever a host's entries do not all read like the new one, legal scans defeat the update:
      with an empty first page nothing changes and an error is reported. */
  lemma UpdateCanMiss(hosts: set<string>, z: ZSet, subs: set<Subscription>, s: Subscription) returns (scan: seq<Page>)
    requires Hosts(hosts) && s.host in hosts && Known(hosts, subs) && Represents(z, subs) && !OnlyNew(subs, s)
    ensures Scan(scan, z, s.host + "[^0-9]*") && scan[0] == []
    ensures forall scan2, scan3 :: scan2 != [] && scan3 != [] ==>
              UpdatedIndex(z, s, scan, scan2, scan3) == (z, false) && !Represents(z, Replaced(subs, s))
  {
    hide Match, Represents, Replaced, OnlyNew, Hosts, Known;
    scan := ScanAfterEmpty(z, s.host + "[^0-9]*");
    UnchangedExact(hosts, z, subs, s);
  }

  lemma ReplacedWhenListed(hosts: set<string>, z: ZSet, subs: set<Subscription>, s: Subscription, page: Page, z': ZSet)
    requires Represents(z, subs) && AllListedOrNew(subs, s, page)
    requires forall t :: t in subs ==> (Key(t) in PageRest(z, page) <==> Key(t) !in Listed(page)) && (Key(t) in Listed(page) ==> t.host == s.host)
    requires z' == PageRest(z, page)[Key(s) := "0"] || (z' == PageRest(z, page) && Key(s) in z')
    ensures Represents(z', Replaced(subs, s))
  {
    hide Key, Listed, Texts;
    forall k | k in z' ensures z'[k] == "0" && exists t :: t in Replaced(subs, s) && k == Key(t) {
      if k == Key(s) {
        assert s in Replaced(subs, s);
      } else {
        var t :| t in subs && k == Key(t);
        assert t in Replaced(subs, s);
      }
    }
  }

  lemma ListedWhenReplaced(hosts: set<string>, z: ZSet, subs: set<Subscription>, s: Subscription, page: Page, z': ZSet)
    requires Hosts(hosts) && s.host in hosts && Known(hosts, subs)
    requires forall t :: t in subs ==> (Key(t) in PageRest(z, page) <==> Key(t) !in Listed(page))
    requires forall k :: k in PageRest(z, page) ==> k in z'
    requires Represents(z', Replaced(subs, s))
    ensures AllListedOrNew(subs, s, page)
  {
    hide Key, Listed, Texts, PageRest, Hosts;
    forall t | t in OfHost(subs, s.host) ensures Key(t) in Listed(page) || Key(t) == Key(s) {
      if Key(t) !in Listed(page) {
        var u :| u in Replaced(subs, s) && Key(t) == Key(u);
        KeysOfHosts(hosts, u, t);
      }
    }
  }

  /** Without an entry for the host the update changes nothing and reports an error. */
  lemma UpdateNeedsEntry(hosts: set<string>, z: ZSet, subs: set<Subscription>, s: Subscription,
                         scan1: seq<Page>, scan2: seq<Page>, scan3: seq<Page>)
    requires Hosts(hosts) && s.host in hosts && Known(hosts, subs) && Represents(z, subs) && OfHost(subs, s.host) == {}
    requires Scan(scan1, z, s.host + "[^0-9]*") && scan2 != [] && scan3 != []
    ensures UpdatedIndex(z, s, scan1, scan2, scan3) == (z, false)
  {
    hide Match, Key, Hosts, AllListed;
    if scan1[0] != [] {
      assert PageOf(scan1[0], z, s.host + "[^0-9]*");
      var x := scan1[0][2 * 0];
      assert x in z;
      MatchesOfHost(hosts, z, subs, s.host, x);
    }
  }
}
