/**
 Redis sorted sets and cursor scans.  A set maps members to the text of their scores; a
 ZSCAN is any sequence of pages that only lists matching members, each followed by its
 score, and lists every matching member at least once.  Pages may be empty and a member
 may be listed more than once, as Redis permits.
 */
module SortedSets {
  import opened Glob

  type ZSet = map<string, string>
  type Page = seq<string>

  predicate PageOf(page: Page, z: ZSet, pattern: string) {
    && |page| % 2 == 0
    && forall i :: 0 <= i < |page| / 2 ==>
         page[2 * i] in z && Match(pattern, page[2 * i]) && page[2 * i + 1] == z[page[2 * i]]
  }

  /** The members a page lists. */
  function Listed(page: Page): set<string> {
    set i | 0 <= i < |page| / 2 :: page[2 * i]
  }

  function AllListed(pages: seq<Page>): (ms: set<string>)
    ensures forall m :: m in ms <==> exists p :: 0 <= p < |pages| && m in Listed(pages[p])
  {
    set p, m | 0 <= p < |pages| && m in Listed(pages[p]) :: m
  }

  function Matching(z: ZSet, pattern: string): set<string> {
    set m | m in z && Match(pattern, m)
  }

  /** `pages` is one complete scan of `z` for `pattern`. */
  ghost predicate Scan(pages: seq<Page>, z: ZSet, pattern: string) {
    && |pages| > 0
    && (forall p :: 0 <= p < |pages| ==> PageOf(pages[p], z, pattern))
    && AllListed(pages) == Matching(z, pattern)
  }

  lemma ListedPage(page: Page, m: string)
    requires m in Listed(page)
    ensures page != [] && m in page
  {
  }

  /** One page that lists the given members. */
  lemma {:induction false} PageOfMembers(z: ZSet, pattern: string, ms: set<string>) returns (page: Page)
    requires forall m :: m in ms ==> m in z && Match(pattern, m)
    ensures PageOf(page, z, pattern) && Listed(page) == ms
    decreases ms
  {
    hide Match;
    if ms == {} {
      page := [];
    } else {
      var m :| m in ms;
      var rest := PageOfMembers(z, pattern, ms - {m});
      page := [m, z[m]] + rest;
      PageCons(z, pattern, m, rest);
      ListedCons(m, z[m], rest);
    }
  }

  lemma PageCons(z: ZSet, pattern: string, m: string, rest: Page)
    requires m in z && Match(pattern, m) && PageOf(rest, z, pattern)
    ensures PageOf([m, z[m]] + rest, z, pattern)
  {
    hide Match;
    var page := [m, z[m]] + rest;
    forall i | 0 <= i < |page| / 2
      ensures page[2 * i] in z && Match(pattern, page[2 * i]) && page[2 * i + 1] == z[page[2 * i]]
    {
      if i > 0 {
        assert page[2 * i] == rest[2 * (i - 1)] && page[2 * i + 1] == rest[2 * (i - 1) + 1];
      }
    }
  }

  lemma ListedCons(m: string, score: string, rest: Page)
    ensures Listed([m, score] + rest) == {m} + Listed(rest)
  {
    var page := [m, score] + rest;
    forall x ensures x in Listed(page) <==> x == m || x in Listed(rest) {
      if x in Listed(rest) {
        var i :| 0 <= i < |rest| / 2 && rest[2 * i] == x;
        assert page[2 * (i + 1)] == x;
      }
      if x == m { assert page[2 * 0] == x; }
      if x in Listed(page) && x != m {
        var i :| 0 <= i < |page| / 2 && page[2 * i] == x;
        assert rest[2 * (i - 1)] == x;
      }
    }
  }

  /** Every index and pattern has a scan of one page. */
  lemma OnePageScan(z: ZSet, pattern: string) returns (pages: seq<Page>)
    ensures Scan(pages, z, pattern)
  {
    hide Match;
    var page := PageOfMembers(z, pattern, Matching(z, pattern));
    pages := [page];
    forall m ensures m in AllListed(pages) <==> m in Matching(z, pattern) {
      if m in Matching(z, pattern) { assert m in Listed(pages[0]); }
    }
  }

  /** Every index and pattern has a legal scan that starts with an empty page. */
  lemma ScanAfterEmpty(z: ZSet, pattern: string) returns (pages: seq<Page>)
    ensures Scan(pages, z, pattern) && pages[0] == []
  {
    hide Match;
    var page := PageOfMembers(z, pattern, Matching(z, pattern));
    pages := [[], page];
    forall m ensures m in AllListed(pages) <==> m in Matching(z, pattern) {
      if m in Matching(z, pattern) { assert m in Listed(pages[1]); }
    }
  }

  // ---------------------------------------------------------------- gathering a scan

  /** Everything a scan returns except the text "0", which the code takes for a score. */
  function NonZero(page: Page): seq<string> {
    if page == [] then []
    else NonZero(page[..|page| - 1]) + if page[|page| - 1] == "0" then [] else [page[|page| - 1]]
  }

  function Gathered(pages: seq<Page>): seq<string> {
    if pages == [] then [] else Gathered(pages[..|pages| - 1]) + NonZero(pages[|pages| - 1])
  }

  /** Gathers the pages of the scan. */
  method ScanAll(pages: seq<Page>) returns (getList: seq<string>)
    ensures getList == Gathered(pages)
  {
    getList := [];
    for p := 0 to |pages|
      invariant getList == Gathered(pages[..p])
    {
      var page := pages[p];
      ghost var before := getList;
      for j := 0 to |page|
        invariant getList == before + NonZero(page[..j])
      {
        assert page[..j + 1][..j] == page[..j];
        if page[j] != "0" {
          getList := getList + [page[j]];
        }
      }
      assert page[..|page|] == page;
      assert pages[..p + 1][..p] == pages[..p];
    }
    assert pages[..|pages|] == pages;
  }

  lemma {:induction false} NonZeroMembers(page: Page, x: string)
    ensures x in NonZero(page) <==> x != "0" && x in page
  {
    if page != [] {
      NonZeroMembers(page[..|page| - 1], x);
      assert page == page[..|page| - 1] + [page[|page| - 1]];
    }
  }

  lemma {:induction false} GatheredMembers(pages: seq<Page>, x: string)
    ensures x in Gathered(pages) <==> x != "0" && exists p :: 0 <= p < |pages| && x in pages[p]
  {
    if pages != [] {
      var n := |pages| - 1;
      GatheredMembers(pages[..n], x);
      NonZeroMembers(pages[n], x);
      assert forall p :: 0 <= p < n ==> pages[..n][p] == pages[p];
    }
  }
}
