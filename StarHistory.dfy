/**
 * scripts/fetch_organization/fetch_organization_from_star_history.py: the
 * organisation ranking scraped page by page, sorted by stars, ranked, and
 * narrowed to a list of organisation names.
 *
 * The HTML scrape of one page becomes `scrape(i)`: the entries read from
 * page `i`, or `Failed` when anything on that page raised.
 */
module StarHistory {
  import opened Collections
  import opened Paging

  /** `{'name': ..., 'star_count': ...}` as scraped. */
  datatype ScrapedOrg = ScrapedOrg(name: string, starCount: int)

  /** The same entry after `item['rank'] = index + 1`. */
  datatype RankedOrg = RankedOrg(name: string, starCount: int, rank: int)

  function ScrapedStars(o: ScrapedOrg): int
  {
    o.starCount
  }

  /** Entries of pages `1..n` in page order; a failed page contributes nothing. */
  function AllPages(scrape: int -> Page<ScrapedOrg>, n: int): seq<ScrapedOrg>
    decreases if n < 0 then 0 else n
  {
    if n <= 0 then [] else AllPages(scrape, n - 1) + ItemsOf(scrape(n))
  }

  /** When every page fails, the list is empty. */
  lemma {:induction false} AllPagesFailed(scrape: int -> Page<ScrapedOrg>, n: int)
    requires forall i :: 1 <= i <= n ==> scrape(i).Failed?
    ensures AllPages(scrape, n) == []
    decreases if n < 0 then 0 else n
  {
    if n > 0 {
      AllPagesFailed(scrape, n - 1);
    }
  }

  /** A failed page can be dropped: the list is the same as if it had returned nothing. */
  lemma {:induction false} AllPagesFailedPage(scrape: int -> Page<ScrapedOrg>, n: int, k: int)
    requires 1 <= k <= n && scrape(k).Failed?
    ensures AllPages(scrape, n) == AllPages(i => if i == k then Fetched([]) else scrape(i), n)
    decreases n
  {
    if n > k {
      AllPagesFailedPage(scrape, n - 1, k);
    } else {
      AllPagesSame(scrape, i => if i == k then Fetched([]) else scrape(i), n - 1);
    }
  }

  lemma {:induction false} AllPagesSame(a: int -> Page<ScrapedOrg>, b: int -> Page<ScrapedOrg>, n: int)
    requires forall i :: 1 <= i <= n ==> a(i) == b(i)
    ensures AllPages(a, n) == AllPages(b, n)
    decreases if n < 0 then 0 else n
  {
    if n > 0 {
      AllPagesSame(a, b, n - 1);
    }
  }

  /** Numbers the entries of a sorted list in place: `rank = index + 1`. */
  method AssignRanks(sorted: seq<ScrapedOrg>) returns (ranked: seq<RankedOrg>)
    ensures |ranked| == |sorted|
    ensures forall i :: 0 <= i < |sorted| ==>
      ranked[i] == RankedOrg(sorted[i].name, sorted[i].starCount, i + 1)
  {
    ranked := [];
    for index := 0 to |sorted|
      invariant |ranked| == index
      invariant forall i :: 0 <= i < index ==>
        ranked[i] == RankedOrg(sorted[i].name, sorted[i].starCount, i + 1)
    {
      ranked := ranked + [RankedOrg(sorted[index].name, sorted[index].starCount, index + 1)];
    }
  }

  /** The ranking as a value. */
  function Ranked(sorted: seq<ScrapedOrg>): seq<RankedOrg>
  {
    seq(|sorted|, i requires 0 <= i < |sorted| => RankedOrg(sorted[i].name, sorted[i].starCount, i + 1))
  }

  function RankedStars(o: RankedOrg): int
  {
    o.starCount
  }

  /** The knowledge-sharing comprehension: entries whose name is in `names`, in rank order. */
  function InNameList(ranked: seq<RankedOrg>, names: seq<string>): (r: seq<RankedOrg>)
  {
    Filter(ranked, (o: RankedOrg) => o.name in names)
  }

  datatype StarHistoryResult = StarHistoryResult(organizationList: seq<RankedOrg>, topKnowledgeSharing: seq<RankedOrg>)

  /** `organization_list.extend(get_organization_list(i))` for `i` in `1..pageCount`. */
  method CollectPages(pageCount: int, scrape: int -> Page<ScrapedOrg>) returns (organizationList: seq<ScrapedOrg>)
    ensures organizationList == AllPages(scrape, pageCount)
  {
    organizationList := [];
    var i := 1;
    while i < pageCount + 1
      invariant 1 <= i && (pageCount >= 0 ==> i <= pageCount + 1) && (pageCount < 0 ==> i == 1)
      invariant organizationList == AllPages(scrape, i - 1)
    {
      organizationList := organizationList + ItemsOf(scrape(i));
      i := i + 1;
    }
  }

  /** Scrapes pages `1..pageCount`, sorts by stars (stable, descending), ranks, and filters by name. */
  method FetchOrganizationFromStarHistory(pageCount: int, scrape: int -> Page<ScrapedOrg>, names: seq<string>)
    returns (r: StarHistoryResult)
    ensures r.organizationList == Ranked(SortDesc(AllPages(scrape, pageCount), ScrapedStars))
    ensures r.topKnowledgeSharing == InNameList(r.organizationList, names)
  {
    var organizationList := CollectPages(pageCount, scrape);
    var sorted := SortDesc(organizationList, ScrapedStars);
    var ranked := AssignRanks(sorted);
    assert ranked == Ranked(sorted);
    r := StarHistoryResult(ranked, InNameList(ranked, names));
  }

  // ---------------------------------------------------------------------
  // What the ranking promises

  /** Ranks run `1..n` down a list whose star counts never increase. */
  lemma RankedIsRanking(sorted: seq<ScrapedOrg>)
    requires SortedDesc(sorted, ScrapedStars)
    ensures SortedDesc(Ranked(sorted), RankedStars)
    ensures forall i :: 0 <= i < |Ranked(sorted)| ==> Ranked(sorted)[i].rank == i + 1
  {
  }

  /**
   * The organisation list holds every scraped entry exactly as often as it
   * was scraped, in non-increasing star order, ranked `1..n`; entries with
   * equal stars keep their scrape order.
   */
  lemma OrganizationListIsRanking(scrape: int -> Page<ScrapedOrg>, pageCount: int, k: int)
    ensures var sorted := SortDesc(AllPages(scrape, pageCount), ScrapedStars);
      SortedDesc(Ranked(sorted), RankedStars) &&
      multiset(sorted) == multiset(AllPages(scrape, pageCount)) &&
      WithKey(sorted, ScrapedStars, k) == WithKey(AllPages(scrape, pageCount), ScrapedStars, k)
  {
    SortDescStable(AllPages(scrape, pageCount), ScrapedStars, k);
  }

  /**
   * The filtered list holds exactly the ranked entries whose name is listed,
   * with their global rank, in increasing rank order.
   */
  lemma {:induction false} InNameListKeepsRanks(sorted: seq<ScrapedOrg>, names: seq<string>)
    ensures forall o :: o in InNameList(Ranked(sorted), names) <==> o in Ranked(sorted) && o.name in names
    ensures forall i, j :: 0 <= i < j < |InNameList(Ranked(sorted), names)| ==>
      InNameList(Ranked(sorted), names)[i].rank < InNameList(Ranked(sorted), names)[j].rank
  {
    var ranked := Ranked(sorted);
    var f := InNameList(ranked, names);
    forall o | o in ranked && o.name in names
      ensures o in f
    {
      var i :| 0 <= i < |ranked| && ranked[i] == o;
    }
    RanksIncrease(ranked, (o: RankedOrg) => o.name in names);
  }

  /** Ranks strictly increase along the list. */
  predicate RanksAscending(s: seq<RankedOrg>)
  {
    forall i, j :: 0 <= i < j < |s| ==> s[i].rank < s[j].rank
  }

  lemma {:induction false} RanksIncrease(s: seq<RankedOrg>, p: RankedOrg -> bool)
    requires RanksAscending(s)
    ensures RanksAscending(Filter(s, p))
    decreases |s|
  {
    if s != [] {
      var prefix := s[..|s| - 1];
      RanksIncrease(prefix, p);
      var f := Filter(prefix, p);
      forall i | 0 <= i < |f|
        ensures f[i].rank < s[|s| - 1].rank
      {
        var j :| 0 <= j < |prefix| && prefix[j] == f[i];
      }
    }
  }
}
