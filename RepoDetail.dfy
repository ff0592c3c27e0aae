/**
 * scripts/fetch_organization/fetch_organization_repo_detail.py: the
 * organisation's repository list, and per repository the stargazers
 * bucketed by the month they starred it, with a running total.
 *
 * Each HTTP page is an entry of an input sequence (see `Paging`). A
 * stargazer is reduced to the month of its `starred_at` timestamp, or to
 * `None` when that timestamp does not parse (the clock format itself is not
 * modelled).
 */
module RepoDetail {
  import opened Wrappers
  import opened Strings
  import opened Collections
  import opened Paging
  import opened MonthWindow

  /** `page_size` of both page loops. */
  const PageSize: nat := 100

  /** `{'name': item['full_name'], 'star_count': item['stargazers_count']}` */
  datatype RepoItem = RepoItem(name: string, starCount: int)

  function StarCountOf(r: RepoItem): int
  {
    r.starCount
  }

  // ---------------------------------------------------------------------
  // get_github_repo_by_organization_name

  /** The repository list: every item of the pages read, most-starred first. */
  function RepoList(pages: seq<Page<RepoItem>>): seq<RepoItem>
  {
    SortDesc(WhileFull(pages, PageSize, 0), StarCountOf)
  }

  /** Reads pages while each is full, then sorts by star count, descending and stable. */
  method GetGithubRepoByOrganizationName(pages: seq<Page<RepoItem>>) returns (output: seq<RepoItem>)
    ensures output == RepoList(pages)
    ensures SortedDesc(output, StarCountOf)
    ensures multiset(output) == multiset(WhileFull(pages, PageSize, 0))
  {
    var collected: seq<RepoItem> := [];
    var needNextPage := true;
    var page := 0;
    while needNextPage
      invariant page <= |pages|
      invariant needNextPage ==> collected + WhileFull(pages, PageSize, page) == WhileFull(pages, PageSize, 0)
      invariant !needNextPage ==> collected == WhileFull(pages, PageSize, 0)
      decreases |pages| - page + (if needNextPage then 1 else 0)
    {
      if page >= |pages| || pages[page].Failed? {
        needNextPage := false;
      } else {
        var data := pages[page].items;
        assert collected + WhileFull(pages, PageSize, page)
            == (collected + data) + (if |data| == PageSize then WhileFull(pages, PageSize, page + 1) else []);
        collected := collected + data;
        needNextPage := |data| == PageSize;
        page := page + 1;
      }
    }
    output := SortDesc(collected, StarCountOf);
  }

  // ---------------------------------------------------------------------
  // get_github_star_count

  datatype YearMonth = YearMonth(year: int, month: nat)

  /** A stargazer: the month of its `starred_at`, or `None` when `strptime` raises. */
  type Stargazer = Option<YearMonth>

  /** Index of the first stargazer whose date does not parse, or `|items|`. */
  function FirstUnparsed(items: seq<Stargazer>): (n: nat)
    ensures n <= |items|
    ensures forall j :: 0 <= j < n ==> items[j].Some?
    ensures n < |items| ==> items[n].None?
    decreases |items|
  {
    if items == [] || items[0].None? then 0 else 1 + FirstUnparsed(items[1..])
  }

  lemma FirstUnparsedStep(items: seq<Stargazer>, k: nat)
    requires k < |items| && k <= FirstUnparsed(items)
    ensures items[k].None? ==> FirstUnparsed(items) == k
    ensures items[k].Some? ==> k + 1 <= FirstUnparsed(items)
  {
  }

  /**
   * The stargazers the loop processes from page `i` on. An unparseable date
   * raises inside the page's `for` loop: the items before it and that item
   * itself are counted, and paging stops.
   */
  function Processed(pages: seq<Page<Stargazer>>, i: nat): seq<Stargazer>
    decreases |pages| - i
  {
    if i >= |pages| || pages[i].Failed? then []
    else
      var items := pages[i].items;
      var n := FirstUnparsed(items);
      if n < |items| then items[..n + 1]
      else if |items| == PageSize then items + Processed(pages, i + 1)
      else items
  }

  /** The accumulators of the loop: the two monthly dictionaries and `total_stars`. */
  datatype StarTally = StarTally(monthlyStars: map<string, int>, monthlyTotalStars: map<string, int>, total: int)

  /** One loop iteration: count the star, then (if the date parses) bump its month and record the running total. */
  function CountStar(t: StarTally, s: Stargazer): StarTally
  {
    var total := t.total + 1;
    match s
    case None => t.(total := total)
    case Some(ym) =>
      var key := MonthKey(ym.year, ym.month);
      StarTally(Bump(t.monthlyStars, key), t.monthlyTotalStars[key := total], total)
  }

  /** The accumulators after processing `s` in order. */
  function Tally(s: seq<Stargazer>): (t: StarTally)
    ensures t.total == |s|
    ensures t.monthlyStars.Keys == t.monthlyTotalStars.Keys
    decreases |s|
  {
    if s == [] then StarTally(map[], map[], 0)
    else CountStar(Tally(s[..|s| - 1]), s[|s| - 1])
  }

  /** The dictionary `get_github_star_count` returns. */
  datatype RepoStars = RepoStars(repoName: string, monthlyStars: map<string, int>, monthlyTotalStars: map<string, int>, starCount: int)

  function StarsOf(d: RepoStars): int
  {
    d.starCount
  }

  /** The result for repository `repo` whose stargazer pages are `pages`. */
  function StarDetail(repo: string, pages: seq<Page<Stargazer>>): RepoStars
  {
    var t := Tally(Processed(pages, 0));
    RepoStars(repo, t.monthlyStars, t.monthlyTotalStars, t.total)
  }

  lemma TallySnoc(s: seq<Stargazer>, x: Stargazer)
    ensures Tally(s + [x]) == CountStar(Tally(s), x)
  {
    assert (s + [x])[..|s|] == s;
  }

  /** The accumulators after processing `s` in order, starting from `t`. */
  function TallyOnto(t: StarTally, s: seq<Stargazer>): StarTally
    decreases |s|
  {
    if s == [] then t else CountStar(TallyOnto(t, s[..|s| - 1]), s[|s| - 1])
  }

  lemma {:induction false} TallyOntoAppend(a: seq<Stargazer>, b: seq<Stargazer>)
    ensures TallyOnto(Tally(a), b) == Tally(a + b)
    decreases |b|
  {
    if b == [] {
      assert a + b == a;
    } else {
      TallyOntoAppend(a, b[..|b| - 1]);
      assert (a + b)[..|a + b| - 1] == a + b[..|b| - 1];
    }
  }

  /** One more item continues the tally from where the shorter prefix left it. */
  lemma TallyOntoStep(t: StarTally, data: seq<Stargazer>, k: nat)
    requires k < |data|
    ensures TallyOnto(t, data[..k + 1]) == CountStar(TallyOnto(t, data[..k]), data[k])
  {
    assert data[..k + 1][..k] == data[..k];
  }

  /** `monthly_stars[month_key] += 1`, or `= 1` for a month not yet seen. */
  method BumpMonth(monthlyStars: map<string, int>, monthKey: string) returns (r: map<string, int>)
    ensures r == Bump(monthlyStars, monthKey)
  {
    if monthKey in monthlyStars {
      r := monthlyStars[monthKey := monthlyStars[monthKey] + 1];
    } else {
      r := monthlyStars[monthKey := 1];
    }
  }

  /**
   * The body of the `for item in data` loop over one page, continuing the
   * accumulators of the pages before it; `failed` says that a date did not
   * parse, after `k` items counted.
   */
  method CountPage(start: StarTally, data: seq<Stargazer>)
    returns (monthlyStars: map<string, int>, monthlyTotalStars: map<string, int>, totalStars: int, k: nat, failed: bool)
    ensures k <= |data|
    ensures StarTally(monthlyStars, monthlyTotalStars, totalStars) == TallyOnto(start, data[..k])
    ensures failed ==> 1 <= k && k - 1 == FirstUnparsed(data)
    ensures !failed ==> k == |data| == FirstUnparsed(data)
  {
    monthlyStars, monthlyTotalStars, totalStars := start.monthlyStars, start.monthlyTotalStars, start.total;
    k := 0;
    failed := false;
    while k < |data|
      invariant k <= |data| && k <= FirstUnparsed(data)
      invariant StarTally(monthlyStars, monthlyTotalStars, totalStars) == TallyOnto(start, data[..k])
    {
      FirstUnparsedStep(data, k);
      TallyOntoStep(start, data, k);
      totalStars := totalStars + 1;
      if data[k].None? {
        k := k + 1;
        failed := true;
        return;
      }
      var ym := data[k].value;
      var monthKey := MonthKey(ym.year, ym.month);
      monthlyStars := BumpMonth(monthlyStars, monthKey);
      monthlyTotalStars := monthlyTotalStars[monthKey := totalStars];
      k := k + 1;
    }
  }

  /** What one page adds to the processed stream, given where `CountPage` stopped. */
  lemma ProcessedStep(pages: seq<Page<Stargazer>>, page: nat, k: nat, failed: bool)
    requires page < |pages| && pages[page].Fetched?
    requires k <= |pages[page].items|
    requires failed ==> 1 <= k && k - 1 == FirstUnparsed(pages[page].items)
    requires !failed ==> k == |pages[page].items| == FirstUnparsed(pages[page].items)
    ensures Processed(pages, page) == pages[page].items[..k]
      + (if !failed && |pages[page].items| == PageSize then Processed(pages, page + 1) else [])
  {
    assert !failed ==> pages[page].items[..k] == pages[page].items;
  }

  /** Walks the stargazer pages, updating the monthly dictionaries and the running total in place. */
  method GetGithubStarCount(repo: string, pages: seq<Page<Stargazer>>) returns (output: RepoStars)
    ensures output == StarDetail(repo, pages)
  {
    var monthlyStars: map<string, int> := map[];
    var monthlyTotalStars: map<string, int> := map[];
    var totalStars := 0;
    var needNextPage := true;
    var page := 0;
    ghost var seen: seq<Stargazer> := [];
    while needNextPage
      invariant page <= |pages|
      invariant StarTally(monthlyStars, monthlyTotalStars, totalStars) == Tally(seen)
      invariant needNextPage ==> seen + Processed(pages, page) == Processed(pages, 0)
      invariant !needNextPage ==> seen == Processed(pages, 0)
      decreases |pages| - page + (if needNextPage then 1 else 0)
    {
      if page >= |pages| || pages[page].Failed? {
        needNextPage := false;
      } else {
        var data := pages[page].items;
        var k, failed;
        monthlyStars, monthlyTotalStars, totalStars, k, failed :=
          CountPage(StarTally(monthlyStars, monthlyTotalStars, totalStars), data);
        TallyOntoAppend(seen, data[..k]);
        ProcessedStep(pages, page, k, failed);
        ghost var rest := if !failed && |data| == PageSize then Processed(pages, page + 1) else [];
        ConcatAssoc(seen, data[..k], rest);
        seen := seen + data[..k];
        if failed {
          needNextPage := false;
        } else {
          needNextPage := |data| == PageSize;
          page := page + 1;
        }
      }
    }
    output := RepoStars(repo, monthlyStars, monthlyTotalStars, totalStars);
  }

  // ---------------------------------------------------------------------
  // What the tally means

  /** The month key of a stargazer whose date parsed. */
  function KeyOf(s: Stargazer): Option<string>
  {
    match s
    case None => None
    case Some(ym) => Some(MonthKey(ym.year, ym.month))
  }

  /** How many stargazers in `s` starred in the month with key `key`. */
  function CountIn(s: seq<Stargazer>, key: string): nat
    decreases |s|
  {
    if s == [] then 0
    else CountIn(s[..|s| - 1], key) + (if KeyOf(s[|s| - 1]) == Some(key) then 1 else 0)
  }

  /** How many stargazers in `s` have a date that does not parse. */
  function Unparsed(s: seq<Stargazer>): nat
    decreases |s|
  {
    if s == [] then 0 else Unparsed(s[..|s| - 1]) + (if s[|s| - 1].None? then 1 else 0)
  }

  /** `monthly_stars[k]` is the number of stargazers of month `k`; months without one have no key. */
  lemma {:induction false} TallyMonthlyStars(s: seq<Stargazer>, key: string)
    ensures key in Tally(s).monthlyStars <==> CountIn(s, key) > 0
    ensures key in Tally(s).monthlyStars ==> Tally(s).monthlyStars[key] == CountIn(s, key)
    decreases |s|
  {
    if s != [] {
      TallyMonthlyStars(s[..|s| - 1], key);
    }
  }

  /** The monthly counts add up to the stars whose date parsed. */
  lemma {:induction false} TallyMonthlySum(s: seq<Stargazer>)
    ensures SumValues(Tally(s).monthlyStars) + Unparsed(s) == Tally(s).total
    decreases |s|
  {
    if s != [] {
      var prefix := s[..|s| - 1];
      TallyMonthlySum(prefix);
      match s[|s| - 1]
      case None =>
      case Some(ym) =>
        BumpSum(Tally(prefix).monthlyStars, MonthKey(ym.year, ym.month));
    }
  }

  /** Only the last processed stargazer can have an unparseable date: a parse error ends the walk. */
  lemma {:induction false} ProcessedUnparsedIsLast(pages: seq<Page<Stargazer>>, i: nat)
    ensures forall j :: 0 <= j < |Processed(pages, i)| - 1 ==> Processed(pages, i)[j].Some?
    decreases |pages| - i
  {
    if i < |pages| && pages[i].Fetched? {
      var items := pages[i].items;
      if FirstUnparsed(items) == |items| && |items| == PageSize {
        ProcessedUnparsedIsLast(pages, i + 1);
        var rest := Processed(pages, i + 1);
        if rest == [] {
          assert Processed(pages, i) == items;
        } else {
          assert Processed(pages, i) == items + rest;
          forall j | 0 <= j < |items + rest| - 1
            ensures (items + rest)[j].Some?
          {
            if j >= |items| {
              assert (items + rest)[j] == rest[j - |items|];
            }
          }
        }
      }
    }
  }

  lemma {:induction false} UnparsedAtMostLast(s: seq<Stargazer>)
    requires forall j :: 0 <= j < |s| - 1 ==> s[j].Some?
    ensures Unparsed(s) <= 1
    ensures Unparsed(s) == 1 <==> s != [] && s[|s| - 1].None?
  {
    if s != [] {
      var prefix := s[..|s| - 1];
      if Unparsed(prefix) != 0 {
        UnparsedZero(prefix);
      }
    }
  }

  lemma {:induction false} UnparsedZero(s: seq<Stargazer>)
    requires forall j :: 0 <= j < |s| ==> s[j].Some?
    ensures Unparsed(s) == 0
    decreases |s|
  {
    if s != [] {
      UnparsedZero(s[..|s| - 1]);
    }
  }

  /**
   * `star_count` is the number of stargazers processed, and the monthly
   * counts sum to it, short by one exactly when the walk ended on a date
   * that does not parse.
   */
  lemma StarCountIsProcessedCount(repo: string, pages: seq<Page<Stargazer>>)
    ensures StarDetail(repo, pages).starCount == |Processed(pages, 0)|
    ensures var s := Processed(pages, 0);
      SumValues(StarDetail(repo, pages).monthlyStars)
        == StarDetail(repo, pages).starCount - (if s != [] && s[|s| - 1].None? then 1 else 0)
  {
    var s := Processed(pages, 0);
    ProcessedUnparsedIsLast(pages, 0);
    UnparsedAtMostLast(s);
    TallyMonthlySum(s);
  }

  /** The month with key `key` does not occur after position `j` of `s`. */
  predicate LastOfMonth(s: seq<Stargazer>, key: string, j: int)
  {
    0 <= j < |s| && KeyOf(s[j]) == Some(key) &&
    forall j' :: j < j' < |s| ==> KeyOf(s[j']) != Some(key)
  }

  /** `monthly_total_stars[k]` is the running total right after the last stargazer of month `k`. */
  lemma {:induction false} TallyRunningTotal(s: seq<Stargazer>, key: string, j: int)
    requires LastOfMonth(s, key, j)
    ensures key in Tally(s).monthlyTotalStars
    ensures Tally(s).monthlyTotalStars[key] == j + 1
    decreases |s|
  {
    if j < |s| - 1 {
      var prefix := s[..|s| - 1];
      assert LastOfMonth(prefix, key, j);
      TallyRunningTotal(prefix, key, j);
    }
  }

  /** The month of the last stargazer maps to the full count. */
  lemma LastMonthHoldsTotal(s: seq<Stargazer>)
    requires s != [] && s[|s| - 1].Some?
    ensures Tally(s).monthlyTotalStars[KeyOf(s[|s| - 1]).value] == Tally(s).total
  {
    TallyRunningTotal(s, KeyOf(s[|s| - 1]).value, |s| - 1);
  }

  // ---------------------------------------------------------------------
  // fetch_organization_repo_detail

  /** `full_name.split('/')[1]`; `None` where that index raises. */
  function RepoNameOf(fullName: string): Option<string>
  {
    var parts := Split(fullName, "/");
    if |parts| >= 2 then Some(parts[1]) else None
  }

  /** The index exists exactly when the name holds a `/`. */
  lemma RepoNameOfDefined(fullName: string)
    ensures RepoNameOf(fullName).Some? <==> '/' in fullName
  {
    if '/' in fullName {
      var a := Before(fullName, '/');
      var t := fullName[|a| + 1..];
      assert fullName == a + ['/'] + t;
      SplitAtFirst(a, '/', t);
    } else {
      SplitNoSeparator(fullName, '/');
    }
  }

  /** For an `owner/repo` full name the extracted name is `repo`. */
  lemma RepoNameOfFullName(owner: string, repo: string)
    requires '/' !in owner && '/' !in repo
    ensures RepoNameOf(owner + "/" + repo) == Some(repo)
  {
    SplitAtFirst(owner, '/', repo);
    SplitNoSeparator(repo, '/');
  }

  /** Star details for the repositories in `repos`, in order, `.github` skipped; `None` when a name has no `/`. */
  function DetailsOf(repos: seq<RepoItem>, starPages: string -> seq<Page<Stargazer>>): Option<seq<RepoStars>>
    decreases |repos|
  {
    if repos == [] then Some([])
    else
      match DetailsOf(repos[..|repos| - 1], starPages)
      case None => None
      case Some(prev) =>
        match RepoNameOf(repos[|repos| - 1].name)
        case None => None
        case Some(name) =>
          if name == ".github" then Some(prev)
          else Some(prev + [StarDetail(name, starPages(name))])
  }

  /** The details exist exactly when every full name has a `/`. */
  lemma {:induction false} DetailsOfDefined(repos: seq<RepoItem>, starPages: string -> seq<Page<Stargazer>>)
    ensures DetailsOf(repos, starPages).Some? <==> forall i :: 0 <= i < |repos| ==> '/' in repos[i].name
    decreases |repos|
  {
    if repos != [] {
      var prefix := repos[..|repos| - 1];
      DetailsOfDefined(prefix, starPages);
      RepoNameOfDefined(repos[|repos| - 1].name);
      assert forall i :: 0 <= i < |prefix| ==> prefix[i] == repos[i];
    }
  }

  /** Every detail belongs to a listed repository other than `.github`, fetched under its short name. */
  lemma {:induction false} DetailsOfSkipsDotGithub(repos: seq<RepoItem>, starPages: string -> seq<Page<Stargazer>>)
    requires DetailsOf(repos, starPages).Some?
    ensures forall d :: d in DetailsOf(repos, starPages).value ==>
      d.repoName != ".github" && d == StarDetail(d.repoName, starPages(d.repoName)) &&
      exists i :: 0 <= i < |repos| && RepoNameOf(repos[i].name) == Some(d.repoName)
    ensures forall i :: 0 <= i < |repos| && RepoNameOf(repos[i].name).Some? && RepoNameOf(repos[i].name).value != ".github" ==>
      exists d :: d in DetailsOf(repos, starPages).value && d.repoName == RepoNameOf(repos[i].name).value
    decreases |repos|
  {
    if repos != [] {
      var prefix := repos[..|repos| - 1];
      DetailsOfSkipsDotGithub(prefix, starPages);
      assert forall i :: 0 <= i < |prefix| ==> prefix[i] == repos[i];
    }
  }

  datatype OrgRepoDetail = OrgRepoDetail(repoList: seq<RepoItem>, repoDetailList: seq<RepoStars>)

  /** The whole result: the list, and the details sorted by star count; an exception where a full name has no `/`. */
  function OrgRepoDetailOf(orgPages: seq<Page<RepoItem>>, starPages: string -> seq<Page<Stargazer>>): Result<OrgRepoDetail>
  {
    var repoList := RepoList(orgPages);
    match DetailsOf(repoList, starPages)
    case None => Failure("IndexError: list index out of range")
    case Some(details) => Success(OrgRepoDetail(repoList, SortDesc(details, StarsOf)))
  }

  /**
   * The list of repositories, one star detail per repository except
   * `.github`, and the details sorted by star count, descending.
   */
  method FetchOrganizationRepoDetail(orgPages: seq<Page<RepoItem>>, starPages: string -> seq<Page<Stargazer>>)
    returns (r: Result<OrgRepoDetail>)
    ensures r == OrgRepoDetailOf(orgPages, starPages)
    ensures r.Success? <==> forall i :: 0 <= i < |RepoList(orgPages)| ==> '/' in RepoList(orgPages)[i].name
    ensures r.Success? ==> SortedDesc(r.value.repoDetailList, StarsOf)
  {
    var repoList := GetGithubRepoByOrganizationName(orgPages);
    var details: seq<RepoStars> := [];
    var i := 0;
    while i < |repoList|
      invariant 0 <= i <= |repoList|
      invariant DetailsOf(repoList[..i], starPages) == Some(details)
    {
      DetailsOfStep(repoList, i, starPages, details);
      var repoName := RepoNameOf(repoList[i].name);
      if repoName.None? {
        DetailsOfPrefixFails(repoList, i + 1, starPages);
        DetailsOfDefined(repoList, starPages);
        return Failure("IndexError: list index out of range");
      }
      if repoName.value != ".github" {
        var output := GetGithubStarCount(repoName.value, starPages(repoName.value));
        details := details + [output];
      }
      i := i + 1;
    }
    assert repoList[..i] == repoList;
    DetailsOfDefined(repoList, starPages);
    r := Success(OrgRepoDetail(repoList, SortDesc(details, StarsOf)));
  }

  /** What one more listed repository adds to the details. */
  lemma DetailsOfStep(repos: seq<RepoItem>, i: nat, starPages: string -> seq<Page<Stargazer>>, details: seq<RepoStars>)
    requires i < |repos| && DetailsOf(repos[..i], starPages) == Some(details)
    ensures DetailsOf(repos[..i + 1], starPages) ==
      match RepoNameOf(repos[i].name)
      case None => None
      case Some(name) => if name == ".github" then Some(details) else Some(details + [StarDetail(name, starPages(name))])
  {
    assert repos[..i + 1][..i] == repos[..i];
  }

  /** Once a prefix has no details, neither has the whole list. */
  lemma {:induction false} DetailsOfPrefixFails(repos: seq<RepoItem>, n: nat, starPages: string -> seq<Page<Stargazer>>)
    requires n <= |repos|
    requires DetailsOf(repos[..n], starPages).None?
    ensures DetailsOf(repos, starPages).None?
    decreases |repos| - n
  {
    if n < |repos| {
      assert repos[..n + 1][..n] == repos[..n];
      DetailsOfPrefixFails(repos, n + 1, starPages);
    } else {
      assert repos[..n] == repos;
    }
  }
}
