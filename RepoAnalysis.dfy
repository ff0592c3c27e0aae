/**
 * scripts/fetch_organization/analyze_repo.py: the repository reports built
 * from two snapshots of the repository list and the stored star details.
 *
 * The JSON files become parameters: the two lists, and a map from file name
 * (without `.json`) to the stored detail; a file missing from the map is
 * the `FileNotFoundError` that ends the report. The clock read inside
 * `get_object_by_month_key` becomes `year`/`month`.
 */
module RepoAnalysis {
  import opened Wrappers
  import opened Strings
  import opened Collections
  import opened MonthWindow
  import opened RepoDetail

  /** A stored detail file; either dictionary may be missing (`repo_data.get(key, {})`). */
  datatype StoredDetail = StoredDetail(monthlyStars: Option<map<string, int>>, monthlyTotalStars: Option<map<string, int>>)

  /** The entry `join_repo_detail_by_name` appends. */
  datatype JoinedRepo = JoinedRepo(name: string, starCount: int, monthlyStars: MonthSeries, monthlyTotalStars: MonthSeries)

  /** The prefix removed from full names to find the detail file. */
  const OrgPrefix: string := "datawhalechina/"

  /** `item['name'].replace('datawhalechina/', '')` */
  function FileName(name: string): string
  {
    ReplaceAll(name, OrgPrefix, "")
  }

  /** The file name of `datawhalechina/<repo>` is `<repo>`. */
  lemma FileNameOfFullName(repo: string)
    requires !Contains(repo, OrgPrefix)
    ensures FileName(OrgPrefix + repo) == repo
  {
    assert (OrgPrefix + repo)[|OrgPrefix|..] == repo;
    ReplaceAllAbsent(repo, OrgPrefix, "");
  }

  /** A name without the prefix is its own file name. */
  lemma FileNameUnprefixed(name: string)
    requires !Contains(name, OrgPrefix)
    ensures FileName(name) == name
  {
    ReplaceAllAbsent(name, OrgPrefix, "");
  }

  function OrEmpty(m: Option<map<string, int>>): map<string, int>
  {
    if m.Some? then m.value else map[]
  }

  /** One joined entry: the file name, the star count, and both dictionaries windowed to `monthCount` months. */
  function JoinEntry(item: RepoItem, d: StoredDetail, monthCount: int, year: int, month: int): JoinedRepo
  {
    JoinedRepo(FileName(item.name), item.starCount,
               Window(OrEmpty(d.monthlyStars), monthCount, year, month),
               Window(OrEmpty(d.monthlyTotalStars), monthCount, year, month))
  }

  /** The join as a value: one entry per item, in order, or the error of the first missing file. */
  function Join(items: seq<RepoItem>, store: map<string, StoredDetail>, monthCount: int, year: int, month: int)
    : Result<seq<JoinedRepo>>
    decreases |items|
  {
    if items == [] then Success([])
    else
      match Join(items[..|items| - 1], store, monthCount, year, month)
      case Failure(e) => Failure(e)
      case Success(prev) =>
        var item := items[|items| - 1];
        var f := FileName(item.name);
        if f !in store then Failure("FileNotFoundError: " + f + ".json")
        else Success(prev + [JoinEntry(item, store[f], monthCount, year, month)])
  }

  lemma {:induction false} JoinPrefixFails(items: seq<RepoItem>, n: nat, store: map<string, StoredDetail>,
                                           monthCount: int, year: int, month: int)
    requires n <= |items|
    requires Join(items[..n], store, monthCount, year, month).Failure?
    ensures Join(items, store, monthCount, year, month) == Join(items[..n], store, monthCount, year, month)
    decreases |items| - n
  {
    if n < |items| {
      assert items[..n + 1][..n] == items[..n];
      JoinPrefixFails(items, n + 1, store, monthCount, year, month);
    } else {
      assert items[..n] == items;
    }
  }

  /** Reads each item's detail file and appends the windowed entry. */
  method JoinRepoDetailByName(repoList: seq<RepoItem>, store: map<string, StoredDetail>,
                              monthCount: int, year: int, month: int)
    returns (r: Result<seq<JoinedRepo>>)
    requires 1 <= month <= 12
    ensures r == Join(repoList, store, monthCount, year, month)
  {
    var result: seq<JoinedRepo> := [];
    for i := 0 to |repoList|
      invariant Join(repoList[..i], store, monthCount, year, month) == Success(result)
    {
      assert repoList[..i + 1][..i] == repoList[..i];
      var item := repoList[i];
      var filename := FileName(item.name);
      if filename !in store {
        assert repoList[..i + 1][i] == item;
        JoinPrefixFails(repoList, i + 1, store, monthCount, year, month);
        return Failure("FileNotFoundError: " + filename + ".json");
      }
      var repoData := store[filename];
      var monthlyStars := OrEmpty(repoData.monthlyStars);
      var monthlyTotalStars := OrEmpty(repoData.monthlyTotalStars);
      var starsWindow := GetObjectByMonthKey(monthlyStars, monthCount, year, month);
      var totalsWindow := GetObjectByMonthKey(monthlyTotalStars, monthCount, year, month);
      result := result + [JoinedRepo(filename, item.starCount, starsWindow, totalsWindow)];
    }
    assert repoList[..|repoList|] == repoList;
    r := Success(result);
  }

  /**
   * The join succeeds exactly when every item has a detail file, and then
   * returns one entry per item, in order, carrying the item's star count and
   * its file's dictionaries windowed to `monthCount` months.
   */
  lemma {:induction false} JoinMeaning(items: seq<RepoItem>, store: map<string, StoredDetail>,
                                       monthCount: int, year: int, month: int)
    ensures Join(items, store, monthCount, year, month).Success? <==>
      forall i :: 0 <= i < |items| ==> FileName(items[i].name) in store
    ensures Join(items, store, monthCount, year, month).Success? ==>
      |Join(items, store, monthCount, year, month).value| == |items| &&
      forall i :: 0 <= i < |items| ==>
        Join(items, store, monthCount, year, month).value[i]
          == JoinEntry(items[i], store[FileName(items[i].name)], monthCount, year, month)
    decreases |items|
  {
    if items != [] {
      var prefix := items[..|items| - 1];
      JoinMeaning(prefix, store, monthCount, year, month);
      assert forall i :: 0 <= i < |prefix| ==> prefix[i] == items[i];
    }
  }

  // ---------------------------------------------------------------------
  // get_repo_star_more_than_1000

  predicate AtLeast1000(item: RepoItem)
  {
    item.starCount >= 1000
  }

  /** Filters the list to repositories with at least 1000 stars and joins them with a 12-month window. */
  method GetRepoStarMoreThan1000(repoList: seq<RepoItem>, store: map<string, StoredDetail>, year: int, month: int)
    returns (r: Result<seq<JoinedRepo>>)
    requires 1 <= month <= 12
    ensures r == Join(Filter(repoList, AtLeast1000), store, 12, year, month)
  {
    var moreThan1000RepoList := Filter(repoList, AtLeast1000);
    r := JoinRepoDetailByName(moreThan1000RepoList, store, 12, year, month);
  }

  /** The filter drops exactly the items below 1000 stars and keeps the order of the rest. */
  lemma MoreThan1000Filter(a: seq<RepoItem>, b: seq<RepoItem>)
    ensures forall x :: x in Filter(a, AtLeast1000) <==> x in a && x.starCount >= 1000
    ensures Filter(a + b, AtLeast1000) == Filter(a, AtLeast1000) + Filter(b, AtLeast1000)
  {
    FilterAppend(a, b, AtLeast1000);
    forall x | x in a && x.starCount >= 1000
      ensures x in Filter(a, AtLeast1000)
    {
      var i :| 0 <= i < |a| && a[i] == x;
    }
  }

  // ---------------------------------------------------------------------
  // Star differences between the two snapshots

  /** `{**item, 'starAdd': ...}` */
  datatype RepoDiff = RepoDiff(item: RepoItem, starAdd: int)

  function StarAddKey(d: RepoDiff): int
  {
    d.starAdd
  }

  /** The star count of the first previous entry with the same name, or 0. */
  function PreviousStars(previous: seq<RepoItem>, name: string): int
  {
    match FirstWhere(previous, (p: RepoItem) => p.name == name)
    case None => 0
    case Some(p) => p.starCount
  }

  /** `item['star_count'] - (previous_item['star_count'] if previous_item else 0)` */
  function StarAdd(previous: seq<RepoItem>, item: RepoItem): int
  {
    item.starCount - PreviousStars(previous, item.name)
  }

  /** The differences of the given items, in order. */
  function WithStarAdd(previous: seq<RepoItem>, items: seq<RepoItem>): (r: seq<RepoDiff>)
    ensures |r| == |items|
  {
    seq(|items|, i requires 0 <= i < |items| => RepoDiff(items[i], StarAdd(previous, items[i])))
  }

  /** The items of a list of differences (what the join reads from them). */
  function Items(d: seq<RepoDiff>): (r: seq<RepoItem>)
    ensures |r| == |d|
  {
    seq(|d|, i requires 0 <= i < |d| => d[i].item)
  }

  /** Appending an item appends its difference. */
  lemma WithStarAddSnoc(previous: seq<RepoItem>, items: seq<RepoItem>, item: RepoItem)
    ensures WithStarAdd(previous, items + [item]) == WithStarAdd(previous, items) + [RepoDiff(item, StarAdd(previous, item))]
  {
    var l := WithStarAdd(previous, items + [item]);
    var r := WithStarAdd(previous, items) + [RepoDiff(item, StarAdd(previous, item))];
    assert forall k :: 0 <= k < |items| ==> (items + [item])[k] == items[k];
    assert |l| == |r|;
    forall k | 0 <= k < |l|
      ensures l[k] == r[k]
    {
    }
  }

  /** The `for item in current_repo_list` loop: a difference for every item that `keep` accepts. */
  method DiffStarAdd(previous: seq<RepoItem>, current: seq<RepoItem>, keep: RepoItem -> bool)
    returns (diffInfo: seq<RepoDiff>)
    ensures diffInfo == WithStarAdd(previous, Filter(current, keep))
  {
    diffInfo := [];
    for i := 0 to |current|
      invariant diffInfo == WithStarAdd(previous, Filter(current[..i], keep))
    {
      assert current[..i + 1][..i] == current[..i];
      var item := current[i];
      if keep(item) {
        var previousItem := FirstWhere(previous, (p: RepoItem) => p.name == item.name);
        var starAdd := item.starCount - (if previousItem.Some? then previousItem.value.starCount else 0);
        assert Filter(current[..i + 1], keep) == Filter(current[..i], keep) + [item];
        WithStarAddSnoc(previous, Filter(current[..i], keep), item);
        diffInfo := diffInfo + [RepoDiff(item, starAdd)];
      } else {
        assert Filter(current[..i + 1], keep) == Filter(current[..i], keep);
      }
    }
    assert current[..|current|] == current;
  }

  /** Each difference is taken against the first previous entry of the same name, or against 0. */
  lemma StarAddMeaning(previous: seq<RepoItem>, item: RepoItem)
    ensures (forall j :: 0 <= j < |previous| ==> previous[j].name != item.name) ==>
      StarAdd(previous, item) == item.starCount
    ensures forall j :: (0 <= j < |previous| && previous[j].name == item.name &&
                         forall j' :: 0 <= j' < j ==> previous[j'].name != item.name) ==>
      StarAdd(previous, item) == item.starCount - previous[j].starCount
  {
    var p := (q: RepoItem) => q.name == item.name;
    var r := FirstWhere(previous, p);
    if r.Some? {
      var k :| 0 <= k < |previous| && previous[k] == r.value && p(previous[k]) &&
               forall j :: 0 <= j < k ==> !p(previous[j]);
      forall j | 0 <= j < |previous| && previous[j].name == item.name &&
                 (forall j' :: 0 <= j' < j ==> previous[j'].name != item.name)
        ensures j == k
      {
      }
    }
  }

  // ---------------------------------------------------------------------
  // get_repo_add_star_more_than_1000

  /** The differences of the repositories with at least 1000 stars, largest increase first. */
  function AddStarMoreThan1000List(previous: seq<RepoItem>, current: seq<RepoItem>): seq<RepoDiff>
  {
    SortDesc(WithStarAdd(previous, Filter(current, AtLeast1000)), StarAddKey)
  }

  method GetRepoAddStarMoreThan1000(previous: seq<RepoItem>, current: seq<RepoItem>,
                                    store: map<string, StoredDetail>, year: int, month: int)
    returns (r: Result<seq<JoinedRepo>>)
    requires 1 <= month <= 12
    ensures r == Join(Items(AddStarMoreThan1000List(previous, current)), store, 12, year, month)
  {
    var diffInfo := DiffStarAdd(previous, current, AtLeast1000);
    var sorted := SortDesc(diffInfo, StarAddKey);
    r := JoinRepoDetailByName(Items(sorted), store, 12, year, month);
  }

  /**
   * The list holds a difference for exactly the current repositories with
   * at least 1000 stars, in non-increasing order of `starAdd`.
   */
  lemma AddStarMoreThan1000Meaning(previous: seq<RepoItem>, current: seq<RepoItem>)
    ensures SortedDesc(AddStarMoreThan1000List(previous, current), StarAddKey)
    ensures forall d :: d in AddStarMoreThan1000List(previous, current) <==>
      d.item in current && d.item.starCount >= 1000 && d.starAdd == StarAdd(previous, d.item)
  {
    var f := Filter(current, AtLeast1000);
    var w := WithStarAdd(previous, f);
    var s := AddStarMoreThan1000List(previous, current);
    assert forall d :: d in s <==> d in multiset(s);
    assert forall d :: d in w <==> d in multiset(w);
    forall d: RepoDiff | d.item in current && d.item.starCount >= 1000 && d.starAdd == StarAdd(previous, d.item)
      ensures d in w
    {
      var i :| 0 <= i < |current| && current[i] == d.item;
      var k :| 0 <= k < |f| && f[k] == d.item;
      assert w[k] == d;
    }
  }

  // ---------------------------------------------------------------------
  // get_add_star_top5_repo

  function KeepAll(item: RepoItem): bool
  {
    true
  }

  /** The five largest increases (fewer when there are fewer repositories). */
  function Top5List(previous: seq<RepoItem>, current: seq<RepoItem>): seq<RepoDiff>
  {
    Take(SortDesc(WithStarAdd(previous, current), StarAddKey), 5)
  }

  method GetAddStarTop5Repo(previous: seq<RepoItem>, current: seq<RepoItem>,
                            store: map<string, StoredDetail>, year: int, month: int)
    returns (r: Result<seq<JoinedRepo>>)
    requires 1 <= month <= 12
    ensures r == Join(Items(Top5List(previous, current)), store, 12, year, month)
  {
    var diffInfo := DiffStarAdd(previous, current, KeepAll);
    FilterAll(current, KeepAll);
    var sorted := SortDesc(diffInfo, StarAddKey);
    var top5Repo := Take(sorted, 5);
    r := JoinRepoDetailByName(Items(top5Repo), store, 12, year, month);
  }

  /**
   * The top list has `min(5, |current|)` entries in non-increasing order of
   * `starAdd`, and no repository left out gained more stars than one kept;
   * equal increases keep their order in `current`.
   */
  lemma Top5Meaning(previous: seq<RepoItem>, current: seq<RepoItem>, k: int)
    ensures |Top5List(previous, current)| == if |current| < 5 then |current| else 5
    ensures SortedDesc(Top5List(previous, current), StarAddKey)
    ensures var sorted := SortDesc(WithStarAdd(previous, current), StarAddKey);
      forall i, j :: 0 <= i < |Top5List(previous, current)| <= j < |sorted| ==>
        sorted[i].starAdd >= sorted[j].starAdd
    ensures WithKey(SortDesc(WithStarAdd(previous, current), StarAddKey), StarAddKey, k)
         == WithKey(WithStarAdd(previous, current), StarAddKey, k)
  {
    SortDescStable(WithStarAdd(previous, current), StarAddKey, k);
  }

  // ---------------------------------------------------------------------
  // get_add_star_top3_new_repo

  /** Names of the previous repositories with more than 10 stars. */
  function EstablishedNames(previous: seq<RepoItem>): (r: seq<string>)
  {
    var established := Filter(previous, (p: RepoItem) => p.starCount > 10);
    seq(|established|, i requires 0 <= i < |established| => established[i].name)
  }

  /** The new repositories, most-starred first. */
  function NewRepoList(previous: seq<RepoItem>, current: seq<RepoItem>): seq<RepoItem>
  {
    var names := EstablishedNames(previous);
    SortDesc(Filter(current, (c: RepoItem) => c.name !in names), StarCountOf)
  }

  /** Joins every new repository with a 4-month window, then keeps the first three. */
  method GetAddStarTop3NewRepo(previous: seq<RepoItem>, current: seq<RepoItem>,
                               store: map<string, StoredDetail>, year: int, month: int)
    returns (r: Result<seq<JoinedRepo>>)
    requires 1 <= month <= 12
    ensures Join(NewRepoList(previous, current), store, 4, year, month).Failure? ==> r.Failure?
    ensures Join(NewRepoList(previous, current), store, 4, year, month).Success? ==>
      r == Success(Take(Join(NewRepoList(previous, current), store, 4, year, month).value, 3))
  {
    var previousRepoNames := EstablishedNames(previous);
    var newRepoList := Filter(current, (c: RepoItem) => c.name !in previousRepoNames);
    newRepoList := SortDesc(newRepoList, StarCountOf);
    var detailRepoList := JoinRepoDetailByName(newRepoList, store, 4, year, month);
    if detailRepoList.Failure? {
      return Failure(detailRepoList.error);
    }
    r := Success(Take(detailRepoList.value, 3));
  }

  /** A name is established exactly when some previous repository with more than 10 stars has it. */
  lemma EstablishedNamesMeaning(previous: seq<RepoItem>, name: string)
    ensures name in EstablishedNames(previous) <==>
      exists j :: 0 <= j < |previous| && previous[j].name == name && previous[j].starCount > 10
  {
    var established := Filter(previous, (p: RepoItem) => p.starCount > 10);
    var names := EstablishedNames(previous);
    if name in names {
      var i :| 0 <= i < |names| && names[i] == name;
      assert established[i] in previous;
    }
    if exists j :: 0 <= j < |previous| && previous[j].name == name && previous[j].starCount > 10 {
      var j :| 0 <= j < |previous| && previous[j].name == name && previous[j].starCount > 10;
      var i :| 0 <= i < |established| && established[i] == previous[j];
      assert names[i] == name;
    }
  }

  /**
   * A current repository is new exactly when no previous repository with
   * more than 10 stars has its name; the new list is ordered by stars.
   */
  lemma NewRepoMeaning(previous: seq<RepoItem>, current: seq<RepoItem>, c: RepoItem)
    ensures SortedDesc(NewRepoList(previous, current), StarCountOf)
    ensures c in NewRepoList(previous, current) <==>
      c in current && !(exists j :: 0 <= j < |previous| && previous[j].name == c.name && previous[j].starCount > 10)
  {
    var names := EstablishedNames(previous);
    var keep := (x: RepoItem) => x.name !in names;
    var f := Filter(current, keep);
    var s := NewRepoList(previous, current);
    assert c in s <==> c in multiset(s);
    assert c in f <==> c in multiset(f);
    EstablishedNamesMeaning(previous, c.name);
    if c in current && c.name !in names {
      var i :| 0 <= i < |current| && current[i] == c;
      assert keep(current[i]);
    }
  }

  /** Taking the first `n` joined entries joins the first `n` items. */
  lemma JoinThenTake(items: seq<RepoItem>, store: map<string, StoredDetail>, monthCount: int, year: int, month: int, n: nat)
    requires Join(items, store, monthCount, year, month).Success?
    ensures var top := Take(Join(items, store, monthCount, year, month).value, n);
      |top| == (if |items| < n then |items| else n) &&
      forall i :: 0 <= i < |top| ==>
        FileName(items[i].name) in store &&
        top[i] == JoinEntry(items[i], store[FileName(items[i].name)], monthCount, year, month)
  {
    var joined := Join(items, store, monthCount, year, month).value;
    JoinMeaning(items, store, monthCount, year, month);
    var top := Take(joined, n);
    assert forall i :: 0 <= i < |top| ==> top[i] == joined[i];
  }

  /** At most three new repositories are reported, each joined with a 4-month window. */
  lemma Top3NewMeaning(previous: seq<RepoItem>, current: seq<RepoItem>, store: map<string, StoredDetail>, year: int, month: int)
    requires Join(NewRepoList(previous, current), store, 4, year, month).Success?
    ensures var top := Take(Join(NewRepoList(previous, current), store, 4, year, month).value, 3);
      var newList := NewRepoList(previous, current);
      |top| == (if |newList| < 3 then |newList| else 3) &&
      forall i :: 0 <= i < |top| ==>
        FileName(newList[i].name) in store &&
        top[i] == JoinEntry(newList[i], store[FileName(newList[i].name)], 4, year, month)
  {
    JoinThenTake(NewRepoList(previous, current), store, 4, year, month, 3);
  }
}
