/**
 * scripts/fetch-members.py, first half of the member pipeline: listing the
 * organisation's original repositories (`get_org_repos`), the qualifying
 * contributors of one repository (`get_repo_contributors`), the per-user
 * accumulation across repositories (`collect_contributors_from_repos`) and
 * the profile counters (`calculate_user_stats`).
 *
 * Every HTTP page is an entry of an input sequence (see `Paging`); the pages
 * of each repository's contributor list are looked up by repository name.
 * The `MIN_CONTRIBUTIONS` environment override becomes a parameter.
 */
module MemberRepos {
  import opened Wrappers
  import opened Collections
  import opened Paging

  /** `CONFIG['MAX_REPOS_PER_PAGE']` and the 20-page safety limit of `get_org_repos`. */
  const ReposPerPage: nat := 100
  const MaxRepoPages: nat := 20

  /** `per_page` and the 10-page safety limit of `get_repo_contributors`. */
  const ContributorsPerPage: nat := 100
  const MaxContributorPages: nat := 10

  /** `CONFIG['MIN_CONTRIBUTIONS']` when the environment does not override it. */
  const DefaultMinContributions: int := 10

  // ---------------------------------------------------------------------
  // get_org_repos

  /** The fields of a listed repository that the pipeline reads; `fork` is `False` when the key is missing. */
  datatype OrgRepo = OrgRepo(name: string, fork: bool)

  /** `not repo.get('fork', False)` */
  predicate IsOriginal(r: OrgRepo)
  {
    !r.fork
  }

  /** The repositories `get_org_repos` returns: the non-fork repositories of the pages read, in order. */
  function OrgRepos(pages: seq<Page<OrgRepo>>): seq<OrgRepo>
  {
    Filter(Capped(pages, ReposPerPage, MaxRepoPages, 0), IsOriginal)
  }

  /** Reads pages until one is empty, failed or short, or the page counter passes 20, keeping the original repositories. */
  method GetOrgRepos(pages: seq<Page<OrgRepo>>) returns (allRepos: seq<OrgRepo>)
    ensures allRepos == OrgRepos(pages)
    ensures forall k :: 0 <= k < |allRepos| ==> !allRepos[k].fork
  {
    allRepos := [];
    var page := 0;
    var done := false;
    while !done
      invariant page <= |pages|
      invariant !done ==> allRepos + Filter(Capped(pages, ReposPerPage, MaxRepoPages, page), IsOriginal) == OrgRepos(pages)
      invariant done ==> allRepos == OrgRepos(pages)
      decreases |pages| - page, if done then 0 else 1
    {
      if page >= |pages| || pages[page].Failed? || pages[page].items == [] {
        assert allRepos + [] == allRepos;
        done := true;
      } else {
        var repos := pages[page].items;
        var originalRepos := Filter(repos, IsOriginal);
        var rest := if EndsCappedWalk(pages[page], ReposPerPage, MaxRepoPages, page) then []
                    else Capped(pages, ReposPerPage, MaxRepoPages, page + 1);
        FilterAppend(repos, rest, IsOriginal);
        ConcatAssoc(allRepos, originalRepos, Filter(rest, IsOriginal));
        allRepos := allRepos + originalRepos;
        if |repos| < ReposPerPage {
          done := true;
        } else {
          page := page + 1;
          if page + 1 > MaxRepoPages {
            done := true;
          }
        }
        if done {
          assert allRepos + [] == allRepos;
        }
      }
    }
    forall k | 0 <= k < |allRepos|
      ensures !allRepos[k].fork
    {
      assert IsOriginal(allRepos[k]);
    }
  }

  // ---------------------------------------------------------------------
  // get_repo_contributors

  /** A contributor as listed by the API; `contributions` is `None` when the key is missing. */
  datatype RawContributor = RawContributor(login: string, contributions: Option<int>, htmlUrl: string, avatarUrl: string)

  /** The record kept for a qualifying contributor. */
  datatype Contributor = Contributor(login: string, contributions: int, htmlUrl: string, avatarUrl: string)

  /** `contributor.get('contributions', 0)` */
  function ContributionsOf(c: RawContributor): int
  {
    if c.contributions.Some? then c.contributions.value else 0
  }

  /** The record built for a kept contributor: the same login, count and URLs. */
  function Keep(c: RawContributor): (k: Contributor)
    ensures k.login == c.login && k.contributions == ContributionsOf(c)
    ensures k.htmlUrl == c.htmlUrl && k.avatarUrl == c.avatarUrl
  {
    Contributor(c.login, ContributionsOf(c), c.htmlUrl, c.avatarUrl)
  }

  /** The contributors with at least `minContributions`, in list order. */
  function Qualify(all: seq<RawContributor>, minContributions: int): seq<Contributor>
    decreases |all|
  {
    if all == [] then []
    else
      var c := all[|all| - 1];
      Qualify(all[..|all| - 1], minContributions) + (if ContributionsOf(c) >= minContributions then [Keep(c)] else [])
  }

  /** A record is kept exactly when it copies a listed contributor that reaches the threshold. */
  lemma {:induction false} QualifyMember(all: seq<RawContributor>, minContributions: int, k: Contributor)
    ensures k in Qualify(all, minContributions) <==>
      exists j :: 0 <= j < |all| && ContributionsOf(all[j]) >= minContributions && k == Keep(all[j])
    decreases |all|
  {
    if all != [] {
      var n := |all| - 1;
      QualifyMember(all[..n], minContributions, k);
      assert forall j :: 0 <= j < n ==> all[..n][j] == all[j];
    }
  }

  /** Every kept record reaches the threshold. */
  lemma QualifyMeetsThreshold(all: seq<RawContributor>, minContributions: int, k: Contributor)
    requires k in Qualify(all, minContributions)
    ensures k.contributions >= minContributions
  {
    QualifyMember(all, minContributions, k);
  }

  /** The qualifying contributors of the pages read: at most ten pages of 100. */
  function RepoContributors(pages: seq<Page<RawContributor>>, minContributions: int): seq<Contributor>
  {
    Qualify(Capped(pages, ContributorsPerPage, MaxContributorPages, 0), minContributions)
  }

  /** The threshold filter over the collected list. */
  method QualifyLoop(all: seq<RawContributor>, minContributions: int) returns (qualified: seq<Contributor>)
    ensures qualified == Qualify(all, minContributions)
  {
    qualified := [];
    var j := 0;
    while j < |all|
      invariant 0 <= j <= |all|
      invariant qualified == Qualify(all[..j], minContributions)
    {
      assert all[..j + 1][..j] == all[..j];
      var contributor := all[j];
      var contributions := ContributionsOf(contributor);
      if contributions >= minContributions {
        qualified := qualified + [Contributor(contributor.login, contributions, contributor.htmlUrl, contributor.avatarUrl)];
      }
      j := j + 1;
    }
    assert all[..|all|] == all;
  }

  /** Reads pages until one is empty, failed or short, or the page counter passes 10, then applies the threshold. */
  method GetRepoContributors(pages: seq<Page<RawContributor>>, minContributions: int) returns (qualified: seq<Contributor>)
    ensures qualified == RepoContributors(pages, minContributions)
  {
    var allContributors: seq<RawContributor> := [];
    var page := 0;
    var done := false;
    while !done
      invariant page <= |pages|
      invariant !done ==> allContributors + Capped(pages, ContributorsPerPage, MaxContributorPages, page)
                          == Capped(pages, ContributorsPerPage, MaxContributorPages, 0)
      invariant done ==> allContributors == Capped(pages, ContributorsPerPage, MaxContributorPages, 0)
      decreases |pages| - page, if done then 0 else 1
    {
      if page >= |pages| || pages[page].Failed? || pages[page].items == [] {
        assert allContributors + [] == allContributors;
        done := true;
      } else {
        var contributors := pages[page].items;
        var rest := if EndsCappedWalk(pages[page], ContributorsPerPage, MaxContributorPages, page) then []
                    else Capped(pages, ContributorsPerPage, MaxContributorPages, page + 1);
        ConcatAssoc(allContributors, contributors, rest);
        allContributors := allContributors + contributors;
        if |contributors| < ContributorsPerPage {
          done := true;
        } else {
          page := page + 1;
          if page + 1 > MaxContributorPages {
            done := true;
          }
        }
        if done {
          assert allContributors + [] == allContributors;
        }
      }
    }
    qualified := QualifyLoop(allContributors, minContributions);
  }

  // ---------------------------------------------------------------------
  // collect_contributors_from_repos

  /** `contributors_data[username]`: the repositories in scan order, the summed count and the first seen URLs. */
  datatype UserEntry = UserEntry(repos: seq<string>, totalContributions: int, htmlUrl: string, avatarUrl: string)

  type ContributorsData = map<string, UserEntry>

  /** One contributor of repository `repoName`, as the scan meets it. */
  type Event = (string, Contributor)

  /** The body of the inner loop: create the entry on first sight, then append the repository and add the count. */
  function Record(data: ContributorsData, e: Event): ContributorsData
  {
    var c := e.1;
    var entry := if c.login in data then data[c.login] else UserEntry([], 0, c.htmlUrl, c.avatarUrl);
    data[c.login := entry.(repos := entry.repos + [e.0], totalContributions := entry.totalContributions + c.contributions)]
  }

  /** The dictionary after recording `events` in order, starting from `{}`. */
  function Collect(events: seq<Event>): ContributorsData
    decreases |events|
  {
    if events == [] then map[] else Record(Collect(events[..|events| - 1]), events[|events| - 1])
  }

  /** The events of one repository: each of its qualifying contributors, in list order. */
  function RepoEvents(repoName: string, contributors: seq<Contributor>): (ev: seq<Event>)
    ensures |ev| == |contributors|
    ensures forall k :: 0 <= k < |ev| ==> ev[k] == (repoName, contributors[k])
  {
    seq(|contributors|, k requires 0 <= k < |contributors| => (repoName, contributors[k]))
  }

  /** The contributor pages of a repository; a repository without pages reads as a failed request. */
  function PagesFor(contributorPages: map<string, seq<Page<RawContributor>>>, repoName: string): seq<Page<RawContributor>>
  {
    if repoName in contributorPages then contributorPages[repoName] else []
  }

  /** Everything the scan meets, repository by repository. */
  function Events(repos: seq<OrgRepo>, contributorPages: map<string, seq<Page<RawContributor>>>, minContributions: int): seq<Event>
    decreases |repos|
  {
    if repos == [] then []
    else
      var name := repos[|repos| - 1].name;
      Events(repos[..|repos| - 1], contributorPages, minContributions)
        + RepoEvents(name, RepoContributors(PagesFor(contributorPages, name), minContributions))
  }

  lemma CollectSnoc(events: seq<Event>, e: Event)
    ensures Collect(events + [e]) == Record(Collect(events), e)
  {
    assert (events + [e])[..|events|] == events;
  }

  /** One more contributor appends one event. */
  lemma RepoEventsStep(before: seq<Event>, repoName: string, contributors: seq<Contributor>, j: int)
    requires 0 <= j < |contributors|
    ensures before + RepoEvents(repoName, contributors[..j + 1])
         == (before + RepoEvents(repoName, contributors[..j])) + [(repoName, contributors[j])]
  {
    assert RepoEvents(repoName, contributors[..j + 1]) == RepoEvents(repoName, contributors[..j]) + [(repoName, contributors[j])];
  }

  /** The inner loop over one repository's contributors. */
  method RecordRepo(data: ContributorsData, ghost before: seq<Event>, repoName: string, contributors: seq<Contributor>)
    returns (out: ContributorsData)
    requires data == Collect(before)
    ensures out == Collect(before + RepoEvents(repoName, contributors))
  {
    out := data;
    var j := 0;
    assert before + RepoEvents(repoName, contributors[..0]) == before;
    while j < |contributors|
      invariant 0 <= j <= |contributors|
      invariant out == Collect(before + RepoEvents(repoName, contributors[..j]))
    {
      var contributor := contributors[j];
      var username := contributor.login;
      ghost var done := before + RepoEvents(repoName, contributors[..j]);
      ghost var prior := out;
      RepoEventsStep(before, repoName, contributors, j);
      CollectSnoc(done, (repoName, contributor));
      if username !in out {
        out := out[username := UserEntry([], 0, contributor.htmlUrl, contributor.avatarUrl)];
      }
      var entry := out[username];
      out := out[username := entry.(repos := entry.repos + [repoName],
                                    totalContributions := entry.totalContributions + contributor.contributions)];
      assert out == Record(prior, (repoName, contributor));
      j := j + 1;
    }
    assert contributors[..|contributors|] == contributors;
  }

  /** Scanning one more repository appends its events. */
  lemma EventsStep(repos: seq<OrgRepo>, contributorPages: map<string, seq<Page<RawContributor>>>, minContributions: int, i: int)
    requires 0 <= i < |repos|
    ensures Events(repos[..i + 1], contributorPages, minContributions) ==
      Events(repos[..i], contributorPages, minContributions)
        + RepoEvents(repos[i].name, RepoContributors(PagesFor(contributorPages, repos[i].name), minContributions))
  {
    assert repos[..i + 1][..i] == repos[..i];
  }

  /** The loop of `collect_contributors_from_repos` over the listed repositories. */
  method ScanRepos(repos: seq<OrgRepo>, contributorPages: map<string, seq<Page<RawContributor>>>, minContributions: int)
    returns (contributorsData: ContributorsData)
    ensures contributorsData == Collect(Events(repos, contributorPages, minContributions))
  {
    contributorsData := map[];
    var i := 0;
    while i < |repos|
      invariant 0 <= i <= |repos|
      invariant contributorsData == Collect(Events(repos[..i], contributorPages, minContributions))
    {
      EventsStep(repos, contributorPages, minContributions, i);
      var repoName := repos[i].name;
      var contributors := GetRepoContributors(PagesFor(contributorPages, repoName), minContributions);
      contributorsData := RecordRepo(contributorsData, Events(repos[..i], contributorPages, minContributions),
                                     repoName, contributors);
      i := i + 1;
    }
    assert repos[..|repos|] == repos;
  }

  /** `collect_contributors_from_repos`: lists the repositories, then records every qualifying contributor of each. */
  method CollectContributorsFromRepos(orgPages: seq<Page<OrgRepo>>, contributorPages: map<string, seq<Page<RawContributor>>>,
                                      minContributions: int)
    returns (contributorsData: ContributorsData)
    ensures contributorsData == Collect(Events(OrgRepos(orgPages), contributorPages, minContributions))
  {
    var repos := GetOrgRepos(orgPages);
    if repos == [] {
      return map[];
    }
    contributorsData := ScanRepos(repos, contributorPages, minContributions);
  }

  // ---------------------------------------------------------------------
  // What the accumulation promises

  /** The repositories of `username`'s events, in scan order. */
  function ReposFor(events: seq<Event>, username: string): seq<string>
    decreases |events|
  {
    if events == [] then []
    else
      var e := events[|events| - 1];
      ReposFor(events[..|events| - 1], username) + (if e.1.login == username then [e.0] else [])
  }

  /** The sum of `username`'s counts over the events. */
  function TotalFor(events: seq<Event>, username: string): int
    decreases |events|
  {
    if events == [] then 0
    else
      var e := events[|events| - 1];
      TotalFor(events[..|events| - 1], username) + (if e.1.login == username then e.1.contributions else 0)
  }

  /** A user has an entry exactly when one of the events is theirs. */
  lemma {:induction false} CollectKeys(events: seq<Event>, username: string)
    ensures username in Collect(events) <==> exists k :: 0 <= k < |events| && events[k].1.login == username
    decreases |events|
  {
    if events != [] {
      var n := |events| - 1;
      CollectKeys(events[..n], username);
      assert forall k :: 0 <= k < n ==> events[..n][k] == events[k];
    }
  }

  /**
   * A user's entry lists the repository of each of their events in scan
   * order, and the total is the sum of their counts.
   */
  lemma {:induction false} CollectEntry(events: seq<Event>, username: string)
    requires username in Collect(events)
    ensures Collect(events)[username].repos == ReposFor(events, username)
    ensures Collect(events)[username].totalContributions == TotalFor(events, username)
    decreases |events|
  {
    var n := |events| - 1;
    var front := events[..n];
    if username in Collect(front) {
      CollectEntry(front, username);
    } else {
      CollectKeys(front, username);
      ReposForAbsent(front, username);
    }
  }

  /** Without events of the user, no repositories and no count. */
  lemma {:induction false} ReposForAbsent(events: seq<Event>, username: string)
    requires forall k :: 0 <= k < |events| ==> events[k].1.login != username
    ensures ReposFor(events, username) == [] && TotalFor(events, username) == 0
    decreases |events|
  {
    if events != [] {
      var n := |events| - 1;
      assert forall k :: 0 <= k < n ==> events[..n][k] == events[k];
      ReposForAbsent(events[..n], username);
    }
  }

  /** The URLs of an entry come from the user's first event: later repositories never overwrite them. */
  lemma {:induction false} CollectFirstUrls(events: seq<Event>, k: int)
    requires 0 <= k < |events|
    requires forall j :: 0 <= j < k ==> events[j].1.login != events[k].1.login
    ensures events[k].1.login in Collect(events)
    ensures Collect(events)[events[k].1.login].htmlUrl == events[k].1.htmlUrl
    ensures Collect(events)[events[k].1.login].avatarUrl == events[k].1.avatarUrl
    decreases |events|
  {
    var n := |events| - 1;
    var front := events[..n];
    var username := events[k].1.login;
    if k < n {
      assert front[k] == events[k];
      assert forall j :: 0 <= j < k ==> front[j] == events[j];
      CollectFirstUrls(front, k);
    } else {
      assert forall j :: 0 <= j < n ==> front[j] == events[j];
      CollectKeys(front, username);
    }
  }

  /** Every recorded total reaches the threshold times the number of repositories listed. */
  lemma {:induction false} TotalAtLeastThreshold(events: seq<Event>, username: string, minContributions: int)
    requires forall k :: 0 <= k < |events| ==> events[k].1.contributions >= minContributions
    ensures TotalFor(events, username) >= minContributions * |ReposFor(events, username)|
    decreases |events|
  {
    if events != [] {
      var n := |events| - 1;
      assert forall k :: 0 <= k < n ==> events[..n][k] == events[k];
      TotalAtLeastThreshold(events[..n], username, minContributions);
    }
  }

  /** The scan only ever records qualifying contributors. */
  lemma {:induction false} EventsQualify(repos: seq<OrgRepo>, contributorPages: map<string, seq<Page<RawContributor>>>,
                                         minContributions: int)
    ensures forall k :: 0 <= k < |Events(repos, contributorPages, minContributions)| ==>
      Events(repos, contributorPages, minContributions)[k].1.contributions >= minContributions
    decreases |repos|
  {
    if repos != [] {
      var n := |repos| - 1;
      var name := repos[n].name;
      var front := Events(repos[..n], contributorPages, minContributions);
      var cs := RepoContributors(PagesFor(contributorPages, name), minContributions);
      EventsQualify(repos[..n], contributorPages, minContributions);
      forall k | 0 <= k < |cs|
        ensures cs[k].contributions >= minContributions
      {
        QualifyMeetsThreshold(Capped(PagesFor(contributorPages, name), ContributorsPerPage, MaxContributorPages, 0),
                              minContributions, cs[k]);
      }
      var all := Events(repos, contributorPages, minContributions);
      assert all == front + RepoEvents(name, cs);
      forall k | 0 <= k < |all|
        ensures all[k].1.contributions >= minContributions
      {
        if k >= |front| {
          assert all[k] == (name, cs[k - |front|]);
        } else {
          assert all[k] == front[k];
        }
      }
    }
  }

  /** Every repository in a user's list comes from one of the user's events. */
  lemma {:induction false} ReposForFrom(events: seq<Event>, username: string, repoName: string)
    requires repoName in ReposFor(events, username)
    ensures exists k :: 0 <= k < |events| && events[k].1.login == username && events[k].0 == repoName
    decreases |events|
  {
    var n := |events| - 1;
    if repoName in ReposFor(events[..n], username) {
      ReposForFrom(events[..n], username, repoName);
      var k :| 0 <= k < n && events[..n][k].1.login == username && events[..n][k].0 == repoName;
      assert events[k] == events[..n][k];
    } else {
      assert events[n].1.login == username && events[n].0 == repoName;
    }
  }

  /** No two events of `username` name the same repository. */
  predicate OncePer(events: seq<Event>, username: string)
  {
    forall j, k :: 0 <= j < k < |events| && events[j].1.login == username && events[k].1.login == username ==>
      events[j].0 != events[k].0
  }

  /** When no two of a user's events share a repository, the user's list has no repeats. */
  lemma {:induction false} ReposForDistinct(events: seq<Event>, username: string)
    requires OncePer(events, username)
    ensures Distinct(ReposFor(events, username))
    decreases |events|
  {
    if events != [] {
      var n := |events| - 1;
      var front := events[..n];
      assert forall k :: 0 <= k < n ==> front[k] == events[k];
      ReposForDistinct(front, username);
      var e := events[n];
      if e.0 in ReposFor(front, username) {
        ReposForFrom(front, username, e.0);
        var k :| 0 <= k < n && front[k].1.login == username && front[k].0 == e.0;
        assert events[k] == front[k];
        assert e.1.login != username;
      }
    }
  }

  /** No two repositories in the list share a name. */
  predicate DistinctNames(repos: seq<OrgRepo>)
  {
    forall i, j :: 0 <= i < j < |repos| ==> repos[i].name != repos[j].name
  }

  /** No two contributors in one repository's list share a login. */
  predicate DistinctLogins(contributors: seq<Contributor>)
  {
    forall i, j :: 0 <= i < j < |contributors| ==> contributors[i].login != contributors[j].login
  }

  /** Every event names one of the scanned repositories. */
  lemma {:induction false} EventsFromRepos(repos: seq<OrgRepo>, contributorPages: map<string, seq<Page<RawContributor>>>,
                                           minContributions: int, k: int)
    requires 0 <= k < |Events(repos, contributorPages, minContributions)|
    ensures exists i :: 0 <= i < |repos| && repos[i].name == Events(repos, contributorPages, minContributions)[k].0
    decreases |repos|
  {
    var n := |repos| - 1;
    var front := Events(repos[..n], contributorPages, minContributions);
    if k < |front| {
      EventsFromRepos(repos[..n], contributorPages, minContributions, k);
      var i :| 0 <= i < n && repos[..n][i].name == front[k].0;
      assert repos[i] == repos[..n][i];
    } else {
      assert Events(repos, contributorPages, minContributions)[k].0 == repos[n].name;
    }
  }

  /**
   * With distinct repository names and distinct logins within each
   * repository, no user meets the same repository twice.
   */
  lemma {:induction false} EventsOncePer(repos: seq<OrgRepo>, contributorPages: map<string, seq<Page<RawContributor>>>,
                                         minContributions: int, username: string)
    requires DistinctNames(repos)
    requires forall i :: 0 <= i < |repos| ==>
      DistinctLogins(RepoContributors(PagesFor(contributorPages, repos[i].name), minContributions))
    ensures OncePer(Events(repos, contributorPages, minContributions), username)
    decreases |repos|
  {
    if repos != [] {
      var n := |repos| - 1;
      var name := repos[n].name;
      var front := Events(repos[..n], contributorPages, minContributions);
      var cs := RepoContributors(PagesFor(contributorPages, name), minContributions);
      var all := Events(repos, contributorPages, minContributions);
      assert forall i :: 0 <= i < n ==> repos[..n][i] == repos[i];
      EventsOncePer(repos[..n], contributorPages, minContributions, username);
      assert all == front + RepoEvents(name, cs);
      forall j, k | 0 <= j < k < |all|
        ensures all[j].1.login == username && all[k].1.login == username ==> all[j].0 != all[k].0
      {
        if k < |front| {
          assert all[j] == front[j] && all[k] == front[k];
        } else if j < |front| {
          EventsFromRepos(repos[..n], contributorPages, minContributions, j);
          var i :| 0 <= i < n && repos[..n][i].name == front[j].0;
          assert all[j] == front[j] && all[k].0 == name;
          assert repos[i].name != repos[n].name;
        } else {
          assert all[j] == (name, cs[j - |front|]) && all[k] == (name, cs[k - |front|]);
          assert all[j].1.login != all[k].1.login;
        }
      }
    }
  }

  /**
   * `contributors_data[username]['repos']` lists each repository once,
   * given distinct repository names and distinct logins within each
   * repository's contributor list.
   */
  lemma CollectReposDistinct(repos: seq<OrgRepo>, contributorPages: map<string, seq<Page<RawContributor>>>,
                             minContributions: int, username: string)
    requires DistinctNames(repos)
    requires forall i :: 0 <= i < |repos| ==>
      DistinctLogins(RepoContributors(PagesFor(contributorPages, repos[i].name), minContributions))
    requires username in Collect(Events(repos, contributorPages, minContributions))
    ensures Distinct(Collect(Events(repos, contributorPages, minContributions))[username].repos)
  {
    var events := Events(repos, contributorPages, minContributions);
    CollectEntry(events, username);
    EventsOncePer(repos, contributorPages, minContributions, username);
    ReposForDistinct(events, username);
  }

  // ---------------------------------------------------------------------
  // calculate_user_stats

  /** The profile fields read from `user_details`; `None` for a missing key. */
  datatype UserDetails = UserDetails(publicRepos: Option<int>, followers: Option<int>, following: Option<int>)

  datatype UserStats = UserStats(publicRepos: int, totalStars: int, followers: int, following: int)

  /** `d.get(key, 0)` */
  function OrZero(v: Option<int>): int
  {
    if v.Some? then v.value else 0
  }

  /** `sum(repo.get('stargazers_count', 0) for repo in user_repos)` */
  function StarSum(stars: seq<Option<int>>): int
    decreases |stars|
  {
    if stars == [] then 0 else StarSum(stars[..|stars| - 1]) + OrZero(stars[|stars| - 1])
  }

  /**
   * `calculate_user_stats(user_details, user_repos)`: `None` stands for
   * missing or empty details, and each repository is reduced to its
   * `stargazers_count`.
   */
  function CalculateUserStats(details: Option<UserDetails>, repoStars: seq<Option<int>>): (s: UserStats)
    ensures details.None? ==> s == UserStats(0, 0, 0, 0)
    ensures details.Some? ==> s.publicRepos == OrZero(details.value.publicRepos) &&
                              s.followers == OrZero(details.value.followers) &&
                              s.following == OrZero(details.value.following)
    ensures details.Some? ==> s.totalStars == StarSum(repoStars)
  {
    if details.None? then UserStats(0, 0, 0, 0)
    else
      var d := details.value;
      UserStats(OrZero(d.publicRepos), if repoStars != [] then StarSum(repoStars) else 0, OrZero(d.followers), OrZero(d.following))
  }

  /** The star total adds up over any split of the repository list. */
  lemma {:induction false} StarSumAppend(a: seq<Option<int>>, b: seq<Option<int>>)
    ensures StarSum(a + b) == StarSum(a) + StarSum(b)
    decreases |b|
  {
    if b == [] {
      assert a + b == a;
    } else {
      StarSumAppend(a, b[..|b| - 1]);
      assert (a + b)[..|a + b| - 1] == a + b[..|b| - 1];
    }
  }

  /** Star counts that are never negative give a total that is never negative. */
  lemma {:induction false} StarSumNonNegative(stars: seq<Option<int>>)
    requires forall k :: 0 <= k < |stars| ==> OrZero(stars[k]) >= 0
    ensures StarSum(stars) >= 0
    decreases |stars|
  {
    if stars != [] {
      StarSumNonNegative(stars[..|stars| - 1]);
    }
  }
}
