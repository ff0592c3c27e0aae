/**
 * scripts/fetch-members.py, commit side of the member pipeline: the
 * normalisation of raw commits (`process_commits_data`) and the per-user
 * aggregation (`aggregate_commits_by_user`).
 *
 * The module binds the second definition of `aggregate_commits_by_user`
 * (the one Python keeps); the first definition, which Python overwrites,
 * differs only in how it chooses the user key and is kept as `LegacyKey`.
 *
 * Dates are not parsed here: a raw commit carries the outcome of
 * `datetime.fromisoformat` as a `Stamp` (the `%Y-%m-%d` day, the hour, and
 * an integer instant that orders the dates), or `None` when it raised.
 */
module Commits {
  import opened Wrappers
  import opened Strings
  import opened Collections

  /** A parsed commit date: `date_str`, `hour`, and its position in time. */
  datatype Stamp = Stamp(day: string, hour: int, instant: int)

  /**
   * The fields of an API commit that the function reads; `author` is the
   * login of the GitHub author object, `None` when that object is absent,
   * null or empty; `parsed` is the parsed `commit.author.date`.
   */
  datatype RawCommit = RawCommit(sha: string, message: string, authorName: string, authorEmail: Option<string>,
                                 date: string, htmlUrl: string, author: Option<string>, parsed: Option<Stamp>)

  /** `commit_data` as `process_commits_data` builds it. */
  datatype Commit = Commit(sha: string, message: string, authorName: string, authorEmail: Option<string>,
                           date: string, repo: string, url: string, githubUsername: Option<string>,
                           day: string, hour: int, instant: int)

  /** `commit['sha'][:8]` */
  const ShortShaLength: nat := 8

  /** `[:100]` on the first line of the message. */
  const MessageLength: nat := 100

  // ---------------------------------------------------------------------
  // process_commits_data

  /** `message.split('\n')[0][:100]` */
  function FirstLine(message: string): string
  {
    Take(Split(message, "\n")[0], MessageLength)
  }

  /** The first line is a prefix of the message, at most 100 characters, without a line break, and stops only at a line break or the limit. */
  lemma FirstLineIsPrefix(message: string)
    ensures FirstLine(message) <= message
    ensures |FirstLine(message)| <= MessageLength
    ensures '\n' !in FirstLine(message)
    ensures |FirstLine(message)| < MessageLength ==>
      FirstLine(message) == message || message[|FirstLine(message)|] == '\n'
  {
    BeforeIsFirstPiece(message, '\n');
    var b := Before(message, '\n');
    assert FirstLine(message) <= b;
  }

  /** The record for one raw commit, or `None` when its date does not parse (the `except` skips it). */
  function Normalise(c: RawCommit, repo: string): Option<Commit>
  {
    if c.parsed.None? then None
    else
      var p := c.parsed.value;
      Some(Commit(Take(c.sha, ShortShaLength), FirstLine(c.message), c.authorName, c.authorEmail, c.date,
                  repo, c.htmlUrl, c.author, p.day, p.hour, p.instant))
  }

  /** The normalised commits, in input order. */
  function ProcessCommits(commits: seq<RawCommit>, repo: string): seq<Commit>
    decreases |commits|
  {
    if commits == [] then []
    else
      var n := Normalise(commits[|commits| - 1], repo);
      ProcessCommits(commits[..|commits| - 1], repo) + (if n.Some? then [n.value] else [])
  }

  /** `process_commits_data(commits, repo_name)` */
  method ProcessCommitsData(commits: seq<RawCommit>, repoName: string) returns (processed: seq<Commit>)
    ensures processed == ProcessCommits(commits, repoName)
  {
    processed := [];
    var i := 0;
    while i < |commits|
      invariant 0 <= i <= |commits|
      invariant processed == ProcessCommits(commits[..i], repoName)
    {
      assert commits[..i + 1][..i] == commits[..i];
      var commit := commits[i];
      if commit.parsed.Some? {
        var p := commit.parsed.value;
        var commitData := Commit(Take(commit.sha, ShortShaLength), Take(Split(commit.message, "\n")[0], MessageLength),
                                 commit.authorName, commit.authorEmail, commit.date, repoName, commit.htmlUrl,
                                 commit.author, p.day, p.hour, p.instant);
        processed := processed + [commitData];
      }
      i := i + 1;
    }
    assert commits[..|commits|] == commits;
  }

  /** A normalised commit keeps the first 8 characters of the sha, the first line of the message, and the author login or `None`. */
  lemma NormaliseFields(c: RawCommit, repo: string)
    requires c.parsed.Some?
    ensures var r := Normalise(c, repo).value;
      r.sha <= c.sha && |r.sha| == (if |c.sha| < ShortShaLength then |c.sha| else ShortShaLength) &&
      r.message <= c.message && '\n' !in r.message && |r.message| <= MessageLength &&
      r.githubUsername == c.author && (r.githubUsername.None? <==> c.author.None?) &&
      r.repo == repo && r.day == c.parsed.value.day && r.hour == c.parsed.value.hour
  {
    FirstLineIsPrefix(c.message);
  }

  /** Processing splits over a concatenation: the order of the input is kept. */
  lemma {:induction false} ProcessAppend(a: seq<RawCommit>, b: seq<RawCommit>, repo: string)
    ensures ProcessCommits(a + b, repo) == ProcessCommits(a, repo) + ProcessCommits(b, repo)
    decreases |b|
  {
    if b == [] {
      assert a + b == a;
    } else {
      ProcessAppend(a, b[..|b| - 1], repo);
      assert (a + b)[..|a + b| - 1] == a + b[..|b| - 1];
    }
  }

  /** A commit whose date does not parse leaves no trace. */
  lemma ProcessSkipsUnparsed(a: seq<RawCommit>, c: RawCommit, b: seq<RawCommit>, repo: string)
    requires c.parsed.None?
    ensures ProcessCommits(a + [c] + b, repo) == ProcessCommits(a + b, repo)
  {
    ProcessAppend(a + [c], b, repo);
    ProcessAppend(a, [c], repo);
    ProcessAppend(a, b, repo);
    assert ProcessCommits([c], repo) == [] by {
      assert [c][..0] == [];
    }
  }

  /** When every date parses, every commit is kept, one record each, in order. */
  lemma {:induction false} ProcessAllParsed(commits: seq<RawCommit>, repo: string)
    requires forall k :: 0 <= k < |commits| ==> commits[k].parsed.Some?
    ensures |ProcessCommits(commits, repo)| == |commits|
    ensures forall k :: 0 <= k < |commits| ==> Some(ProcessCommits(commits, repo)[k]) == Normalise(commits[k], repo)
    decreases |commits|
  {
    if commits != [] {
      var n := |commits| - 1;
      assert forall k :: 0 <= k < n ==> commits[..n][k] == commits[k];
      ProcessAllParsed(commits[..n], repo);
    }
  }

  // ---------------------------------------------------------------------
  // aggregate_commits_by_user

  /** An entry of `commit_messages`. */
  datatype MessageEntry = MessageEntry(message: string, repo: string, date: string, url: string)

  /** The `user_stats` entry while the loop runs; `first`/`last` are instants, `None` before the first commit. */
  datatype Acc = Acc(total: int, repos: set<string>, daily: map<string, int>, hourly: map<int, int>,
                     messages: seq<MessageEntry>, first: Option<int>, last: Option<int>)

  /** The fresh entry the `defaultdict` creates. */
  const EmptyAcc: Acc := Acc(0, {}, map[], map[], [], None, None)

  /** At most this many messages are kept per user. */
  const MaxMessages: nat := 10

  function EntryOf(c: Commit): MessageEntry
  {
    MessageEntry(c.message, c.repo, c.day, c.url)
  }

  /** The loop body for one attributed commit. */
  function Step(acc: Acc, c: Commit): Acc
  {
    Acc(acc.total + 1, acc.repos + {c.repo}, Bump(acc.daily, c.day), Bump(acc.hourly, c.hour),
        if |acc.messages| < MaxMessages then acc.messages + [EntryOf(c)] else acc.messages,
        if acc.first.None? || c.instant < acc.first.value then Some(c.instant) else acc.first,
        if acc.last.None? || c.instant > acc.last.value then Some(c.instant) else acc.last)
  }

  /**
   * The user key of the live definition: the login when it is non-empty;
   * otherwise the part of the e-mail before the first `@` when the e-mail is
   * non-empty and holds an `@`; otherwise the commit is skipped.
   */
  function LiveKey(c: Commit): Option<string>
  {
    if c.githubUsername.Some? && c.githubUsername.value != "" then Some(c.githubUsername.value)
    else if c.authorEmail.Some? && c.authorEmail.value != "" && '@' in c.authorEmail.value
    then Some(Before(c.authorEmail.value, '@'))
    else None
  }

  /** The user key of the overwritten first definition: the login, or else the whole e-mail, when non-empty. */
  function LegacyKey(c: Commit): Option<string>
  {
    if c.githubUsername.Some? && c.githubUsername.value != "" then Some(c.githubUsername.value)
    else if c.authorEmail.Some? && c.authorEmail.value != "" then Some(c.authorEmail.value)
    else None
  }

  /** Which of the two definitions chooses the user key. */
  datatype KeyRule = Live | Legacy

  function UserKey(rule: KeyRule, c: Commit): Option<string>
  {
    if rule.Live? then LiveKey(c) else LegacyKey(c)
  }

  /** `user_stats` after one commit attributed to `user`, or unchanged when the commit is skipped. */
  function Record(stats: map<string, Acc>, user: Option<string>, c: Commit): map<string, Acc>
  {
    match user
    case None => stats
    case Some(u) => stats[u := Step(if u in stats then stats[u] else EmptyAcc, c)]
  }

  /** `user_stats` after the loop over `commits`, keyed by `key`. */
  function Aggregate(commits: seq<Commit>, key: KeyRule): map<string, Acc>
    decreases |commits|
  {
    if commits == [] then map[]
    else Record(Aggregate(commits[..|commits| - 1], key), UserKey(key, commits[|commits| - 1]), commits[|commits| - 1])
  }

  /** The serialisable entry of one user. */
  datatype UserCommits = UserCommits(totalCommits: int, repos: set<string>, repoCount: int,
                                     dailyCommits: map<string, int>, hourlyDistribution: map<int, int>,
                                     commitMessages: seq<MessageEntry>, firstCommit: Option<int>, lastCommit: Option<int>,
                                     activeDays: int, avgCommitsPerDay: real)

  /** `max(n, 1)` */
  function AtLeastOne(n: int): int
  {
    if n > 1 then n else 1
  }

  /** The conversion of one `user_stats` entry (the repository list is kept as its set of names). */
  function Finalize(a: Acc): UserCommits
  {
    UserCommits(a.total, a.repos, |a.repos|, a.daily, a.hourly, a.messages, a.first, a.last,
                |a.daily|, a.total as real / AtLeastOne(|a.daily|) as real)
  }

  /** The returned dictionary: every user with at least one commit. */
  function Result(stats: map<string, Acc>): map<string, UserCommits>
  {
    map u | u in stats && stats[u].total >= 1 :: Finalize(stats[u])
  }

  /** The first loop: counts each attributable commit under its user. */
  method CountByUser(allCommits: seq<Commit>) returns (userStats: map<string, Acc>)
    ensures userStats == Aggregate(allCommits, Live)
  {
    userStats := map[];
    for i := 0 to |allCommits|
      invariant userStats == Aggregate(allCommits[..i], Live)
    {
      assert allCommits[..i + 1][..i] == allCommits[..i];
      var commit := allCommits[i];
      var username := commit.githubUsername;
      var user: string;
      if username.Some? && username.value != "" {
        user := username.value;
      } else {
        var email := commit.authorEmail;
        if email.Some? && email.value != "" && '@' in email.value {
          user := Split(email.value, "@")[0];
          BeforeIsFirstPiece(email.value, '@');
        } else {
          continue;
        }
      }
      assert LiveKey(commit) == Some(user);
      var stats := if user in userStats then userStats[user] else EmptyAcc;
      ghost var prior := stats;
      var messages := stats.messages;
      if |messages| < MaxMessages {
        messages := messages + [MessageEntry(commit.message, commit.repo, commit.day, commit.url)];
      }
      var first := stats.first;
      if first.None? || commit.instant < first.value {
        first := Some(commit.instant);
      }
      var last := stats.last;
      if last.None? || commit.instant > last.value {
        last := Some(commit.instant);
      }
      stats := Acc(stats.total + 1, stats.repos + {commit.repo}, Bump(stats.daily, commit.day),
                   Bump(stats.hourly, commit.hour), messages, first, last);
      assert stats == Step(prior, commit);
      userStats := userStats[user := stats];
    }
    assert allCommits[..|allCommits|] == allCommits;
  }

  /** `aggregate_commits_by_user(all_commits)` (the definition Python keeps). */
  method AggregateCommitsByUser(allCommits: seq<Commit>) returns (result: map<string, UserCommits>)
    ensures result == Result(Aggregate(allCommits, Live))
  {
    var userStats := CountByUser(allCommits);
    result := map[];
    var pending := userStats.Keys;
    while pending != {}
      invariant pending <= userStats.Keys
      invariant result == Result(map u | u in userStats && u !in pending :: userStats[u])
      decreases |pending|
    {
      var username :| username in pending;
      var stats := userStats[username];
      ghost var before := map u | u in userStats && u !in pending :: userStats[u];
      pending := pending - {username};
      ghost var after := map u | u in userStats && u !in pending :: userStats[u];
      assert after == before[username := stats];
      if stats.total >= 1 {
        result := result[username := Finalize(stats)];
      }
    }
    assert (map u | u in userStats && u !in pending :: userStats[u]) == userStats;
  }

  // ---------------------------------------------------------------------
  // What the aggregation promises

  /** The commits attributed to `u`, in input order. */
  function Attributed(commits: seq<Commit>, key: KeyRule, u: string): seq<Commit>
    decreases |commits|
  {
    if commits == [] then []
    else
      var c := commits[|commits| - 1];
      Attributed(commits[..|commits| - 1], key, u) + (if UserKey(key, c) == Some(u) then [c] else [])
  }

  /** The entry built from `s` alone, in order. */
  function Fold(s: seq<Commit>): Acc
    decreases |s|
  {
    if s == [] then EmptyAcc else Step(Fold(s[..|s| - 1]), s[|s| - 1])
  }

  /** A user has an entry exactly when some commit is attributed to them. */
  lemma {:induction false} AggregateKeys(commits: seq<Commit>, key: KeyRule, u: string)
    ensures u in Aggregate(commits, key) <==> Attributed(commits, key, u) != []
    decreases |commits|
  {
    if commits != [] {
      AggregateKeys(commits[..|commits| - 1], key, u);
    }
  }

  /** A user's entry depends only on the commits attributed to them, taken in order. */
  lemma {:induction false} AggregateIsFold(commits: seq<Commit>, key: KeyRule, u: string)
    requires u in Aggregate(commits, key)
    ensures Aggregate(commits, key)[u] == Fold(Attributed(commits, key, u))
    decreases |commits|
  {
    var n := |commits| - 1;
    var front := commits[..n];
    var c := commits[n];
    var m := Aggregate(front, key);
    var s := Attributed(front, key, u);
    if UserKey(key, c) == Some(u) {
      var prev := if u in m then m[u] else EmptyAcc;
      if u in m {
        AggregateIsFold(front, key, u);
      } else {
        AggregateKeys(front, key, u);
      }
      assert prev == Fold(s);
      assert Aggregate(commits, key)[u] == Step(prev, c);
      assert Attributed(commits, key, u) == s + [c];
      assert (s + [c])[..|s|] == s;
      assert Fold(s + [c]) == Step(Fold(s), c);
    } else {
      assert Aggregate(commits, key)[u] == m[u];
      assert Attributed(commits, key, u) == s;
      AggregateIsFold(front, key, u);
    }
  }

  /** The count of a user's entry, the values of the daily map and those of the hourly map all equal the number of their commits. */
  lemma {:induction false} FoldCounts(s: seq<Commit>)
    ensures Fold(s).total == |s|
    ensures SumValues(Fold(s).daily) == |s| && SumValues(Fold(s).hourly) == |s|
    decreases |s|
  {
    if s != [] {
      var a := Fold(s[..|s| - 1]);
      FoldCounts(s[..|s| - 1]);
      BumpSum(a.daily, s[|s| - 1].day);
      BumpSum(a.hourly, s[|s| - 1].hour);
    }
  }

  /** The distinct days of `s`. */
  function Days(s: seq<Commit>): (r: set<string>)
    ensures forall k :: 0 <= k < |s| ==> s[k].day in r
    decreases |s|
  {
    if s == [] then {} else Days(s[..|s| - 1]) + {s[|s| - 1].day}
  }

  /** Every distinct day is the day of some commit. */
  lemma {:induction false} DaysAreCommitDays(s: seq<Commit>, d: string)
    requires d in Days(s)
    ensures exists k :: 0 <= k < |s| && s[k].day == d
    decreases |s|
  {
    var n := |s| - 1;
    if d != s[n].day {
      DaysAreCommitDays(s[..n], d);
      var k :| 0 <= k < n && s[..n][k].day == d;
      assert s[k].day == d;
    }
  }

  /** The distinct repositories of `s`. */
  function RepoNames(s: seq<Commit>): (r: set<string>)
    ensures forall k :: 0 <= k < |s| ==> s[k].repo in r
    decreases |s|
  {
    if s == [] then {} else RepoNames(s[..|s| - 1]) + {s[|s| - 1].repo}
  }

  /** Every repository of the set is the repository of some commit. */
  lemma {:induction false} RepoNamesAreCommitRepos(s: seq<Commit>, name: string)
    requires name in RepoNames(s)
    ensures exists k :: 0 <= k < |s| && s[k].repo == name
    decreases |s|
  {
    var n := |s| - 1;
    if name != s[n].repo {
      RepoNamesAreCommitRepos(s[..n], name);
      var k :| 0 <= k < n && s[..n][k].repo == name;
      assert s[k].repo == name;
    }
  }

  /** The days of the daily map are the days of the commits, each with a positive count. */
  lemma {:induction false} FoldDays(s: seq<Commit>)
    ensures Fold(s).daily.Keys == Days(s)
    ensures forall d :: d in Fold(s).daily ==> Fold(s).daily[d] >= 1
    decreases |s|
  {
    if s != [] {
      FoldDays(s[..|s| - 1]);
    }
  }

  /** The repositories of an entry are those of its commits. */
  lemma {:induction false} FoldRepos(s: seq<Commit>)
    ensures Fold(s).repos == RepoNames(s)
    decreases |s|
  {
    if s != [] {
      FoldRepos(s[..|s| - 1]);
    }
  }

  /** The messages kept are the entries of the first ten commits, in order. */
  lemma {:induction false} FoldMessages(s: seq<Commit>)
    ensures Fold(s).messages == Take(seq(|s|, k requires 0 <= k < |s| => EntryOf(s[k])), MaxMessages)
    decreases |s|
  {
    if s != [] {
      var n := |s| - 1;
      FoldMessages(s[..n]);
      var all := seq(|s|, k requires 0 <= k < |s| => EntryOf(s[k]));
      var front := seq(n, k requires 0 <= k < n => EntryOf(s[..n][k]));
      assert front == all[..n];
      if n < MaxMessages {
        assert all[..n] + [EntryOf(s[n])] == all[..n + 1];
      }
    }
  }

  /** The smallest instant of `s`, `None` for no commits. */
  function Earliest(s: seq<Commit>): Option<int>
    decreases |s|
  {
    if s == [] then None
    else
      var e := Earliest(s[..|s| - 1]);
      var t := s[|s| - 1].instant;
      if e.None? || t < e.value then Some(t) else e
  }

  /** The largest instant of `s`, `None` for no commits. */
  function Latest(s: seq<Commit>): Option<int>
    decreases |s|
  {
    if s == [] then None
    else
      var e := Latest(s[..|s| - 1]);
      var t := s[|s| - 1].instant;
      if e.None? || t > e.value then Some(t) else e
  }

  /** The running first and last dates are the earliest and latest dates of the commits folded so far. */
  lemma {:induction false} FoldFirstLast(s: seq<Commit>)
    ensures Fold(s).first == Earliest(s) && Fold(s).last == Latest(s)
    decreases |s|
  {
    if s != [] {
      FoldFirstLast(s[..|s| - 1]);
    }
  }

  /** `Earliest` is a date of the commits and no later than any of them. */
  lemma {:induction false} EarliestIsMinimum(s: seq<Commit>)
    requires s != []
    ensures Earliest(s).Some?
    ensures forall k :: 0 <= k < |s| ==> Earliest(s).value <= s[k].instant
    ensures exists k :: 0 <= k < |s| && s[k].instant == Earliest(s).value
    decreases |s|
  {
    var n := |s| - 1;
    var front := s[..n];
    if n == 0 {
      assert s[0].instant == Earliest(s).value;
    } else {
      EarliestIsMinimum(front);
      var before := Earliest(front).value;
      var i :| 0 <= i < n && front[i].instant == before;
      assert forall k :: 0 <= k < n ==> front[k] == s[k];
      if s[n].instant < before {
        assert Earliest(s).value == s[n].instant;
      } else {
        assert Earliest(s).value == before == s[i].instant;
      }
    }
  }

  /** `Latest` is a date of the commits and no earlier than any of them. */
  lemma {:induction false} LatestIsMaximum(s: seq<Commit>)
    requires s != []
    ensures Latest(s).Some?
    ensures forall k :: 0 <= k < |s| ==> s[k].instant <= Latest(s).value
    ensures exists k :: 0 <= k < |s| && s[k].instant == Latest(s).value
    decreases |s|
  {
    var n := |s| - 1;
    var front := s[..n];
    if n == 0 {
      assert s[0].instant == Latest(s).value;
    } else {
      LatestIsMaximum(front);
      var before := Latest(front).value;
      var i :| 0 <= i < n && front[i].instant == before;
      assert forall k :: 0 <= k < n ==> front[k] == s[k];
      if s[n].instant > before {
        assert Latest(s).value == s[n].instant;
      } else {
        assert Latest(s).value == before == s[i].instant;
      }
    }
  }

  /** The first and last dates of an entry bound every one of its commits' dates, and both are dates of its commits. */
  lemma FoldBounds(s: seq<Commit>)
    requires s != []
    ensures Fold(s).first.Some? && Fold(s).last.Some?
    ensures forall k :: 0 <= k < |s| ==> Fold(s).first.value <= s[k].instant <= Fold(s).last.value
    ensures exists k :: 0 <= k < |s| && s[k].instant == Fold(s).first.value
    ensures exists k :: 0 <= k < |s| && s[k].instant == Fold(s).last.value
  {
    FoldFirstLast(s);
    EarliestIsMinimum(s);
    LatestIsMaximum(s);
  }

  /** A map whose values are all at least 1 has no more keys than the sum of its values. */
  lemma {:induction false} KeysAtMostSum<K>(m: map<K, int>)
    requires forall k :: k in m ==> m[k] >= 1
    ensures |m| <= SumValues(m)
    decreases |m|
  {
    if m != map[] {
      var k :| k in m;
      SumValuesRemove(m, k);
      assert |m - {k}| == |m| - 1 by { assert (m - {k}).Keys == m.Keys - {k}; }
      KeysAtMostSum(m - {k});
    }
  }

  /** A product with a positive factor has the sign of the other factor. */
  lemma ProductSign(x: real, d: real)
    requires d > 0.0
    ensures x < 0.0 ==> x * d < 0.0
    ensures x >= 0.0 ==> x * d >= 0.0
  {
  }

  /** A quotient of a number by a divisor between 1 and itself lies between 1 and the number. */
  lemma QuotientBounds(t: real, d: real)
    requires 1.0 <= d <= t
    ensures 1.0 <= t / d <= t
  {
    var q := t / d;
    assert q * d == t;
    assert (q - 1.0) * d == t - d;
    ProductSign(q - 1.0, d);
    assert (t - q) * d == (d - 1.0) * t;
    ProductSign(d - 1.0, t);
    ProductSign(t - q, d);
  }

  /** `total / max(days, 1)` lies between 1 and `total` when there are between 1 and `total` days. */
  lemma AverageBounds(total: int, days: int)
    requires 1 <= days <= total
    ensures 1.0 <= total as real / AtLeastOne(days) as real <= total as real
  {
    assert AtLeastOne(days) == days;
    QuotientBounds(total as real, days as real);
  }

  /** An entry built from at least one commit has between 1 and `total` active days, one per distinct day. */
  lemma {:induction false} FoldSummary(s: seq<Commit>)
    requires s != []
    ensures var r := Finalize(Fold(s));
      r.totalCommits == |s| && r.activeDays == |Days(s)| &&
      1 <= r.activeDays <= r.totalCommits &&
      1.0 <= r.avgCommitsPerDay <= r.totalCommits as real
  {
    FoldCounts(s);
    FoldDays(s);
    var a := Fold(s);
    KeysAtMostSum(a.daily);
    assert s[0].day in a.daily;
    AverageBounds(a.total, |a.daily|);
  }

  /** Every user in the result has at least one commit, as many active days as distinct days, and between 1 and `total` commits per active day. */
  lemma UserResult(commits: seq<Commit>, key: KeyRule, u: string)
    requires u in Aggregate(commits, key)
    ensures var s := Attributed(commits, key, u);
      var r := Finalize(Aggregate(commits, key)[u]);
      r.totalCommits == |s| >= 1 &&
      r.activeDays == |Days(s)| &&
      1 <= r.activeDays <= r.totalCommits &&
      1.0 <= r.avgCommitsPerDay <= r.totalCommits as real
  {
    AggregateKeys(commits, key, u);
    AggregateIsFold(commits, key, u);
    FoldSummary(Attributed(commits, key, u));
  }

  /** The `>= 1` filter of the conversion drops no user: the result has exactly the users with an attributed commit. */
  lemma ResultKeys(commits: seq<Commit>, key: KeyRule, u: string)
    ensures u in Result(Aggregate(commits, key)) <==> Attributed(commits, key, u) != []
  {
    AggregateKeys(commits, key, u);
    if u in Aggregate(commits, key) {
      AggregateIsFold(commits, key, u);
      FoldCounts(Attributed(commits, key, u));
    }
  }

  /** The live key falls back to the e-mail's local part; the overwritten definition used the whole e-mail. */
  lemma KeysDifferOnEmailOnly(c: Commit)
    requires c.githubUsername.None?
    requires c.authorEmail == Some("dev@example.org")
    ensures LiveKey(c) == Some("dev") && LegacyKey(c) == Some("dev@example.org")
  {
    var e := "dev@example.org";
    assert Before(e, '@') == "dev" by {
      assert e[3] == '@';
      assert "dev" <= e;
    }
  }

  /** Keys that agree on every commit give the same aggregation; with a login on every commit both definitions agree. */
  lemma {:induction false} AggregateSameKeys(commits: seq<Commit>, k1: KeyRule, k2: KeyRule)
    requires forall k :: 0 <= k < |commits| ==> UserKey(k1, commits[k]) == UserKey(k2, commits[k])
    ensures Aggregate(commits, k1) == Aggregate(commits, k2)
    decreases |commits|
  {
    if commits != [] {
      var n := |commits| - 1;
      assert forall k :: 0 <= k < n ==> commits[..n][k] == commits[k];
      AggregateSameKeys(commits[..n], k1, k2);
      assert UserKey(k1, commits[n]) == UserKey(k2, commits[n]);
    }
  }

  /** With a non-empty login on every commit, the live and the overwritten definitions count the same users the same way. */
  lemma LoginsMakeDefinitionsAgree(commits: seq<Commit>)
    requires forall k :: 0 <= k < |commits| ==> commits[k].githubUsername.Some? && commits[k].githubUsername.value != ""
    ensures Aggregate(commits, Live) == Aggregate(commits, Legacy)
  {
    AggregateSameKeys(commits, Live, Legacy);
  }
}
