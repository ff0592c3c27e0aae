# members-visualization: a verified model of the data pipeline

The members-visualization site collects GitHub data about an organisation. It
covers its members, their repositories, commits and stars, plus the star
history of other organisations. The site turns that data into CSV and JSON
files, and a static VitePress site reads those files back. Under the HTTP and
file plumbing sits a set of deterministic transformations over lists and maps.
This project models those transformations in Dafny and proves what the
scripts promise about them.

- **Member pipeline** (`scripts/fetch-members.py`):
  - page loops over the organisation's repositories and each repository's contributors;
  - the contribution threshold and the per-user accumulation across repositories;
  - user statistics and keyword domain inference;
  - commit normalisation and per-user commit aggregation;
  - the row layout of the members CSV.
- **Older JavaScript twin** (`scripts/fetch-members.js`): `inferDomains` and `convertToCSV`.
- **Star-history analytics** (`scripts/fetch_organization/*`):
  - stargazer month bucketing with a running total;
  - organisation ranking and the name filter;
  - previous/current snapshot diffs, and the top-5 and top-3-new selections;
  - the trailing month window.
- **Front-end CSV reader** (`docs/.vitepress/theme/utils/csvParser.js`): the line/comma splitter, username extraction and the membership check.
- **Build path rewriter** (`scripts/fix-paths.js`): the chain of global literal replacements applied to each HTML file.

Every HTTP response becomes an input: a sequence of `Page`s (`Failed`, or
`Fetched(items)`), or a map from repository name to pages. The current clock
becomes a `(year, month)` parameter. The JSON files that `analyze_repo.py` reads
become a map from file name to stored detail. Loops that build values step by
step are methods with loop invariants. Each method is proved equal to a
specification function, and the lemmas about those functions state what the
scripts promise.

Module layout:
- `Wrappers`, `Strings` and `Collections` are shared helpers: Option/Result, substring search, split/join, replace-all, trimming, ASCII lower-casing, decimal text, map sums, stable descending sort, filter and dedup.
- `Paging` holds the page-walk shapes.
- The remaining modules follow the source files, one concern per module.

Two facts about the code shape the model:
- No bot-account filter exists in the scripts, so none is modelled.
- `scripts/fetch-members.py` defines `aggregate_commits_by_user` twice. Python binds the second definition (lines 885-950), so that one is the live behaviour. The first (lines 659-720) is modelled as the `Legacy` key rule and compared with the live one.

## Model

| member | source | states |
|---|---|---|
| Paging.WhileFullStopsAt | scripts/fetch_organization/fetch_organization_repo_detail.py:11-37 | a walk that continues only while a page has exactly `page_size` items collects exactly the pages up to the first short or failed one |
| Paging.WhileFullIgnoresLaterPages | scripts/fetch_organization/fetch_organization_repo_detail.py:11-37 | once a short or failed page occurs, later pages have no effect |
| Paging.CappedStopsAt | scripts/fetch-members.py:127-149 | the capped walk stops at an empty/failed page, a page shorter than `per_page`, or the page limit, and reads nothing after it |
| Paging.CappedAtMostMaxPages | scripts/fetch-members.py:144-147 | pages beyond the page limit (20 for repositories, 10 for contributors) are never read |
| Paging.CappedBound | scripts/fetch-members.py:160-178 | the capped walk collects at most `per_page * max_pages` items |
| MemberRepos.GetOrgRepos | scripts/fetch-members.py:119-152 | the page loop returns the capped walk's repositories with forks removed; no fork is in the result |
| MemberRepos.Keep | scripts/fetch-members.py:184-189 | a kept contributor copies login, contributions (0 when absent), html and avatar url unchanged |
| MemberRepos.QualifyMember | scripts/fetch-members.py:180-190 | a record is kept iff it comes from a contributor with `contributions >= MIN_CONTRIBUTIONS` |
| MemberRepos.QualifyMeetsThreshold | scripts/fetch-members.py:183 | every kept contributor meets the threshold |
| MemberRepos.QualifyLoop | scripts/fetch-members.py:180-190 | the filter loop computes exactly the qualifying list, in order |
| MemberRepos.GetRepoContributors | scripts/fetch-members.py:154-193 | the page loop plus filter returns the qualifying contributors of the capped walk |
| MemberRepos.RepoEvents | scripts/fetch-members.py:216-231 | one (repository, contributor) event per qualifying contributor, in order |
| MemberRepos.CollectSnoc | scripts/fetch-members.py:216-231 | the accumulated dictionary after one more event is the old dictionary updated by that event |
| MemberRepos.RecordRepo | scripts/fetch-members.py:216-231 | the inner loop adds the events of one repository to the dictionary |
| MemberRepos.ScanRepos | scripts/fetch-members.py:207-231 | the repository loop builds the dictionary from all events of all repositories, in scan order |
| MemberRepos.CollectContributorsFromRepos | scripts/fetch-members.py:195-242 | the result is the accumulation of the events of every non-fork repository (empty when there are none) |
| MemberRepos.CollectKeys | scripts/fetch-members.py:220-228 | a user is a key iff some qualifying event names them |
| MemberRepos.CollectEntry | scripts/fetch-members.py:230-231 | a user's `repos` lists their qualifying repositories in scan order, and `total_contributions` is the sum of their qualifying counts |
| MemberRepos.ReposForAbsent | scripts/fetch-members.py:230-231 | a user with no event has no repositories and a zero total |
| MemberRepos.ReposForFrom | scripts/fetch-members.py:230 | every repository in a user's list comes from one of that user's contributor entries |
| MemberRepos.ReposForDistinct | scripts/fetch-members.py:230 | when no two of a user's entries name the same repository, the user's `repos` has no repeats |
| MemberRepos.EventsFromRepos | scripts/fetch-members.py:207-216 | every recorded entry names one of the scanned repositories |
| MemberRepos.EventsOncePer | scripts/fetch-members.py:207-231 | with distinct repository names and distinct logins within each repository, no user meets the same repository twice |
| MemberRepos.CollectReposDistinct | scripts/fetch-members.py:207-231 | under the same conditions, `contributors_data[username]['repos']` lists each repository once |
| MemberRepos.CollectFirstUrls | scripts/fetch-members.py:220-228 | `user_info` comes from the first repository in which the user appeared |
| MemberRepos.TotalAtLeastThreshold | scripts/fetch-members.py:180-231 | a user's total is at least the threshold times the number of their repositories |
| MemberRepos.EventsQualify | scripts/fetch-members.py:180-213 | every accumulated event meets the threshold |
| MemberRepos.CalculateUserStats | scripts/fetch-members.py:287-309 | without details all four stats are 0; otherwise the counts come from the details, defaulting to 0, and `total_stars` is the sum of the repositories' star counts (0 when absent, and 0 for no repositories) |
| MemberRepos.StarSumAppend | scripts/fetch-members.py:307 | the star sum is additive over concatenation |
| MemberRepos.StarSumNonNegative | scripts/fetch-members.py:307 | non-negative star counts give a non-negative total |
| MemberDomains.AddTableMatches | scripts/fetch-members.py:316-319 | the table loop adds exactly the labels whose key or lower-cased label occurs in the text |
| MemberDomains.AddRuleMatches | scripts/fetch-members.py:345-368 | the compound-rule loop adds exactly the domains with a keyword in the search text |
| MemberDomains.CollectTopics | scripts/fetch-members.py:322-330 | the topics of every repository, in order |
| MemberDomains.ListOf | scripts/fetch-members.py:374 | `list(set)` has each element of the set exactly once |
| MemberDomains.InferDomainsFromRepos | scripts/fetch-members.py:311-374 | the result is non-empty and duplicate-free, holds exactly the inferred set, and is `['数据科学']` when nothing matched |
| MemberDomains.Inferred | scripts/fetch-members.py:371-372 | the inferred set is never empty |
| MemberDomains.TableSetMember | scripts/fetch-members.py:317-319 | a label is matched iff some entry with that label has its key or lower-cased label in the text |
| MemberDomains.RuleSetMember | scripts/fetch-members.py:345-368 | a rule's domain is matched iff one of its keywords occurs in the text |
| MemberDomains.DefaultExactly | scripts/fetch-members.py:371-372 | the result is `{'数据科学'}` iff nothing other than that label matched |
| MemberDomains.TableEntryAdds | scripts/fetch-members.py:316-340 | a table entry matching the bio, the joined topics or the joined repository names adds its label |
| MemberDomains.InferredFrom | scripts/fetch-members.py:311-374 | every inferred label is the default, a matched table label, or a matched rule's domain |
| MemberDomains.TopicKeywordAdds | scripts/fetch-members.py:343-368 | with non-blank topics, a keyword in the topics text adds the rule's domain |
| MemberDomains.RepoNameKeywordAdds | scripts/fetch-members.py:337-368 | with blank topics, a keyword in the repository-name text adds the rule's domain |
| MemberDomains.NoTopicsIsBlank | scripts/fetch-members.py:322-334 | repositories without topics give a blank topics text |
| MemberDomains.NlpTopicsExample | scripts/fetch-members.py:322-368 | topics `['nlp', 'bert']` infer the NLP domain |
| MemberDomains.RepoNamesExample | scripts/fetch-members.py:337-368 | without topics, a repository named `deep-learning-pytorch` infers 深度学习 |
| Commits.FirstLineIsPrefix | scripts/fetch-members.py:580 | the message is a prefix of the original, at most 100 characters, without a line break, cut only at the first line break or at the limit |
| Commits.NormaliseFields | scripts/fetch-members.py:576-603 | a normalised commit keeps the first 8 characters of the sha, the first-line message, the login (None when the author object is absent), the repository and the parsed day and hour |
| Commits.ProcessCommitsData | scripts/fetch-members.py:570-609 | the loop returns the normalised commits in order, skipping those whose date does not parse |
| Commits.ProcessAppend | scripts/fetch-members.py:575-603 | processing is done commit by commit: processing a concatenation concatenates the results |
| Commits.ProcessSkipsUnparsed | scripts/fetch-members.py:598-607 | a commit whose date does not parse contributes nothing |
| Commits.ProcessAllParsed | scripts/fetch-members.py:575-603 | when every date parses, the output has one normalised commit per input, in order |
| Commits.CountByUser | scripts/fetch-members.py:898-931 | the counting loop builds exactly the per-user fold of the live attribution rule |
| Commits.AggregateCommitsByUser | scripts/fetch-members.py:885-950 | the result is the finalised fold for every user with at least one commit |
| Commits.AggregateKeys | scripts/fetch-members.py:899-907 | a user has an aggregate iff some commit is attributed to them |
| Commits.AggregateIsFold | scripts/fetch-members.py:909-931 | a user's aggregate is the fold of exactly their commits, in input order |
| Commits.FoldCounts | scripts/fetch-members.py:912-916 | `total_commits` equals the number of the user's commits and equals the sums of `daily_commits` and `hourly_distribution` |
| Commits.Days | scripts/fetch-members.py:914 | every commit's day is among the user's days |
| Commits.DaysAreCommitDays | scripts/fetch-members.py:914 | every day in the set is some commit's day |
| Commits.RepoNames | scripts/fetch-members.py:913 | every commit's repository is among the user's repositories |
| Commits.RepoNamesAreCommitRepos | scripts/fetch-members.py:913 | every repository in the set is some commit's repository |
| Commits.FoldDays | scripts/fetch-members.py:914 | the `daily_commits` keys are exactly the user's commit days, each with a count of at least 1 |
| Commits.FoldRepos | scripts/fetch-members.py:913 | `repos` is exactly the set of the user's commit repositories |
| Commits.FoldMessages | scripts/fetch-members.py:917-924 | `commit_messages` holds the first 10 entries in input order |
| Commits.FoldFirstLast | scripts/fetch-members.py:926-931 | the first and last dates are the running minimum and maximum |
| Commits.EarliestIsMinimum | scripts/fetch-members.py:927-929 | the first date is at most every commit's date and is attained |
| Commits.LatestIsMaximum | scripts/fetch-members.py:930-931 | the last date is at least every commit's date and is attained |
| Commits.FoldBounds | scripts/fetch-members.py:926-931 | `first_commit_date <= every commit date <= last_commit_date`, and both are attained |
| Commits.KeysAtMostSum | scripts/fetch-members.py:938-946 | a map of positive counts has no more keys than its sum |
| Commits.AverageBounds | scripts/fetch-members.py:947 | `total / max(days, 1)` lies between 1 and `total` when `1 <= days <= total` |
| Commits.FoldSummary | scripts/fetch-members.py:934-948 | `total_commits` is the commit count, `active_days` the number of distinct days, `1 <= active_days <= total_commits`, `1 <= avg <= total_commits` |
| Commits.UserResult | scripts/fetch-members.py:909-948 | the same summary facts hold for every user's final aggregate |
| Commits.ResultKeys | scripts/fetch-members.py:934-948 | the `total_commits >= 1` filter drops no attributed user |
| Commits.KeysDifferOnEmailOnly | scripts/fetch-members.py:675-678 | without a login, the live rule keys `dev@example.org` as `dev` and the earlier revision keys it by the full email |
| Commits.AggregateSameKeys | scripts/fetch-members.py:659-720 | two key rules that agree on every commit give the same aggregates |
| Commits.LoginsMakeDefinitionsAgree | scripts/fetch-members.py:659-720 | when every commit has a login, both revisions of `aggregate_commits_by_user` give the same aggregates |
| MemberCsv.SaveRows | scripts/fetch-members.py:376-404 | the header row followed by one row per member, in order |
| MemberCsv.RowMatchesHeader | scripts/fetch-members.py:382-404 | each row has one cell per header column; the id, github and avatar columns hold those fields |
| MemberCsv.DomainCellRoundTrip | scripts/fetch-members.py:394 | splitting the domain cell on `;` recovers a non-empty domain list without `;` |
| MemberCsv.CountCellsRoundTrip | scripts/fetch-members.py:396-399 | the four count cells read back as the stored count, or 0 when missing |
| MemberCsv.MissingRepositoriesEmptyCell | scripts/fetch-members.py:395 | a missing or empty repository list gives an empty cell |
| MembersJs.TableHitsMember | scripts/fetch-members.js:150-154 | a label fires iff some entry with it has its key or lower-cased label in the text |
| MembersJs.LanguageHits | scripts/fetch-members.js:167-175 | the language rule only adds 机器学习 or 前端开发 |
| MembersJs.InferredDomains | scripts/fetch-members.js:178-183 | the result is never empty and has no duplicates |
| MembersJs.AddTableHits | scripts/fetch-members.js:150-154 | the loop adds the table hits to the Set in firing order; what the Set held stays in place, at its front |
| MembersJs.AddLanguageHits | scripts/fetch-members.js:167-175 | the language step adds its hits to the Set in firing order; what the Set held stays at its front |
| MembersJs.InferDomains | scripts/fetch-members.js:145-184 | the function returns the Set built from bio, repositories and languages, or the default |
| MembersJs.InferredIffFired | scripts/fetch-members.js:146-183 | when some rule fired, a label is in the result iff it fired |
| MembersJs.FiredDomains | scripts/fetch-members.js:146-181 | every label that fires is a table label, 机器学习 or 前端开发 |
| MembersJs.DefaultIffNothingFired | scripts/fetch-members.js:178-183 | the result is `['数据科学']` iff no rule fired |
| MembersJs.FiredFromBio | scripts/fetch-members.js:150-154 | a label hit by the lower-cased bio fires |
| MembersJs.FiredFromRepo | scripts/fetch-members.js:157-165 | a label hit by a repository's `"name description"` text fires |
| MembersJs.FiredFrom | scripts/fetch-members.js:146-176 | every table label that fires was hit by the bio or by some repository |
| MembersJs.LanguageDomains | scripts/fetch-members.js:167-175 | 机器学习 is added iff the lower-cased language is `python` or `jupyter notebook`; 前端开发 iff it is `javascript` or `typescript` |
| MembersJs.BioKeyword | scripts/fetch-members.js:150-154 | a table key in the lower-cased bio puts its label in the result |
| MembersJs.RepoKeyword | scripts/fetch-members.js:157-165 | a table key in a repository's text puts its label in the result |
| MembersJs.PythonRepoIsMachineLearning | scripts/fetch-members.js:167-171 | a Python or Jupyter Notebook repository puts 机器学习 in the result |
| MembersJs.ScriptRepoIsFrontend | scripts/fetch-members.js:172-174 | a JavaScript or TypeScript repository puts 前端开发 in the result |
| MembersJs.CsvLines | scripts/fetch-members.js:189-204 | the header line plus one line per member |
| MembersJs.ConvertToCsv | scripts/fetch-members.js:189-204 | the loop's text is those lines joined by line breaks |
| MembersJs.RowIsSingleLine | scripts/fetch-members.js:193-200 | a member whose fields have no line break gives a one-line row |
| MembersJs.CsvLinesRoundTrip | scripts/fetch-members.js:189-204 | splitting the CSV text on line breaks gives back the header and the rows |
| MembersJs.NoTrailingNewline | scripts/fetch-members.js:203 | the CSV text is non-empty and does not end with a line break |
| CsvParser.TrimAll | docs/.vitepress/theme/utils/csvParser.js:16-24 | every header name and value is trimmed |
| CsvParser.RowOf | docs/.vitepress/theme/utils/csvParser.js:26-30 | a row's keys are exactly the header names |
| CsvParser.RowOfValue | docs/.vitepress/theme/utils/csvParser.js:27-29 | a header's value is the value at its position, or `''` when missing (the last column of a repeated name wins) |
| CsvParser.BuildRow | docs/.vitepress/theme/utils/csvParser.js:26-30 | the row-filling loop builds that row |
| CsvParser.ParseCsv | docs/.vitepress/theme/utils/csvParser.js:11-35 | the parsing loop returns exactly the specified rows |
| CsvParser.SingleLineNoRows | docs/.vitepress/theme/utils/csvParser.js:12-13 | input with fewer than 2 lines after trimming yields no rows |
| CsvParser.RowsSkipBlank | docs/.vitepress/theme/utils/csvParser.js:20-32 | blank data lines are skipped and every other line gives one row, in order |
| CsvParser.RowKeysAreHeaders | docs/.vitepress/theme/utils/csvParser.js:16-30 | every parsed row has exactly the header keys |
| CsvParser.CellsOfLine | docs/.vitepress/theme/utils/csvParser.js:24 | the line is split on every comma; the cells are trimmed and hold no comma |
| CsvParser.ExtractGithubUsernames | docs/.vitepress/theme/utils/csvParser.js:42-53 | the set is exactly the trimmed, non-empty `id` values |
| CsvParser.UsernamesAreTrimmed | docs/.vitepress/theme/utils/csvParser.js:46-48 | every username is non-empty and trimmed |
| CsvParser.MemberOfCsv | docs/.vitepress/theme/utils/csvParser.js:115-118 | a non-empty login is a member iff some row's trimmed `id` equals it |
| CsvParser.NoMemberWithoutInput | docs/.vitepress/theme/utils/csvParser.js:116 | an empty or missing username, or a missing set, is never a member |
| FixPaths.ApplyRulesAppend | scripts/fix-paths.js:26-60 | the rules apply in order, each to the previous rule's output |
| FixPaths.ApplyRulesNoPattern | scripts/fix-paths.js:26-60 | text containing none of the patterns comes back unchanged |
| FixPaths.FixContentNoPattern | scripts/fix-paths.js:26-60 | the same, for the fixed chain |
| FixPaths.EachRuleIsSplitJoin | scripts/fix-paths.js:28-60 | each rule replaces every non-overlapping occurrence of its pattern, left to right |
| FixPaths.SrcAssetsDoublePrefix | scripts/fix-paths.js:32-56 | `src="/assets/…` gets the base path twice: the generic `/assets/` rule matches the already-rewritten text |
| FixPaths.ChainOnBareAssets | scripts/fix-paths.js:56 | a bare `/assets/` path gains one more base-path prefix on every pass |
| FixPaths.FixContentNotIdempotent | scripts/fix-paths.js:26-60 | applying the chain twice differs from applying it once |
| FixPaths.BaseEntryCanRemain | scripts/fix-paths.js:60 | a `"base":"/"` occurrence can remain after the chain (counterexample) |
| StarHistory.AllPagesFailed | scripts/fetch_organization/fetch_organization_from_star_history.py:31-33 | when every page fails, the list is empty |
| StarHistory.AllPagesFailedPage | scripts/fetch_organization/fetch_organization_from_star_history.py:31-33 | a page that raises contributes no entries |
| StarHistory.AssignRanks | scripts/fetch_organization/fetch_organization_from_star_history.py:47-48 | the ranking loop sets `rank = position + 1` and keeps everything else |
| StarHistory.CollectPages | scripts/fetch_organization/fetch_organization_from_star_history.py:40-42 | the entries of pages `1..page_count`, in page order |
| StarHistory.FetchOrganizationFromStarHistory | scripts/fetch_organization/fetch_organization_from_star_history.py:38-63 | the list is the ranked stable descending sort of the scraped entries, and the top list keeps the entries whose name is listed |
| StarHistory.RankedIsRanking | scripts/fetch_organization/fetch_organization_from_star_history.py:46-48 | the ranked list is non-increasing by stars with ranks exactly `1..n` |
| StarHistory.OrganizationListIsRanking | scripts/fetch_organization/fetch_organization_from_star_history.py:39-48 | the list is sorted, a permutation of the scraped entries, and equal star counts keep scrape order |
| StarHistory.InNameListKeepsRanks | scripts/fetch_organization/fetch_organization_from_star_history.py:51-54 | the filtered list holds exactly the listed names, each with its global rank, in rank order |
| StarHistory.RanksIncrease | scripts/fetch_organization/fetch_organization_from_star_history.py:51-54 | filtering keeps ranks increasing |
| OrgAnalysis.GetTop10KnowledgeSharingOrganizationInfo | scripts/fetch_organization/analyze_organization.py:6-25 | the diff loop computes the specified diff list |
| OrgAnalysis.DiffsAreMatchedEntries | scripts/fetch_organization/analyze_organization.py:13-23 | the output follows current-list order and holds the current items with a previous entry of that name, unchanged |
| OrgAnalysis.DiffsAgainstFirstPrevious | scripts/fetch_organization/analyze_organization.py:15-22 | `starAdd` and `rankAdd` are differences against the first previous match |
| OrgAnalysis.DiffsIffPreviousName | scripts/fetch_organization/analyze_organization.py:14-17 | a current item appears iff some previous item has its name |
| OrgAnalysis.DiffsNoLonger | scripts/fetch_organization/analyze_organization.py:13-23 | the output is no longer than the current list |
| RepoAnalysis.FileNameOfFullName | scripts/fetch_organization/analyze_repo.py:10 | the detail file name drops the `datawhalechina/` prefix |
| RepoAnalysis.FileNameUnprefixed | scripts/fetch_organization/analyze_repo.py:10 | a name without the prefix is used as it is |
| RepoAnalysis.JoinRepoDetailByName | scripts/fetch_organization/analyze_repo.py:6-28 | the join loop computes the specified join |
| RepoAnalysis.JoinMeaning | scripts/fetch_organization/analyze_repo.py:6-28 | the join succeeds iff every detail file exists; then it has one windowed entry per input, in order |
| RepoAnalysis.JoinPrefixFails | scripts/fetch_organization/analyze_repo.py:9-26 | a missing file fails the whole join |
| RepoAnalysis.GetRepoStarMoreThan1000 | scripts/fetch_organization/analyze_repo.py:32-42 | the join of the items with at least 1000 stars over 12 months |
| RepoAnalysis.MoreThan1000Filter | scripts/fetch_organization/analyze_repo.py:37-38 | the filter keeps exactly the items with at least 1000 stars, in input order |
| RepoAnalysis.WithStarAddSnoc | scripts/fetch_organization/analyze_repo.py:55-62 | the diff list grows by one entry per item |
| RepoAnalysis.DiffStarAdd | scripts/fetch_organization/analyze_repo.py:54-62 | the diff loop pairs each kept current item with its `starAdd` |
| RepoAnalysis.StarAddMeaning | scripts/fetch_organization/analyze_repo.py:57-61 | `starAdd` subtracts the first previous match's stars, or 0 when none |
| RepoAnalysis.GetRepoAddStarMoreThan1000 | scripts/fetch_organization/analyze_repo.py:46-69 | the join of the sorted diff list of the items with at least 1000 stars |
| RepoAnalysis.AddStarMoreThan1000Meaning | scripts/fetch_organization/analyze_repo.py:55-65 | exactly the current items with at least 1000 stars, non-increasing by `starAdd` |
| RepoAnalysis.GetAddStarTop5Repo | scripts/fetch_organization/analyze_repo.py:73-96 | the join of the first 5 diffs by `starAdd` |
| RepoAnalysis.Top5Meaning | scripts/fetch_organization/analyze_repo.py:81-92 | length `min(5, \|current\|)`, non-increasing, no left-out item beats a kept one, and ties keep current-list order |
| RepoAnalysis.GetAddStarTop3NewRepo | scripts/fetch_organization/analyze_repo.py:100-125 | the first 3 of the 4-month join of the new repositories |
| RepoAnalysis.EstablishedNamesMeaning | scripts/fetch_organization/analyze_repo.py:108-110 | a name is established iff a previous entry with it has more than 10 stars |
| RepoAnalysis.NewRepoMeaning | scripts/fetch_organization/analyze_repo.py:111-118 | a repository is new iff no previous entry with its name has more than 10 stars; the list is non-increasing by stars |
| RepoAnalysis.JoinThenTake | scripts/fetch_organization/analyze_repo.py:121-122 | taking the first `n` of a join keeps `min(n, \|items\|)` entries, each the join of its item |
| RepoAnalysis.Top3NewMeaning | scripts/fetch_organization/analyze_repo.py:118-122 | at most 3 entries, each the 4-month join of a new repository, in star order |
| RepoDetail.GetGithubRepoByOrganizationName | scripts/fetch_organization/fetch_organization_repo_detail.py:5-40 | the repository list is a permutation of the walk's items, non-increasing by `star_count` |
| RepoDetail.FirstUnparsed | scripts/fetch_organization/fetch_organization_repo_detail.py:71-84 | items before the first unparseable date parse, and the item at that position does not |
| RepoDetail.Tally | scripts/fetch_organization/fetch_organization_repo_detail.py:71-84 | the running total counts every processed item; both monthly maps have the same keys |
| RepoDetail.TallySnoc | scripts/fetch_organization/fetch_organization_repo_detail.py:71-84 | the tally of one more item is one more counting step |
| RepoDetail.CountPage | scripts/fetch_organization/fetch_organization_repo_detail.py:71-84 | the item loop tallies the page up to and including the first unparseable item |
| RepoDetail.BumpMonth | scripts/fetch_organization/fetch_organization_repo_detail.py:78-81 | the month's counter goes up by one, a month not yet seen starts at 1, and every other month keeps its count |
| RepoDetail.GetGithubStarCount | scripts/fetch_organization/fetch_organization_repo_detail.py:43-94 | the paging loop computes the specified star detail |
| RepoDetail.TallyMonthlyStars | scripts/fetch_organization/fetch_organization_repo_detail.py:73-81 | `monthly_stars[k]` counts the items of month `k` and has no other keys |
| RepoDetail.TallyMonthlySum | scripts/fetch_organization/fetch_organization_repo_detail.py:73-81 | the monthly counts plus the unparseable items sum to the total |
| RepoDetail.ProcessedUnparsedIsLast | scripts/fetch_organization/fetch_organization_repo_detail.py:86-91 | an unparseable item can only be the last one processed, since the error stops paging |
| RepoDetail.UnparsedAtMostLast | scripts/fetch_organization/fetch_organization_repo_detail.py:71-84 | so at most one item is unparseable |
| RepoDetail.StarCountIsProcessedCount | scripts/fetch_organization/fetch_organization_repo_detail.py:71-93 | `star_count` is the number of items processed; the monthly counts sum to it, less one when the last item did not parse |
| RepoDetail.TallyRunningTotal | scripts/fetch_organization/fetch_organization_repo_detail.py:84 | `monthly_total_stars[k]` is the running total after the last item of month `k` |
| RepoDetail.LastMonthHoldsTotal | scripts/fetch_organization/fetch_organization_repo_detail.py:84-93 | the last item's month maps to the total |
| RepoDetail.RepoNameOfDefined | scripts/fetch_organization/fetch_organization_repo_detail.py:104 | the split has a second component iff the name contains `/` |
| RepoDetail.RepoNameOfFullName | scripts/fetch_organization/fetch_organization_repo_detail.py:104 | the repository name is the component after the first `/` |
| RepoDetail.DetailsOfDefined | scripts/fetch_organization/fetch_organization_repo_detail.py:103-110 | the detail loop succeeds iff every name contains `/` |
| RepoDetail.DetailsOfSkipsDotGithub | scripts/fetch_organization/fetch_organization_repo_detail.py:103-110 | `.github` is skipped; every other repository has exactly its star detail |
| RepoDetail.DetailsOfPrefixFails | scripts/fetch_organization/fetch_organization_repo_detail.py:104 | a name without `/` fails the whole run |
| RepoDetail.FetchOrganizationRepoDetail | scripts/fetch_organization/fetch_organization_repo_detail.py:97-117 | the result succeeds iff every name contains `/`; the detail list is non-increasing by `star_count` |
| MonthWindow.TrailingDigits | scripts/fetch_organization/utils.py:26 | the trailing digit run of a key |
| MonthWindow.MonthKeyRoundTrip | scripts/fetch_organization/utils.py:26 | a `"{year}-{month}"` key without zero padding parses back to its year and month |
| MonthWindow.MonthKeyInjective | scripts/fetch_organization/utils.py:26 | distinct months have distinct keys |
| MonthWindow.MonthsBefore | scripts/fetch_organization/utils.py:29-32 | stepping back keeps the month in 1..12 and lowers the month index by the step count |
| MonthWindow.JanuaryStepsBackToDecember | scripts/fetch_organization/utils.py:29-31 | going back from January gives December of the previous year |
| MonthWindow.StepBackWithinYear | scripts/fetch_organization/utils.py:32 | any other month steps back within the year |
| MonthWindow.StepBack | scripts/fetch_organization/utils.py:28-32 | one loop step moves one month further back |
| MonthWindow.Window | scripts/fetch_organization/utils.py:25-38 | the window has exactly `month_count` entries, none when it is not positive |
| MonthWindow.WindowIgnoresOtherKeys | scripts/fetch_organization/utils.py:37-38 | keys of `month_object` outside the window are ignored |
| MonthWindow.PastMonthKeys | scripts/fetch_organization/utils.py:24-32 | the loop produces the keys of the current month and the months before it |
| MonthWindow.GetObjectByMonthKey | scripts/fetch_organization/utils.py:15-39 | `month_count` chronological keys, each with `month_object[key]` or 0 |
| MonthWindow.WindowEndsAtCurrentMonth | scripts/fetch_organization/utils.py:24-35 | after the reversal the last key is the current month |
| MonthWindow.WindowIsChronological | scripts/fetch_organization/utils.py:24-35 | consecutive keys are consecutive months |
| MonthWindow.WindowKeysDistinct | scripts/fetch_organization/utils.py:24-37 | no key repeats |

## Left out

- HTTP, retries, rate-limit sleeps, file reads and writes, avatar downloads, backups, environment reading, progress printing and process exit are not modelled. Pages, per-repository page maps, the JSON detail store and the clock are inputs instead.
- The HTML scrape in `get_organization_list` is a parameter. Each page is either a list of entries or a failure.
- Exceptions are modelled only where the code catches them on purpose and the model can tell the case apart: an unparseable commit date skips that commit, a failed page ends its walk. A missing detail file is not caught in `analyze_repo.py` (line 14 opens it unguarded), so it aborts the whole report, and the model returns `Failure` for it.
- MemberRepos.CollectContributorsFromRepos: assumes every contributor entry carries `login`, `html_url` and `avatar_url`. In the source a missing key raises `KeyError` inside `get_repo_contributors` (`scripts/fetch-members.py`:184-189), and the `except Exception` handler at lines 237-239 then drops that whole repository. The model has no such entries, because `RawContributor` makes the three fields mandatory.
- Commits.ProcessCommitsData: assumes every commit carries `sha`, `html_url`, a message and an author name, email and date, and an author `login` when the author object is present. In the source a missing key, or a `None` message, raises inside the loop and skips that commit (lines 576-607); the model does not represent such commits.
- Date parsing and `isoformat` strings are modelled as already-parsed values: a day key, an hour and an integer instant. Comparing naive and aware datetimes is not modelled.
- `MIN_CONTRIBUTIONS` comes from the environment and is a parameter.
- Lower-casing covers ASCII letters only, and trimming uses a fixed set of whitespace characters. Unicode case folding and whitespace classes are out of scope.
- The `csv` module's quoting in `save_to_csv` is library behaviour. A cell is modelled as the text of its value.
- User repositories that are not dictionaries are not modelled.
- MemberDomains.InferDomainsFromRepos: states only the content and the absence of duplicates, because the order of `list(set(...))` is unspecified in Python.
- Commits.ProcessCommitsData: keeps the date as parsed values, not the `isoformat` text the source stores.
- The insertion order of Python dicts in `contributors_data` and the aggregate maps is not modelled. They are Dafny maps.
- `fix-paths.js`: the directory walk and the per-file I/O are not modelled. The replacement chain does not remove every `"base":"/"`: two adjacent occurrences leave one behind (FixPaths.BaseEntryCanRemain), so the model proves no such property.
- The floating-point division of `avg_commits_per_day` is exact `real` division.
