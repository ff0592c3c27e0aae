/**
 * scripts/fetch-members.js: the research-domain guess made from a member's
 * bio and repositories (`inferDomains`) and the CSV text written for the
 * member list (`convertToCSV`). The GitHub requests that feed them are not
 * part of this model; the repositories and the bio are inputs.
 */
module MembersJs {
  import opened Wrappers
  import opened Strings
  import opened Collections

  /** The fields of a repository that `inferDomains` reads. */
  datatype Repo = Repo(name: string, description: Option<string>, language: Option<string>)

  /** `CONFIG.DEFAULT_DOMAINS`, in insertion order: keyword to domain. */
  const DomainTable: seq<(string, string)> := [
    ("machine-learning", "机器学习"),
    ("deep-learning", "深度学习"),
    ("nlp", "NLP"),
    ("cv", "CV"),
    ("data-mining", "数据挖掘"),
    ("recommendation", "推荐系统"),
    ("reinforcement-learning", "强化学习")
  ]

  const MachineLearning: string := "机器学习"
  const Frontend: string := "前端开发"
  const DataScience: string := "数据科学"

  /** JavaScript `x || ''` on an optional string. */
  function OrEmpty(s: Option<string>): string
  {
    if s.Some? then s.value else ""
  }

  /** A table entry fires on `text` when the text holds its key or its lower-cased domain. */
  predicate EntryMatches(text: string, entry: (string, string))
  {
    Contains(text, entry.0) || Contains(text, Lower(entry.1))
  }

  /** The domains of the entries of `table` that fire on `text`, in table order. */
  function TableHits(text: string, table: seq<(string, string)>): seq<string>
    decreases |table|
  {
    if table == [] then []
    else
      var n := |table| - 1;
      TableHits(text, table[..n]) + (if EntryMatches(text, table[n]) then [table[n].1] else [])
  }

  /** A domain is among the hits exactly when an entry with that domain fires. */
  lemma {:induction false} TableHitsMember(text: string, table: seq<(string, string)>, domain: string)
    ensures domain in TableHits(text, table) <==>
      exists j :: 0 <= j < |table| && table[j].1 == domain && EntryMatches(text, table[j])
    decreases |table|
  {
    if table != [] {
      var n := |table| - 1;
      TableHitsMember(text, table[..n], domain);
      assert forall j :: 0 <= j < n ==> table[..n][j] == table[j];
    }
  }

  /** One more table entry appends its domain when it fires. */
  lemma TableHitsStep(text: string, table: seq<(string, string)>, j: int)
    requires 0 <= j < |table|
    ensures TableHits(text, table[..j + 1]) ==
      TableHits(text, table[..j]) + (if EntryMatches(text, table[j]) then [table[j].1] else [])
  {
    assert table[..j + 1][..j] == table[..j];
  }

  /** `` `${repo.name} ${repo.description || ''}`.toLowerCase() `` */
  function RepoText(repo: Repo): string
  {
    Lower(repo.name + " " + OrEmpty(repo.description))
  }

  /** The domains the repository's language adds (no language, or an empty one, adds none). */
  function LanguageHits(language: Option<string>): (hits: seq<string>)
    ensures forall l :: l in hits ==> l == MachineLearning || l == Frontend
  {
    if language.None? || language.value == "" then []
    else
      var lang := Lower(language.value);
      (if lang == "python" || lang == "jupyter notebook" then [MachineLearning] else [])
      + (if lang == "javascript" || lang == "typescript" then [Frontend] else [])
  }

  /** Everything one repository adds, in the order the loop adds it. */
  function RepoHits(repo: Repo, table: seq<(string, string)>): seq<string>
  {
    TableHits(RepoText(repo), table) + LanguageHits(repo.language)
  }

  /** Every `domains.add(...)` call, in order: the bio first, then each repository. */
  function Fired(repos: seq<Repo>, bio: Option<string>, table: seq<(string, string)>): seq<string>
    decreases |repos|
  {
    if repos == [] then TableHits(Lower(OrEmpty(bio)), table)
    else Fired(repos[..|repos| - 1], bio, table) + RepoHits(repos[|repos| - 1], table)
  }

  /** `Array.from(domains)`, with `数据科学` when nothing was added. */
  function InferredDomains(repos: seq<Repo>, bio: Option<string>, table: seq<(string, string)>): (r: seq<string>)
    ensures r != [] && Distinct(r)
  {
    var d := Dedup(Fired(repos, bio, table));
    if d == [] then [DataScience] else d
  }

  /** `domains.add(v)` on a `Set` read back in insertion order. */
  function Add(domains: seq<string>, v: string): seq<string>
  {
    if v in domains then domains else domains + [v]
  }

  /** Adds the domains of the table entries that fire on `text`, as the `forEach` over the table does. */
  method AddTableHits(domains: seq<string>, ghost fired: seq<string>, text: string, table: seq<(string, string)>)
    returns (out: seq<string>, ghost firedOut: seq<string>)
    requires domains == Dedup(fired)
    ensures firedOut == fired + TableHits(text, table)
    ensures out == Dedup(firedOut)
    ensures domains <= out
  {
    out, firedOut := domains, fired;
    var j := 0;
    while j < |table|
      invariant 0 <= j <= |table|
      invariant firedOut == fired + TableHits(text, table[..j])
      invariant out == Dedup(firedOut)
    {
      var entry := table[j];
      TableHitsStep(text, table, j);
      if EntryMatches(text, entry) {
        DedupSnoc(firedOut, entry.1);
        out := Add(out, entry.1);
        firedOut := firedOut + [entry.1];
      } else {
        assert firedOut + [] == firedOut;
      }
      j := j + 1;
    }
    assert table[..|table|] == table;
    DedupPrefix(fired, TableHits(text, table));
  }

  /** Adds the domains the language rule gives. */
  method AddLanguageHits(domains: seq<string>, ghost fired: seq<string>, language: Option<string>)
    returns (out: seq<string>, ghost firedOut: seq<string>)
    requires domains == Dedup(fired)
    ensures firedOut == fired + LanguageHits(language)
    ensures out == Dedup(firedOut)
    ensures domains <= out
  {
    out, firedOut := domains, fired;
    ghost var hits: seq<string> := [];
    if language.Some? && language.value != "" {
      var lang := Lower(language.value);
      if lang == "python" || lang == "jupyter notebook" {
        DedupSnoc(firedOut, MachineLearning);
        out := Add(out, MachineLearning);
        firedOut := firedOut + [MachineLearning];
        hits := [MachineLearning];
      }
      if lang == "javascript" || lang == "typescript" {
        DedupSnoc(firedOut, Frontend);
        out := Add(out, Frontend);
        firedOut := firedOut + [Frontend];
        hits := hits + [Frontend];
      }
    }
    assert firedOut == fired + hits;
    assert hits == LanguageHits(language);
    DedupPrefix(fired, hits);
  }

  /** `inferDomains(repos, userBio)` with `CONFIG.DEFAULT_DOMAINS` as `table`. */
  method InferDomains(repos: seq<Repo>, bio: Option<string>, table: seq<(string, string)>) returns (domains: seq<string>)
    ensures domains == InferredDomains(repos, bio, table)
  {
    ghost var fired: seq<string> := [];
    domains, fired := AddTableHits([], fired, Lower(OrEmpty(bio)), table);
    var i := 0;
    while i < |repos|
      invariant 0 <= i <= |repos|
      invariant fired == Fired(repos[..i], bio, table)
      invariant domains == Dedup(fired)
    {
      var repo := repos[i];
      ghost var before := fired;
      domains, fired := AddTableHits(domains, fired, RepoText(repo), table);
      domains, fired := AddLanguageHits(domains, fired, repo.language);
      FiredStep(repos, bio, table, i, before, fired);
      i := i + 1;
    }
    assert repos[..|repos|] == repos;
    if |domains| == 0 {
      domains := [DataScience];
    }
  }

  /** One more repository appends what that repository adds. */
  lemma FiredStep(repos: seq<Repo>, bio: Option<string>, table: seq<(string, string)>, i: int,
                  before: seq<string>, after: seq<string>)
    requires 0 <= i < |repos|
    requires before == Fired(repos[..i], bio, table)
    requires after == before + TableHits(RepoText(repos[i]), table) + LanguageHits(repos[i].language)
    ensures after == Fired(repos[..i + 1], bio, table)
  {
    assert repos[..i + 1][..i] == repos[..i];
    assert Fired(repos[..i + 1], bio, table) == before + RepoHits(repos[i], table);
    ConcatAssoc(before, TableHits(RepoText(repos[i]), table), LanguageHits(repos[i].language));
  }

  // ---------------------------------------------------------------------
  // What the guess promises

  /** A domain is reported exactly when some rule added it, unless no rule fired. */
  lemma InferredIffFired(repos: seq<Repo>, bio: Option<string>, table: seq<(string, string)>, domain: string)
    requires Fired(repos, bio, table) != []
    ensures domain in InferredDomains(repos, bio, table) <==> domain in Fired(repos, bio, table)
  {
    assert Fired(repos, bio, table)[0] in Dedup(Fired(repos, bio, table));
  }

  /** Every domain a rule can add is a domain of the table or one of the two language domains. */
  lemma {:induction false} FiredDomains(repos: seq<Repo>, bio: Option<string>, table: seq<(string, string)>)
    ensures forall d :: d in Fired(repos, bio, table) ==>
      d == MachineLearning || d == Frontend || exists j :: 0 <= j < |table| && table[j].1 == d
    decreases |repos|
  {
    if repos == [] {
      forall d | d in Fired(repos, bio, table)
        ensures exists j :: 0 <= j < |table| && table[j].1 == d
      {
        TableHitsMember(Lower(OrEmpty(bio)), table, d);
      }
    } else {
      var last := repos[|repos| - 1];
      FiredDomains(repos[..|repos| - 1], bio, table);
      forall d | d in TableHits(RepoText(last), table)
        ensures exists j :: 0 <= j < |table| && table[j].1 == d
      {
        TableHitsMember(RepoText(last), table, d);
      }
    }
  }

  /** No table entry maps to the default domain. */
  predicate DefaultIsFresh(table: seq<(string, string)>)
  {
    forall j :: 0 <= j < |table| ==> table[j].1 != DataScience
  }

  /** The configured table never names the default domain. */
  lemma DomainTableDefaultIsFresh()
    ensures DefaultIsFresh(DomainTable)
  {
    forall j | 0 <= j < |DomainTable|
      ensures DomainTable[j].1 != DataScience
    {
      assert |DomainTable[j].1| != |DataScience| || DomainTable[j].1[2] != DataScience[2];
    }
  }

  /**
   * The default domain stands alone exactly when no rule fired, as long as
   * no table entry maps to the default itself (true of the configured table).
   */
  lemma DefaultIffNothingFired(repos: seq<Repo>, bio: Option<string>, table: seq<(string, string)>)
    requires DefaultIsFresh(table)
    ensures InferredDomains(repos, bio, table) == [DataScience] <==> Fired(repos, bio, table) == []
  {
    var f := Fired(repos, bio, table);
    if f != [] {
      FiredDomains(repos, bio, table);
      assert MachineLearning[0] != DataScience[0] && Frontend[0] != DataScience[0];
      assert f[0] in f;
      assert f[0] != DataScience;
      assert f[0] in Dedup(f);
    }
  }

  /** Whatever the bio's text adds is among the fired domains. */
  lemma {:induction false} FiredFromBio(repos: seq<Repo>, bio: Option<string>, table: seq<(string, string)>, domain: string)
    requires domain in TableHits(Lower(OrEmpty(bio)), table)
    ensures domain in Fired(repos, bio, table)
    decreases |repos|
  {
    if repos != [] {
      FiredFromBio(repos[..|repos| - 1], bio, table, domain);
    }
  }

  /** Whatever a repository adds is among the fired domains. */
  lemma {:induction false} FiredFromRepo(repos: seq<Repo>, bio: Option<string>, table: seq<(string, string)>, i: int, domain: string)
    requires 0 <= i < |repos| && domain in RepoHits(repos[i], table)
    ensures domain in Fired(repos, bio, table)
    decreases |repos|
  {
    var n := |repos| - 1;
    if i < n {
      assert repos[..n][i] == repos[i];
      FiredFromRepo(repos[..n], bio, table, i, domain);
    }
  }

  /** A fired domain came from the bio or from one of the repositories. */
  lemma {:induction false} FiredFrom(repos: seq<Repo>, bio: Option<string>, table: seq<(string, string)>, domain: string)
    requires domain in Fired(repos, bio, table)
    ensures domain in TableHits(Lower(OrEmpty(bio)), table) ||
      exists i :: 0 <= i < |repos| && domain in RepoHits(repos[i], table)
    decreases |repos|
  {
    if repos != [] {
      var n := |repos| - 1;
      if domain !in RepoHits(repos[n], table) {
        FiredFrom(repos[..n], bio, table, domain);
        if domain !in TableHits(Lower(OrEmpty(bio)), table) {
          var i :| 0 <= i < n && domain in RepoHits(repos[..n][i], table);
          assert repos[..n][i] == repos[i];
        }
      }
    }
  }

  /** Python and Jupyter Notebook (in any letter case) give `机器学习`; JavaScript and TypeScript give `前端开发`. */
  lemma LanguageDomains(language: Option<string>)
    ensures MachineLearning in LanguageHits(language) <==>
      language.Some? && (Lower(language.value) == "python" || Lower(language.value) == "jupyter notebook")
    ensures Frontend in LanguageHits(language) <==>
      language.Some? && (Lower(language.value) == "javascript" || Lower(language.value) == "typescript")
  {
    if language.Some? && language.value == "" {
      assert Lower(language.value) == "";
    }
  }

  /** A table entry whose key appears in the lower-cased bio adds its domain. */
  lemma BioKeyword(repos: seq<Repo>, bio: Option<string>, table: seq<(string, string)>, j: int)
    requires 0 <= j < |table|
    requires Contains(Lower(OrEmpty(bio)), table[j].0)
    ensures table[j].1 in InferredDomains(repos, bio, table)
  {
    TableHitsMember(Lower(OrEmpty(bio)), table, table[j].1);
    FiredFromBio(repos, bio, table, table[j].1);
    InferredIffFired(repos, bio, table, table[j].1);
  }

  /** A table entry whose key appears in a repository's lower-cased name and description adds its domain. */
  lemma RepoKeyword(repos: seq<Repo>, bio: Option<string>, table: seq<(string, string)>, i: int, j: int)
    requires 0 <= i < |repos| && 0 <= j < |table|
    requires Contains(RepoText(repos[i]), table[j].0)
    ensures table[j].1 in InferredDomains(repos, bio, table)
  {
    TableHitsMember(RepoText(repos[i]), table, table[j].1);
    FiredFromRepo(repos, bio, table, i, table[j].1);
    InferredIffFired(repos, bio, table, table[j].1);
  }

  /** A Python or Jupyter Notebook repository always yields `机器学习`. */
  lemma PythonRepoIsMachineLearning(repos: seq<Repo>, bio: Option<string>, table: seq<(string, string)>, i: int)
    requires 0 <= i < |repos| && repos[i].language.Some?
    requires Lower(repos[i].language.value) == "python" || Lower(repos[i].language.value) == "jupyter notebook"
    ensures MachineLearning in InferredDomains(repos, bio, table)
  {
    LanguageDomains(repos[i].language);
    FiredFromRepo(repos, bio, table, i, MachineLearning);
    InferredIffFired(repos, bio, table, MachineLearning);
  }

  /** A JavaScript or TypeScript repository always yields `前端开发`. */
  lemma ScriptRepoIsFrontend(repos: seq<Repo>, bio: Option<string>, table: seq<(string, string)>, i: int)
    requires 0 <= i < |repos| && repos[i].language.Some?
    requires Lower(repos[i].language.value) == "javascript" || Lower(repos[i].language.value) == "typescript"
    ensures Frontend in InferredDomains(repos, bio, table)
  {
    LanguageDomains(repos[i].language);
    FiredFromRepo(repos, bio, table, i, Frontend);
    InferredIffFired(repos, bio, table, Frontend);
  }

  // ---------------------------------------------------------------------
  // CSV text

  /** The fields of a member that `convertToCSV` writes. */
  datatype Member = Member(id: string, name: Option<string>, login: string, github: string, domains: seq<string>)

  const CsvHeader: string := "id,name,github,domain"

  /** `member.name || member.login` */
  function DisplayName(m: Member): string
  {
    if m.name.Some? && m.name.value != "" then m.name.value else m.login
  }

  /** `"${...}"`: double quotes around the text, nothing escaped. */
  function Quote(s: string): string
  {
    "\"" + s + "\""
  }

  /** One member's line. */
  function CsvRow(m: Member): string
  {
    Join([m.id, Quote(DisplayName(m)), Quote(m.github), Quote(Join(m.domains, ";"))], ",")
  }

  /** The lines of the file: the header, then one per member. */
  function CsvLines(members: seq<Member>): (lines: seq<string>)
    ensures |lines| == |members| + 1
  {
    [CsvHeader] + seq(|members|, i requires 0 <= i < |members| => CsvRow(members[i]))
  }

  /** `convertToCSV(members)` */
  method ConvertToCsv(members: seq<Member>) returns (csv: string)
    ensures csv == Join(CsvLines(members), "\n")
  {
    var headers := ["id", "name", "github", "domain"];
    var rows := [Join(headers, ",")];
    assert Join(headers, ",") == CsvHeader;
    assert CsvLines(members[..0]) == [CsvHeader];
    var i := 0;
    while i < |members|
      invariant 0 <= i <= |members|
      invariant rows == CsvLines(members[..i])
    {
      var m := members[i];
      var row := [m.id, "\"" + DisplayName(m) + "\"", "\"" + m.github + "\"", "\"" + Join(m.domains, ";") + "\""];
      rows := rows + [Join(row, ",")];
      i := i + 1;
    }
    assert members[..|members|] == members;
    csv := Join(rows, "\n");
  }

  /** A member whose fields hold no line break. */
  predicate SingleLine(m: Member)
  {
    '\n' !in m.id && '\n' !in DisplayName(m) && '\n' !in m.github &&
    forall k :: 0 <= k < |m.domains| ==> '\n' !in m.domains[k]
  }

  /** A join of parts without a character has no such character. */
  lemma {:induction false} JoinLacks(parts: seq<string>, sep: string, c: char)
    requires c !in sep
    requires forall k :: 0 <= k < |parts| ==> c !in parts[k]
    ensures c !in Join(parts, sep)
    decreases |parts|
  {
    if |parts| > 1 {
      JoinLacks(parts[1..], sep, c);
    }
  }

  lemma RowIsSingleLine(m: Member)
    requires SingleLine(m)
    ensures '\n' !in CsvRow(m)
  {
    JoinLacks(m.domains, ";", '\n');
    JoinLacks([m.id, Quote(DisplayName(m)), Quote(m.github), Quote(Join(m.domains, ";"))], ",", '\n');
  }

  /**
   * Reading the text back line by line gives the header and then each
   * member's row, in order, as long as no field holds a line break.
   */
  lemma CsvLinesRoundTrip(members: seq<Member>)
    requires forall i :: 0 <= i < |members| ==> SingleLine(members[i])
    ensures Split(Join(CsvLines(members), "\n"), "\n") == CsvLines(members)
  {
    var lines := CsvLines(members);
    forall k | 0 <= k < |lines|
      ensures '\n' !in lines[k]
    {
      if k > 0 {
        RowIsSingleLine(members[k - 1]);
      }
    }
    SplitJoinRoundTrip(lines, '\n');
  }

  /** The text never ends with a line break: the last line is the header or a row ending in a quote. */
  lemma NoTrailingNewline(members: seq<Member>)
    ensures var csv := Join(CsvLines(members), "\n"); csv != [] && csv[|csv| - 1] != '\n'
  {
    var lines := CsvLines(members);
    JoinEndsWithLast(lines, "\n");
    var last := lines[|lines| - 1];
    if members == [] {
      assert last == CsvHeader;
    } else {
      var m := members[|members| - 1];
      var parts := [m.id, Quote(DisplayName(m)), Quote(m.github), Quote(Join(m.domains, ";"))];
      JoinEndsWithLast(parts, ",");
      assert last == CsvRow(m);
      assert last[|last| - 1] == '"';
    }
  }
}
