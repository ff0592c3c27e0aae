/**
 * scripts/fetch-members.py: the research-domain guess `infer_domains_from_repos`.
 * The domain table (`CONFIG['DEFAULT_DOMAINS']`) is matched against the
 * lower-cased bio, the joined topics and the joined repository names; the
 * compound keyword rules are matched against the topics text when it is not
 * blank and against the repository-name text otherwise.
 *
 * The result is built from a Python `set`, so only its contents are
 * specified: the list has no duplicates and holds exactly the domains that
 * fired, or `数据科学` alone when none did.
 */
module MemberDomains {
  import opened Wrappers
  import opened Strings
  import opened Collections

  /** `CONFIG['DEFAULT_DOMAINS']`, in insertion order: keyword to domain. */
  const DomainTable: seq<(string, string)> := [
    ("machine-learning", "机器学习"),
    ("deep-learning", "深度学习"),
    ("nlp", "NLP"),
    ("cv", "CV"),
    ("data-mining", "数据挖掘"),
    ("recommendation-system", "推荐系统"),
    ("reinforcement-learning", "强化学习"),
    ("computer-vision", "CV"),
    ("natural-language-processing", "NLP"),
    ("artificial-intelligence", "人工智能"),
    ("llm", "LLM"),
    ("data-science", "数据科学"),
    ("frontend", "前端开发"),
    ("backend", "后端开发"),
    ("fullstack", "全栈开发"),
    ("bigdata", "大数据")
  ]

  /** One `if any(keyword in search_text for keyword in [...]): domains.add(...)` statement. */
  datatype Rule = Rule(keywords: seq<string>, domain: string)

  /** The twelve compound rules, in program order. */
  const CompoundRules: seq<Rule> := [
    Rule(["ml", "machine-learning", "sklearn"], "机器学习"),
    Rule(["dl", "deep-learning", "pytorch", "tensorflow"], "深度学习"),
    Rule(["nlp", "natural-language", "bert", "transformer"], "NLP"),
    Rule(["recommendation", "recommendation-system", "ctr-prediction", "recommender-system"], "推荐系统"),
    Rule(["cv", "computer-vision", "opencv", "image", "yolo"], "CV"),
    Rule(["web", "frontend", "react", "vue", "javascript"], "前端开发"),
    Rule(["gpt", "llm", "chatbot", "llama"], "LLM"),
    Rule(["rag", "retrieval-augmented-generation", "retrieval-augmented"], "RAG"),
    Rule(["database", "sql", "nosql", "mongodb", "mysql"], "数据库开发"),
    Rule(["reinforcement-learning", "rl", "reinforcement"], "强化学习"),
    Rule(["hive", "spark", "hadoop"], "大数据"),
    Rule(["competition"], "数据竞赛")
  ]

  /** The domain used when nothing matched. */
  const DataScience: string := "数据科学"

  /** A user repository as the function reads it: its `topics`, `None` when the key is absent or the value is null. */
  datatype UserRepo = UserRepo(topics: Option<seq<string>>)

  // ---------------------------------------------------------------------
  // The texts

  /** `(user_bio or '').lower()` */
  function BioText(bio: Option<string>): string
  {
    Lower(if bio.Some? then bio.value else "")
  }

  /** `all_topics`: the topics of every repository that has some, in order. */
  function AllTopics(userRepos: seq<UserRepo>): seq<string>
    decreases |userRepos|
  {
    if userRepos == [] then []
    else
      var r := userRepos[|userRepos| - 1];
      AllTopics(userRepos[..|userRepos| - 1]) + (if r.topics.Some? then r.topics.value else [])
  }

  /** `' '.join(all_topics).lower()` */
  function TopicsText(userRepos: seq<UserRepo>): string
  {
    Lower(Join(AllTopics(userRepos), " "))
  }

  /** `' '.join(repo_names).lower()` */
  function RepoText(repoNames: seq<string>): string
  {
    Lower(Join(repoNames, " "))
  }

  /** `topics_text if topics_text.strip() else repo_text` */
  function SearchText(repoNames: seq<string>, userRepos: seq<UserRepo>): string
  {
    var topics := TopicsText(userRepos);
    if !IsPyBlank(topics) then topics else RepoText(repoNames)
  }

  // ---------------------------------------------------------------------
  // The rules

  /** `key in text or value.lower() in text` */
  predicate EntryMatches(text: string, entry: (string, string))
  {
    Contains(text, entry.0) || Contains(text, Lower(entry.1))
  }

  /** The domains of the table entries that match `text`. */
  function TableSet(text: string, table: seq<(string, string)>): set<string>
    decreases |table|
  {
    if table == [] then {}
    else
      var n := |table| - 1;
      TableSet(text, table[..n]) + (if EntryMatches(text, table[n]) then {table[n].1} else {})
  }

  /** `any(keyword in text for keyword in keywords)` */
  predicate AnyContained(text: string, keywords: seq<string>)
  {
    exists k :: 0 <= k < |keywords| && Contains(text, keywords[k])
  }

  /** The domains of the compound rules that fire on `text`. */
  function RuleSet(text: string, rules: seq<Rule>): set<string>
    decreases |rules|
  {
    if rules == [] then {}
    else
      var n := |rules| - 1;
      RuleSet(text, rules[..n]) + (if AnyContained(text, rules[n].keywords) then {rules[n].domain} else {})
  }

  /** Every domain some rule added, before the default is considered. */
  function Matched(repoNames: seq<string>, bio: Option<string>, userRepos: seq<UserRepo>,
                   table: seq<(string, string)>, rules: seq<Rule>): set<string>
  {
    TableSet(BioText(bio), table) + TableSet(TopicsText(userRepos), table) + TableSet(RepoText(repoNames), table)
      + RuleSet(SearchText(repoNames, userRepos), rules)
  }

  /** The contents of the returned list. */
  function Inferred(repoNames: seq<string>, bio: Option<string>, userRepos: seq<UserRepo>,
                    table: seq<(string, string)>, rules: seq<Rule>): (r: set<string>)
    ensures r != {}
  {
    var m := Matched(repoNames, bio, userRepos, table, rules);
    if m == {} then {DataScience} else m
  }

  // ---------------------------------------------------------------------
  // The function, statement by statement

  /** One `for key, value in CONFIG['DEFAULT_DOMAINS'].items()` loop. */
  method AddTableMatches(domains: set<string>, text: string, table: seq<(string, string)>) returns (out: set<string>)
    ensures out == domains + TableSet(text, table)
  {
    out := domains;
    var j := 0;
    while j < |table|
      invariant 0 <= j <= |table|
      invariant out == domains + TableSet(text, table[..j])
    {
      assert table[..j + 1][..j] == table[..j];
      var (key, value) := table[j];
      if Contains(text, key) || Contains(text, Lower(value)) {
        out := out + {value};
      }
      j := j + 1;
    }
    assert table[..|table|] == table;
  }

  /** The twelve compound `if` statements, in order. */
  method AddRuleMatches(domains: set<string>, text: string, rules: seq<Rule>) returns (out: set<string>)
    ensures out == domains + RuleSet(text, rules)
  {
    out := domains;
    var j := 0;
    while j < |rules|
      invariant 0 <= j <= |rules|
      invariant out == domains + RuleSet(text, rules[..j])
    {
      assert rules[..j + 1][..j] == rules[..j];
      if AnyContained(text, rules[j].keywords) {
        out := out + {rules[j].domain};
      }
      j := j + 1;
    }
    assert rules[..|rules|] == rules;
  }

  /** The `all_topics.extend(topics)` loop. */
  method CollectTopics(userRepos: seq<UserRepo>) returns (allTopics: seq<string>)
    ensures allTopics == AllTopics(userRepos)
  {
    allTopics := [];
    var i := 0;
    while i < |userRepos|
      invariant 0 <= i <= |userRepos|
      invariant allTopics == AllTopics(userRepos[..i])
    {
      assert userRepos[..i + 1][..i] == userRepos[..i];
      var topics := userRepos[i].topics;
      if topics.Some? && topics.value != [] {
        allTopics := allTopics + topics.value;
      } else if topics.Some? {
        assert allTopics + topics.value == allTopics;
      }
      i := i + 1;
    }
    assert userRepos[..|userRepos|] == userRepos;
  }

  /** `list(domains)`: every element once, in an order this model leaves open. */
  method ListOf(domains: set<string>) returns (list: seq<string>)
    ensures Distinct(list)
    ensures forall x :: x in list <==> x in domains
    ensures |list| == |domains|
  {
    list := [];
    var rest := domains;
    while rest != {}
      invariant rest <= domains
      invariant Distinct(list)
      invariant forall x :: x in list <==> x in domains && x !in rest
      invariant |list| + |rest| == |domains|
      decreases |rest|
    {
      var x :| x in rest;
      list := list + [x];
      rest := rest - {x};
    }
  }

  /**
   * `infer_domains_from_repos(repo_names, user_bio, user_repos)`; the
   * program passes `DomainTable` as `table` and `CompoundRules` as `rules`.
   */
  method InferDomainsFromRepos(repoNames: seq<string>, bio: Option<string>, userRepos: seq<UserRepo>,
                               table: seq<(string, string)>, rules: seq<Rule>)
    returns (result: seq<string>)
    ensures Distinct(result) && result != []
    ensures forall x :: x in result <==> x in Inferred(repoNames, bio, userRepos, table, rules)
    ensures Matched(repoNames, bio, userRepos, table, rules) == {} ==> result == [DataScience]
  {
    var domains: set<string> := {};
    var text := Lower(if bio.Some? then bio.value else "");
    domains := AddTableMatches(domains, text, table);
    var allTopics := CollectTopics(userRepos);
    var topicsText := Lower(Join(allTopics, " "));
    domains := AddTableMatches(domains, topicsText, table);
    var repoText := Lower(Join(repoNames, " "));
    domains := AddTableMatches(domains, repoText, table);
    var searchText := if !IsPyBlank(topicsText) then topicsText else repoText;
    domains := AddRuleMatches(domains, searchText, rules);
    assert domains == Matched(repoNames, bio, userRepos, table, rules);
    if domains == {} {
      domains := {DataScience};
    }
    result := ListOf(domains);
    if domains == {DataScience} {
      assert result[0] in domains;
    }
  }

  // ---------------------------------------------------------------------
  // What the guess promises

  /** A domain is in a table's matches exactly when an entry with that domain matches. */
  lemma {:induction false} TableSetMember(text: string, table: seq<(string, string)>, domain: string)
    ensures domain in TableSet(text, table) <==>
      exists j :: 0 <= j < |table| && table[j].1 == domain && EntryMatches(text, table[j])
    decreases |table|
  {
    if table != [] {
      var n := |table| - 1;
      TableSetMember(text, table[..n], domain);
      assert forall j :: 0 <= j < n ==> table[..n][j] == table[j];
    }
  }

  /** A domain is in the rules' matches exactly when a rule with that domain has a keyword in the text. */
  lemma {:induction false} RuleSetMember(text: string, rules: seq<Rule>, domain: string)
    ensures domain in RuleSet(text, rules) <==>
      exists r :: 0 <= r < |rules| && rules[r].domain == domain && AnyContained(text, rules[r].keywords)
    decreases |rules|
  {
    if rules != [] {
      var n := |rules| - 1;
      RuleSetMember(text, rules[..n], domain);
      assert forall r :: 0 <= r < n ==> rules[..n][r] == rules[r];
    }
  }

  /**
   * The list is exactly `[数据科学]` when no rule added anything other than
   * `数据科学` itself (it is also a table domain, keyed by `data-science`).
   */
  lemma DefaultExactly(repoNames: seq<string>, bio: Option<string>, userRepos: seq<UserRepo>,
                       table: seq<(string, string)>, rules: seq<Rule>)
    ensures Inferred(repoNames, bio, userRepos, table, rules) == {DataScience} <==>
      Matched(repoNames, bio, userRepos, table, rules) <= {DataScience}
  {
    var m := Matched(repoNames, bio, userRepos, table, rules);
    if m != {} && m <= {DataScience} {
      assert m == {DataScience};
    }
  }

  /** A table entry whose keyword or lower-cased domain is in the bio, the topics or the repository names adds its domain. */
  lemma TableEntryAdds(repoNames: seq<string>, bio: Option<string>, userRepos: seq<UserRepo>,
                       table: seq<(string, string)>, rules: seq<Rule>, j: int)
    requires 0 <= j < |table|
    requires EntryMatches(BioText(bio), table[j]) || EntryMatches(TopicsText(userRepos), table[j])
          || EntryMatches(RepoText(repoNames), table[j])
    ensures table[j].1 in Inferred(repoNames, bio, userRepos, table, rules)
  {
    TableSetMember(BioText(bio), table, table[j].1);
    TableSetMember(TopicsText(userRepos), table, table[j].1);
    TableSetMember(RepoText(repoNames), table, table[j].1);
  }

  /** Every reported domain comes from a matching table entry or a firing rule, or is the default. */
  lemma InferredFrom(repoNames: seq<string>, bio: Option<string>, userRepos: seq<UserRepo>,
                     table: seq<(string, string)>, rules: seq<Rule>, domain: string)
    requires domain in Inferred(repoNames, bio, userRepos, table, rules)
    ensures domain == DataScience
         || (exists j :: 0 <= j < |table| && table[j].1 == domain &&
              (EntryMatches(BioText(bio), table[j]) || EntryMatches(TopicsText(userRepos), table[j])
               || EntryMatches(RepoText(repoNames), table[j])))
         || (exists r :: 0 <= r < |rules| && rules[r].domain == domain &&
              AnyContained(SearchText(repoNames, userRepos), rules[r].keywords))
  {
    TableSetMember(BioText(bio), table, domain);
    TableSetMember(TopicsText(userRepos), table, domain);
    TableSetMember(RepoText(repoNames), table, domain);
    RuleSetMember(SearchText(repoNames, userRepos), rules, domain);
  }

  /** When the topics text is not blank, a rule keyword found in the topics adds the rule's domain, whatever the repository names. */
  lemma TopicKeywordAdds(repoNames: seq<string>, bio: Option<string>, userRepos: seq<UserRepo>,
                         table: seq<(string, string)>, rules: seq<Rule>, r: int, k: int)
    requires 0 <= r < |rules| && 0 <= k < |rules[r].keywords|
    requires !IsPyBlank(TopicsText(userRepos))
    requires Contains(TopicsText(userRepos), rules[r].keywords[k])
    ensures rules[r].domain in Inferred(repoNames, bio, userRepos, table, rules)
  {
    RuleSetMember(SearchText(repoNames, userRepos), rules, rules[r].domain);
  }

  /** When the topics text is blank, the rules read the repository names instead. */
  lemma RepoNameKeywordAdds(repoNames: seq<string>, bio: Option<string>, userRepos: seq<UserRepo>,
                            table: seq<(string, string)>, rules: seq<Rule>, r: int, k: int)
    requires 0 <= r < |rules| && 0 <= k < |rules[r].keywords|
    requires IsPyBlank(TopicsText(userRepos))
    requires Contains(RepoText(repoNames), rules[r].keywords[k])
    ensures rules[r].domain in Inferred(repoNames, bio, userRepos, table, rules)
  {
    RuleSetMember(SearchText(repoNames, userRepos), rules, rules[r].domain);
  }

  /** Repositories without topics leave the topics text empty, hence blank. */
  lemma {:induction false} NoTopicsIsBlank(userRepos: seq<UserRepo>)
    requires forall i :: 0 <= i < |userRepos| ==> userRepos[i].topics.None? || userRepos[i].topics.value == []
    ensures TopicsText(userRepos) == [] && IsPyBlank(TopicsText(userRepos))
    decreases |userRepos|
  {
    if userRepos != [] {
      var n := |userRepos| - 1;
      assert forall i :: 0 <= i < n ==> userRepos[..n][i] == userRepos[i];
      NoTopicsIsBlank(userRepos[..n]);
    }
  }

  // ---------------------------------------------------------------------
  // Examples

  /** Topics `nlp` and `bert` give `NLP`, through the table entry keyed `nlp`. */
  lemma NlpTopicsExample(repoNames: seq<string>, bio: Option<string>)
    ensures "NLP" in Inferred(repoNames, bio, [UserRepo(Some(["nlp", "bert"]))], DomainTable, CompoundRules)
  {
    var userRepos := [UserRepo(Some(["nlp", "bert"]))];
    assert AllTopics(userRepos) == ["nlp", "bert"] by {
      assert userRepos[..0] == [];
    }
    var text := TopicsText(userRepos);
    assert text[..3] == "nlp";
    assert DomainTable[2] == ("nlp", "NLP");
    TableEntryAdds(repoNames, bio, userRepos, DomainTable, CompoundRules, 2);
  }

  /** Without topics the rules read the repository names: `deep-learning-pytorch` gives `深度学习`. */
  lemma RepoNamesExample(tail: seq<string>, bio: Option<string>, userRepos: seq<UserRepo>)
    requires forall i :: 0 <= i < |userRepos| ==> userRepos[i].topics.None?
    ensures "深度学习" in Inferred(["deep-learning-pytorch"] + tail, bio, userRepos, DomainTable, CompoundRules)
  {
    var names := ["deep-learning-pytorch"] + tail;
    NoTopicsIsBlank(userRepos);
    var text := RepoText(names);
    JoinStartsWithFirst(names, " ");
    assert text[..13] == "deep-learning";
    assert CompoundRules[1].keywords[1] == "deep-learning";
    RepoNameKeywordAdds(names, bio, userRepos, DomainTable, CompoundRules, 1, 1);
  }
}
