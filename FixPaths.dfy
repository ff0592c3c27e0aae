/**
 * scripts/fix-paths.js: the chain of global literal replacements that
 * `fixPaths` applies to the text of every built HTML file. The directory
 * walk and the file reads and writes are not part of this model.
 */
module FixPaths {
  import opened Strings
  import opened Collections

  /** `BASE_PATH` */
  const BasePath: string := "/members-visualization"

  /** `BASE_PATH` without its leading slash. */
  const Name: string := "members-visualization"

  /** The patterns and replacements of the three rules the properties below are about. */
  const SrcAssets: string := "src=\"/assets/"
  const SrcAssetsFixed: string := "src=\"" + BasePath + "/assets/"
  const Assets: string := "/assets/"
  const AssetsFixed: string := BasePath + "/assets/"
  const BaseEntry: string := "\"base\":\"/\""
  const BaseEntryFixed: string := "\"base\":\"" + BasePath + "/\""

  /**
   * The fifteen `.replace(/pattern/g, replacement)` calls, in order. Each
   * regular expression is a literal (its escapes only quote `/` and `.`).
   */
  const Rules: seq<(string, string)> := [
    ("href=\"/assets/", "href=\"" + BasePath + "/assets/"),
    ("href=\"/vp-icons.css\"", "href=\"" + BasePath + "/vp-icons.css\""),
    (SrcAssets, SrcAssetsFixed),
    ("href=\"/assets/inter-", "href=\"" + BasePath + "/assets/inter-"),
    ("href=\"/assets/chunks/", "href=\"" + BasePath + "/assets/chunks/"),
    ("href=\"/logo.svg\"", "href=\"" + BasePath + "/logo.svg\""),
    ("src=\"/logo.svg\"", "src=\"" + BasePath + "/logo.svg\""),
    ("\"/logo.svg\"", "\"" + BasePath + "/logo.svg\""),
    ("href=\"/favicon.ico\"", "href=\"" + BasePath + "/favicon.ico\""),
    ("/favicon.ico", BasePath + "/favicon.ico"),
    ("/data/members.csv", BasePath + "/data/members.csv"),
    ("const basePath = import.meta.env.BASE_URL || '/'", "const basePath = '" + BasePath + "/'"),
    (Assets, AssetsFixed),
    ("/hashmap.json", BasePath + "/hashmap.json"),
    (BaseEntry, BaseEntryFixed)
  ]

  /** Every pattern is non-empty, as a literal regular expression must be here. */
  predicate ValidRules(rules: seq<(string, string)>)
  {
    forall i :: 0 <= i < |rules| ==> |rules[i].0| > 0
  }

  /** Applies the rules in order, each to the previous rule's output. */
  function ApplyRules(rules: seq<(string, string)>, content: string): string
    requires ValidRules(rules)
    decreases |rules|
  {
    if rules == [] then content
    else ApplyRules(rules[1..], ReplaceAll(content, rules[0].0, rules[0].1))
  }

  /** The rewritten text of one HTML file. */
  function FixContent(content: string): string
  {
    ApplyRules(Rules, content)
  }

  /** Applying a chain is applying its first part and then the rest. */
  lemma {:induction false} ApplyRulesAppend(a: seq<(string, string)>, b: seq<(string, string)>, content: string)
    requires ValidRules(a) && ValidRules(b)
    ensures ValidRules(a + b)
    ensures ApplyRules(a + b, content) == ApplyRules(b, ApplyRules(a, content))
    decreases |a|
  {
    if a != [] {
      assert (a + b)[1..] == a[1..] + b;
      ApplyRulesAppend(a[1..], b, ReplaceAll(content, a[0].0, a[0].1));
    } else {
      assert a + b == b;
    }
  }

  /** Text containing none of the patterns comes back unchanged. */
  lemma {:induction false} ApplyRulesNoPattern(rules: seq<(string, string)>, content: string)
    requires ValidRules(rules)
    requires forall i :: 0 <= i < |rules| ==> !Contains(content, rules[i].0)
    ensures ApplyRules(rules, content) == content
    decreases |rules|
  {
    if rules != [] {
      ReplaceAllAbsent(content, rules[0].0, rules[0].1);
      ApplyRulesNoPattern(rules[1..], content);
    }
  }

  lemma FixContentNoPattern(content: string)
    requires forall i :: 0 <= i < |Rules| ==> !Contains(content, Rules[i].0)
    ensures FixContent(content) == content
  {
    ApplyRulesNoPattern(Rules, content);
  }

  /** Each rule replaces every non-overlapping occurrence of its pattern, left to right. */
  lemma EachRuleIsSplitJoin(content: string, i: int)
    requires 0 <= i < |Rules|
    ensures ReplaceAll(content, Rules[i].0, Rules[i].1) == Join(Split(content, Rules[i].0), Rules[i].1)
  {
    ReplaceAllIsSplitJoin(content, Rules[i].0, Rules[i].1);
  }

  /** Rule `i` leaves text that lacks one of its pattern's characters alone. */
  lemma SkipRule(i: nat, content: string, c: char)
    requires i < |Rules| && c in Rules[i].0 && c !in content
    ensures ApplyRules(Rules[i..], content) == ApplyRules(Rules[i + 1..], content)
  {
    MissingCharNotContained(content, Rules[i].0, c);
    ReplaceAllAbsent(content, Rules[i].0, Rules[i].1);
    assert Rules[i..][1..] == Rules[i + 1..];
  }

  /** Rule `i` turns `content` into `next`. */
  lemma ApplyRule(i: nat, content: string, next: string)
    requires i < |Rules| && ReplaceAll(content, Rules[i].0, Rules[i].1) == next
    ensures ApplyRules(Rules[i..], content) == ApplyRules(Rules[i + 1..], next)
  {
    assert Rules[i..][1..] == Rules[i + 1..];
  }

  /** The rules the properties below are about, by position. */
  lemma NamedRules()
    ensures Rules[2] == (SrcAssets, SrcAssetsFixed)
    ensures Rules[12] == (Assets, AssetsFixed)
    ensures Rules[14] == (BaseEntry, BaseEntryFixed)
  {
  }

  /** A character of each pattern, for skipping rules that cannot match. */
  lemma PatternCharsHead()
    ensures 'h' in Rules[0].0 && 'h' in Rules[1].0 && 't' in Rules[2].0 && '=' in Rules[2].0
  {
  }

  lemma PatternCharsAssets()
    ensures 'h' in Rules[3].0 && 'h' in Rules[4].0 && 'h' in Rules[5].0 && 'g' in Rules[6].0
  {
  }

  lemma PatternCharsLogo()
    ensures 'g' in Rules[7].0 && 'h' in Rules[8].0 && 'f' in Rules[9].0 && 'd' in Rules[10].0
  {
  }

  lemma PatternCharsTail()
    ensures 'p' in Rules[11].0 && 't' in Rules[12].0 && 'h' in Rules[13].0 && ':' in Rules[14].0
  {
  }

  /** None of the characters that let the examples below skip a rule occurs in `tail`. */
  predicate PlainTail(tail: string)
  {
    '/' !in tail && 'h' !in tail && 'g' !in tail && 'f' !in tail && 'd' !in tail &&
    'p' !in tail && 'r' !in tail && ':' !in tail && '=' !in tail
  }

  /** `k` copies of `s` one after the other. */
  function Repeat(s: string, k: nat): (r: string)
    ensures |r| == k * |s|
  {
    if k == 0 then [] else s + Repeat(s, k - 1)
  }

  lemma {:induction false} RepeatLacks(s: string, k: nat, c: char)
    requires c !in s
    ensures c !in Repeat(s, k)
  {
    if k > 0 {
      RepeatLacks(s, k - 1, c);
    }
  }

  /** A path after `k` base-path prefixes, with `pre` (nothing, or `src="`) in front. */
  function Prefixed(pre: string, k: nat, tail: string): string
  {
    pre + (Repeat(BasePath, k) + (Assets + tail))
  }

  /** A character missing from every piece of a prefixed path is missing from it. */
  lemma PrefixedLacks(pre: string, k: nat, tail: string, c: char)
    requires c !in pre && c !in BasePath && c !in Assets && c !in tail
    ensures c !in Prefixed(pre, k, tail)
  {
    RepeatLacks(BasePath, k, c);
  }

  /** Characters missing from the base path and from `/assets/`. */
  lemma BasePathChars()
    ensures 'h' !in BasePath && 'g' !in BasePath && 'f' !in BasePath && 'd' !in BasePath
  {
  }

  lemma BasePathMoreChars()
    ensures 'p' !in BasePath && ':' !in BasePath && '=' !in BasePath
  {
  }

  lemma AssetsChars()
    ensures 'h' !in Assets && 'g' !in Assets && 'f' !in Assets && 'd' !in Assets
    ensures 'p' !in Assets && ':' !in Assets && '=' !in Assets
  {
  }

  lemma PieceChars()
    ensures 'h' !in BasePath && 'g' !in BasePath && 'f' !in BasePath && 'd' !in BasePath
    ensures 'p' !in BasePath && ':' !in BasePath && '=' !in BasePath
    ensures 'h' !in Assets && 'g' !in Assets && 'f' !in Assets && 'd' !in Assets
    ensures 'p' !in Assets && ':' !in Assets && '=' !in Assets
  {
    BasePathChars();
    BasePathMoreChars();
    AssetsChars();
  }

  /** Characters that a prefixed path lacks. */
  lemma PrefixedChars(pre: string, k: nat, tail: string)
    requires PlainTail(tail) && (pre == "" || pre == "src=\"")
    ensures var x := Prefixed(pre, k, tail);
      'h' !in x && 'g' !in x && 'f' !in x && 'd' !in x && 'p' !in x && ':' !in x
  {
    PieceChars();
    assert 'h' !in pre && 'g' !in pre && 'f' !in pre && 'd' !in pre && 'p' !in pre && ':' !in pre;
    PrefixedLacks(pre, k, tail, 'h');
    PrefixedLacks(pre, k, tail, 'g');
    PrefixedLacks(pre, k, tail, 'f');
    PrefixedLacks(pre, k, tail, 'd');
    PrefixedLacks(pre, k, tail, 'p');
    PrefixedLacks(pre, k, tail, ':');
  }

  lemma {:induction false} RepeatSnoc(s: string, k: nat)
    ensures Repeat(s, k + 1) == Repeat(s, k) + s
  {
    if k > 0 {
      RepeatSnoc(s, k - 1);
    }
  }

  /** A rule whose pattern starts the text, and does not occur in the rest, fires once. */
  lemma ReplaceOnceAtHead(p: string, r: string, tail: string, c: char)
    requires |p| > 0 && c in p && c !in tail
    ensures ReplaceAll(p + tail, p, r) == r + tail
  {
    ReplaceAllAtHead(p, tail, r);
    MissingCharNotContained(tail, p, c);
    ReplaceAllAbsent(tail, p, r);
  }

  /** Rule 3 (`src="/assets/`) prefixes the path once. */
  lemma SrcAssetsRule(tail: string)
    requires PlainTail(tail)
    ensures ReplaceAll(SrcAssets + tail, SrcAssets, SrcAssetsFixed) == Prefixed("src=\"", 1, tail)
  {
    assert 'r' in SrcAssets;
    ReplaceOnceAtHead(SrcAssets, SrcAssetsFixed, tail, 'r');
    assert Repeat(BasePath, 1) == BasePath;
    ConcatAssoc("src=\"", BasePath, Assets);
    ConcatAssoc("src=\"", BasePath + Assets, tail);
    ConcatAssoc(BasePath, Assets, tail);
  }

  lemma BaseSlash()
    ensures BasePath == ['/'] + Name && Assets[0] !in Name && Assets[1] != Name[0]
  {
  }

  /**
   * Replacing a pattern that starts with `/` followed by anything but the
   * first character of `n` copies copies of `/` + `n` unchanged.
   */
  lemma {:induction false} ReplaceSkipsRepeat(b: string, n: string, k: nat, t: string, p: string, r: string)
    requires b == ['/'] + n && |n| > 0 && |p| >= 2 && p[0] == '/' && p[0] !in n && n[0] != p[1]
    ensures ReplaceAll(Repeat(b, k) + t, p, r) == Repeat(b, k) + ReplaceAll(t, p, r)
  {
    if k == 0 {
      assert Repeat(b, k) + t == t;
    } else {
      var rest := Repeat(b, k - 1) + t;
      var done := ReplaceAll(t, p, r);
      ReplaceSkipsRepeat(b, n, k - 1, t, p, r);
      assert Repeat(b, k) + t == ['/'] + (n + rest);
      assert (['/'] + (n + rest))[1] == n[0];
      ReplaceAllSkipChar('/', n + rest, p, r);
      ReplaceAllSkipFree(n, rest, p, r);
      assert ['/'] + (n + (Repeat(b, k - 1) + done)) == Repeat(b, k) + done;
    }
  }

  /** The generic `/assets/` rule copies any number of base-path prefixes unchanged. */
  lemma AssetsRuleSkipsBase(k: nat, t: string)
    ensures ReplaceAll(Repeat(BasePath, k) + t, Assets, AssetsFixed)
         == Repeat(BasePath, k) + ReplaceAll(t, Assets, AssetsFixed)
  {
    BaseSlash();
    ReplaceSkipsRepeat(BasePath, Name, k, t, Assets, AssetsFixed);
  }

  /** The generic `/assets/` rule adds one more base-path prefix to a prefixed `/assets/` path. */
  lemma AssetsRule(pre: string, k: nat, tail: string)
    requires PlainTail(tail) && (pre == "" || pre == "src=\"")
    ensures ReplaceAll(Prefixed(pre, k, tail), Assets, AssetsFixed) == Prefixed(pre, k + 1, tail)
  {
    assert Assets[0] !in pre;
    ReplaceAllSkipFree(pre, Repeat(BasePath, k) + (Assets + tail), Assets, AssetsFixed);
    AssetsRuleSkipsBase(k, Assets + tail);
    ReplaceAllAtHead(Assets, tail, AssetsFixed);
    MissingCharNotContained(tail, Assets, '/');
    ReplaceAllAbsent(tail, Assets, AssetsFixed);
    RepeatSnoc(BasePath, k);
    assert AssetsFixed == BasePath + Assets;
    ConcatAssoc(Repeat(BasePath, k), BasePath, Assets + tail);
    ConcatAssoc(BasePath, Assets, tail);
    ConcatAssoc(Repeat(BasePath, k), BasePath + Assets, tail);
  }

  /** Rules 4 to 6 (`href="/assets/...`, `href="/logo.svg"`) leave text without an `h` alone. */
  lemma SkipHrefRules(x: string)
    requires 'h' !in x
    ensures ApplyRules(Rules[3..], x) == ApplyRules(Rules[6..], x)
  {
    PatternCharsAssets();
    SkipRule(3, x, 'h');
    SkipRule(4, x, 'h');
    SkipRule(5, x, 'h');
  }

  /** Rules 7 to 10 (logo and favicon paths) leave text without `g`, `h` and `f` alone. */
  lemma SkipLogoRules(x: string)
    requires 'g' !in x && 'h' !in x && 'f' !in x
    ensures ApplyRules(Rules[6..], x) == ApplyRules(Rules[10..], x)
  {
    PatternCharsAssets();
    PatternCharsLogo();
    SkipRule(6, x, 'g');
    SkipRule(7, x, 'g');
    SkipRule(8, x, 'h');
    SkipRule(9, x, 'f');
  }

  /** Rules 11 and 12 (`/data/members.csv`, the `basePath` line) leave text without `d` and `p` alone. */
  lemma SkipDataRules(x: string)
    requires 'd' !in x && 'p' !in x
    ensures ApplyRules(Rules[10..], x) == ApplyRules(Rules[12..], x)
  {
    PatternCharsLogo();
    PatternCharsTail();
    SkipRule(10, x, 'd');
    SkipRule(11, x, 'p');
  }

  /** Rules 14 and 15 (`/hashmap.json`, `"base":"/"`) leave text without `h` and `:` alone. */
  lemma SkipLastRules(y: string)
    requires 'h' !in y && ':' !in y
    ensures ApplyRules(Rules[13..], y) == y
  {
    PatternCharsTail();
    SkipRule(13, y, 'h');
    SkipRule(14, y, ':');
    assert Rules[15..] == [];
  }

  /**
   * The chain from rule 4 on, over a path that already carries `k`
   * base-path prefixes: the generic `/assets/` rule adds one more.
   */
  lemma ChainOnPrefixed(pre: string, k: nat, tail: string)
    requires PlainTail(tail) && (pre == "" || pre == "src=\"")
    ensures ApplyRules(Rules[3..], Prefixed(pre, k, tail)) == Prefixed(pre, k + 1, tail)
  {
    var x := Prefixed(pre, k, tail);
    var y := Prefixed(pre, k + 1, tail);
    PrefixedChars(pre, k, tail);
    PrefixedChars(pre, k + 1, tail);
    SkipHrefRules(x);
    SkipLogoRules(x);
    SkipDataRules(x);
    NamedRules();
    AssetsRule(pre, k, tail);
    ApplyRule(12, x, y);
    SkipLastRules(y);
  }

  /** Rules 1 and 2 (`href="/assets/`, `href="/vp-icons.css"`) leave text without an `h` alone. */
  lemma SkipHrefHead(x: string)
    requires 'h' !in x
    ensures FixContent(x) == ApplyRules(Rules[2..], x)
  {
    PatternCharsHead();
    assert Rules[0..] == Rules;
    SkipRule(0, x, 'h');
    SkipRule(1, x, 'h');
  }

  /**
   * The `src="/assets/` rule prefixes the path, and the generic `/assets/`
   * rule then matches the rewritten text again: `src="/assets/a.js"` comes
   * out with the base path twice.
   */
  lemma SrcAssetsDoublePrefix(tail: string)
    requires PlainTail(tail)
    ensures FixContent(SrcAssets + tail) == "src=\"" + (BasePath + (BasePath + (Assets + tail)))
  {
    var x0 := SrcAssets + tail;
    var x1 := Prefixed("src=\"", 1, tail);
    assert 'h' !in SrcAssets;
    SkipHrefHead(x0);
    NamedRules();
    SrcAssetsRule(tail);
    ApplyRule(2, x0, x1);
    ChainOnPrefixed("src=\"", 1, tail);
    assert Repeat(BasePath, 2) == BasePath + BasePath;
    ConcatAssoc(BasePath, BasePath, Assets + tail);
  }

  /** One pass of the chain over a bare `/assets/` path prefixes it once more. */
  lemma ChainOnBareAssets(k: nat, tail: string)
    requires PlainTail(tail)
    ensures FixContent(Prefixed("", k, tail)) == Prefixed("", k + 1, tail)
  {
    var x := Prefixed("", k, tail);
    PrefixedChars("", k, tail);
    PieceChars();
    PrefixedLacks("", k, tail, '=');
    SkipHrefHead(x);
    PatternCharsHead();
    SkipRule(2, x, '=');
    ChainOnPrefixed("", k, tail);
  }

  /** Running the chain over its own output changes it again: the chain is not idempotent. */
  lemma FixContentNotIdempotent(tail: string)
    requires PlainTail(tail)
    ensures FixContent(FixContent(Assets + tail)) != FixContent(Assets + tail)
  {
    ChainOnBareAssets(0, tail);
    ChainOnBareAssets(1, tail);
    assert Prefixed("", 0, tail) == Assets + tail;
  }

  /** Characters that the two-entry text below lacks. */
  lemma BaseExampleChars(x: string)
    requires x == BaseEntry + BaseEntry[1..]
    ensures 'h' !in x && 't' !in x && 'g' !in x && 'f' !in x && 'd' !in x && 'p' !in x
  {
  }

  /** The last rule replaces the first of two overlapping entries and leaves the rest. */
  lemma BaseEntryRule(t: string)
    requires t == BaseEntry[1..]
    ensures ReplaceAll(BaseEntry + t, BaseEntry, BaseEntryFixed) == BaseEntryFixed + t
  {
    ReplaceAllAtHead(BaseEntry, t, BaseEntryFixed);
    ShortNotContained(t, BaseEntry);
    ReplaceAllAbsent(t, BaseEntry, BaseEntryFixed);
  }

  /** The first fourteen rules leave text without `h`, `t`, `g`, `f`, `d` and `p` alone. */
  lemma SkipAllButLast(x: string)
    requires 'h' !in x && 't' !in x && 'g' !in x && 'f' !in x && 'd' !in x && 'p' !in x
    ensures FixContent(x) == ApplyRules(Rules[14..], x)
  {
    SkipHrefHead(x);
    PatternCharsHead();
    PatternCharsTail();
    SkipRule(2, x, 't');
    SkipHrefRules(x);
    SkipLogoRules(x);
    SkipDataRules(x);
    SkipRule(12, x, 't');
    SkipRule(13, x, 'h');
  }

  /**
   * A `"base":"/"` entry can survive the chain: the replacement of the
   * first occurrence ends with the quote that starts a second one.
   */
  lemma BaseEntryCanRemain()
    ensures Contains(FixContent(BaseEntry + BaseEntry[1..]), BaseEntry)
  {
    var t := BaseEntry[1..];
    var x := BaseEntry + t;
    BaseExampleChars(x);
    SkipAllButLast(x);
    NamedRules();
    BaseEntryRule(t);
    ApplyRule(14, x, BaseEntryFixed + t);
    assert Rules[15..] == [];
    var front := "\"base\":\"" + BasePath + "/";
    assert BaseEntryFixed == front + BaseEntry[..1];
    ConcatAssoc(front, BaseEntry[..1], t);
    assert BaseEntry[..1] + t == BaseEntry;
    ContainsAppended(front, BaseEntry);
  }
}
