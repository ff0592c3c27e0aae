/**
 * Text helpers shared by every script of the repository: substring search,
 * ASCII lower-casing, whitespace trimming, splitting and joining on a
 * separator, literal replace-all, and decimal numerals.
 *
 * They stand for the Python and JavaScript built-ins the scripts call
 * (`in`, `includes`, `lower`, `toLowerCase`, `strip`, `trim`, `split`,
 * `join`, `replace` with a global literal pattern, `str(int)`).
 */
module Strings {

  /** `p` occurs in `s` as a contiguous piece (Python `p in s`, JavaScript `s.includes(p)`). */
  predicate Contains(s: string, p: string)
    decreases |s|
  {
    p <= s || (|s| > 0 && Contains(s[1..], p))
  }

  /** `p` sits in `s` starting at index `i`. */
  predicate OccursAt(s: string, p: string, i: int)
  {
    0 <= i && i + |p| <= |s| && s[i..i + |p|] == p
  }

  /** The positional reading of `Contains`: `p` sits in `s` at some index. */
  lemma {:induction false} ContainsAt(s: string, p: string)
    ensures Contains(s, p) <==> exists i :: OccursAt(s, p, i)
    decreases |s|
  {
    if p <= s {
      assert OccursAt(s, p, 0);
    } else if |s| > 0 {
      ContainsAt(s[1..], p);
      if exists i :: OccursAt(s, p, i) {
        var i :| OccursAt(s, p, i);
        assert i != 0;
        assert OccursAt(s[1..], p, i - 1);
      }
      if Contains(s[1..], p) {
        var i :| OccursAt(s[1..], p, i);
        assert OccursAt(s, p, i + 1);
      }
    }
  }

  // ---------------------------------------------------------------------
  // Case

  /** ASCII lower-casing of one character; every other character is kept. */
  function LowerChar(c: char): char
  {
    if 'A' <= c <= 'Z' then (c as int + 32) as char else c
  }

  /** Lower-casing of a whole string, character by character. */
  function Lower(s: string): (r: string)
    ensures |r| == |s|
    ensures forall i :: 0 <= i < |s| ==> r[i] == LowerChar(s[i])
  {
    seq(|s|, i requires 0 <= i < |s| => LowerChar(s[i]))
  }

  /** Lower-casing twice is lower-casing once. */
  lemma LowerIdempotent(s: string)
    ensures Lower(Lower(s)) == Lower(s)
  {
  }

  // ---------------------------------------------------------------------
  // Whitespace

  /** The characters Python's `str.strip()` removes. */
  predicate IsPyWhitespace(c: char)
  {
    c == ' ' || c == '\t' || c == '\n' || c == '\r' || c == '\U{B}' || c == '\U{C}'
    || ('\U{1C}' <= c <= '\U{1F}') || c == '\U{85}' || c == '\U{A0}' || c == '\U{1680}'
    || ('\U{2000}' <= c <= '\U{200A}') || c == '\U{2028}' || c == '\U{2029}'
    || c == '\U{202F}' || c == '\U{205F}' || c == '\U{3000}'
  }

  /** The characters JavaScript's `String.prototype.trim()` removes. */
  predicate IsJsWhitespace(c: char)
  {
    c == ' ' || c == '\t' || c == '\n' || c == '\r' || c == '\U{B}' || c == '\U{C}'
    || c == '\U{A0}' || c == '\U{FEFF}' || c == '\U{1680}'
    || ('\U{2000}' <= c <= '\U{200A}') || c == '\U{2028}' || c == '\U{2029}'
    || c == '\U{202F}' || c == '\U{205F}' || c == '\U{3000}'
  }

  /** Python: `s.strip()` is the empty string. */
  predicate IsPyBlank(s: string)
  {
    forall i :: 0 <= i < |s| ==> IsPyWhitespace(s[i])
  }

  /** JavaScript `trimStart`: drops the leading whitespace and nothing else. */
  function TrimStart(s: string): (r: string)
    ensures |r| <= |s|
    ensures forall i :: 0 <= i < |s| - |r| ==> IsJsWhitespace(s[i])
    ensures r == [] || !IsJsWhitespace(r[0])
    decreases |s|
  {
    if s != [] && IsJsWhitespace(s[0]) then TrimStart(s[1..]) else s
  }

  /** JavaScript `trimEnd`: drops the trailing whitespace and nothing else. */
  function TrimEnd(s: string): (r: string)
    ensures |r| <= |s|
    ensures forall i :: |r| <= i < |s| ==> IsJsWhitespace(s[i])
    ensures r == [] || !IsJsWhitespace(r[|r| - 1])
    decreases |s|
  {
    if s != [] && IsJsWhitespace(s[|s| - 1]) then TrimEnd(s[..|s| - 1]) else s
  }

  /** What `trimStart` keeps is a suffix of its input. */
  lemma {:induction false} TrimStartIsSuffix(s: string)
    ensures TrimStart(s) == s[|s| - |TrimStart(s)|..]
    decreases |s|
  {
    if s != [] && IsJsWhitespace(s[0]) {
      TrimStartIsSuffix(s[1..]);
    }
  }

  /** What `trimEnd` keeps is a prefix of its input. */
  lemma {:induction false} TrimEndIsPrefix(s: string)
    ensures TrimEnd(s) == s[..|TrimEnd(s)|]
    decreases |s|
  {
    if s != [] && IsJsWhitespace(s[|s| - 1]) {
      TrimEndIsPrefix(s[..|s| - 1]);
    }
  }

  /** `trim` keeps a contiguous piece of its input, so it adds no character. */
  lemma TrimIsPiece(s: string)
    ensures forall c :: c in Trim(s) ==> c in s
  {
    TrimStartIsSuffix(s);
    TrimEndIsPrefix(TrimStart(s));
    var t := TrimStart(s);
    forall c | c in Trim(s)
      ensures c in s
    {
      var i :| 0 <= i < |Trim(s)| && Trim(s)[i] == c;
      assert t[i] == c;
      assert s[|s| - |t| + i] == c;
    }
  }

  /** JavaScript `trim`. */
  function Trim(s: string): string
  {
    TrimEnd(TrimStart(s))
  }

  /** `trim()` is empty exactly when every character is whitespace. */
  lemma TrimEmptyIffBlank(s: string)
    ensures Trim(s) == [] <==> forall i :: 0 <= i < |s| ==> IsJsWhitespace(s[i])
  {
    var t := TrimStart(s);
    TrimStartIsSuffix(s);
    if Trim(s) == [] {
      assert t == [];
    }
  }

  /** Trimming a trimmed string changes nothing. */
  lemma TrimIdempotent(s: string)
    ensures Trim(Trim(s)) == Trim(s)
  {
    var r := Trim(s);
    TrimEndIsPrefix(TrimStart(s));
    if r != [] {
      assert TrimStart(r) == r;
      assert TrimEnd(r) == r;
    }
  }

  // ---------------------------------------------------------------------
  // Split, join, replace-all

  /**
   * `s.split(sep)` in both languages: the pieces between the non-overlapping
   * occurrences of `sep`, found left to right; always at least one piece.
   */
  function Split(s: string, sep: string): (parts: seq<string>)
    requires |sep| > 0
    ensures |parts| >= 1
    decreases |s|
  {
    if s == [] then [[]]
    else if sep <= s then [[]] + Split(s[|sep|..], sep)
    else
      var rest := Split(s[1..], sep);
      [[s[0]] + rest[0]] + rest[1..]
  }

  /** `sep.join(parts)` in Python, `parts.join(sep)` in JavaScript. */
  function Join(parts: seq<string>, sep: string): string
    decreases |parts|
  {
    if |parts| == 0 then []
    else if |parts| == 1 then parts[0]
    else parts[0] + sep + Join(parts[1..], sep)
  }

  /**
   * `s.replace(/p/g, r)` for a literal pattern `p`: every non-overlapping
   * occurrence, scanning left to right, is replaced by `r`.
   */
  function ReplaceAll(s: string, p: string, r: string): string
    requires |p| > 0
    decreases |s|
  {
    if s == [] then []
    else if p <= s then r + ReplaceAll(s[|p|..], p, r)
    else [s[0]] + ReplaceAll(s[1..], p, r)
  }

  /** A join starts with its first part. */
  lemma JoinStartsWithFirst(parts: seq<string>, sep: string)
    requires |parts| >= 1
    ensures parts[0] <= Join(parts, sep)
  {
  }

  lemma JoinConsHead(c: char, parts: seq<string>, sep: string)
    requires |parts| >= 1
    ensures Join([[c] + parts[0]] + parts[1..], sep) == [c] + Join(parts, sep)
  {
    var q := [[c] + parts[0]] + parts[1..];
    if |parts| > 1 {
      assert q[1..] == parts[1..];
    }
  }

  /**
   * Replace-all agrees with its reference definition: split on the pattern,
   * then join the pieces with the replacement.
   */
  lemma {:induction false} ReplaceAllIsSplitJoin(s: string, p: string, r: string)
    requires |p| > 0
    ensures ReplaceAll(s, p, r) == Join(Split(s, p), r)
    decreases |s|
  {
    if s == [] {
    } else if p <= s {
      ReplaceAllIsSplitJoin(s[|p|..], p, r);
      var rest := Split(s[|p|..], p);
      assert Split(s, p) == [[]] + rest;
      assert ([[]] + rest)[1..] == rest;
    } else {
      ReplaceAllIsSplitJoin(s[1..], p, r);
      JoinConsHead(s[0], Split(s[1..], p), r);
    }
  }

  /** Text without the pattern comes back unchanged. */
  lemma {:induction false} ReplaceAllAbsent(s: string, p: string, r: string)
    requires |p| > 0
    requires !Contains(s, p)
    ensures ReplaceAll(s, p, r) == s
    decreases |s|
  {
    if s != [] {
      ReplaceAllAbsent(s[1..], p, r);
    }
  }

  /** A pattern with a character the text lacks does not occur in it. */
  lemma {:induction false} MissingCharNotContained(s: string, p: string, c: char)
    requires c in p && c !in s
    ensures !Contains(s, p)
    decreases |s|
  {
    if s != [] {
      assert c !in s[1..];
      MissingCharNotContained(s[1..], p, c);
    }
  }

  /** A pattern longer than the text does not occur in it. */
  lemma {:induction false} ShortNotContained(s: string, p: string)
    requires |s| < |p|
    ensures !Contains(s, p)
    decreases |s|
  {
    if s != [] {
      ShortNotContained(s[1..], p);
    }
  }

  /** Text that ends with the pattern contains it. */
  lemma {:induction false} ContainsAppended(a: string, p: string)
    ensures Contains(a + p, p)
    decreases |a|
  {
    if a != [] {
      assert (a + p)[1..] == a[1..] + p;
      ContainsAppended(a[1..], p);
    }
  }

  /** An occurrence at the start is replaced and the scan resumes after it. */
  lemma ReplaceAllAtHead(p: string, t: string, r: string)
    requires |p| > 0
    ensures ReplaceAll(p + t, p, r) == r + ReplaceAll(t, p, r)
  {
    assert (p + t)[|p|..] == t;
  }

  /** A leading character where no occurrence starts is copied. */
  lemma ReplaceAllSkipChar(c: char, t: string, p: string, r: string)
    requires |p| > 0
    requires !(p <= [c] + t)
    ensures ReplaceAll([c] + t, p, r) == [c] + ReplaceAll(t, p, r)
  {
    assert ([c] + t)[1..] == t;
  }

  /** A prefix without the pattern's first character is copied. */
  lemma {:induction false} ReplaceAllSkipFree(a: string, t: string, p: string, r: string)
    requires |p| > 0
    requires p[0] !in a
    ensures ReplaceAll(a + t, p, r) == a + ReplaceAll(t, p, r)
    decreases |a|
  {
    if a == [] {
      assert a + t == t;
    } else {
      assert (a + t)[1..] == a[1..] + t;
      assert p[0] !in a[1..];
      ReplaceAllSkipFree(a[1..], t, p, r);
    }
  }

  /** Replacing a pattern with itself changes nothing. */
  lemma {:induction false} ReplaceAllIdentity(s: string, p: string)
    requires |p| > 0
    ensures ReplaceAll(s, p, p) == s
    decreases |s|
  {
    if s != [] {
      if p <= s {
        ReplaceAllIdentity(s[|p|..], p);
        assert p + s[|p|..] == s;
      } else {
        ReplaceAllIdentity(s[1..], p);
        assert [s[0]] + s[1..] == s;
      }
    }
  }

  /** Splitting loses nothing but the separators: joining the pieces back gives the text. */
  lemma JoinSplit(s: string, sep: string)
    requires |sep| > 0
    ensures Join(Split(s, sep), sep) == s
  {
    ReplaceAllIsSplitJoin(s, sep, sep);
    ReplaceAllIdentity(s, sep);
  }

  /** No piece of a split contains the separator character. */
  lemma {:induction false} SplitPiecesLackSeparator(s: string, c: char, i: int)
    requires 0 <= i < |Split(s, [c])|
    ensures c !in Split(s, [c])[i]
    decreases |s|
  {
    if s != [] {
      var rest := Split(s[1..], [c]);
      if [c] <= s {
        if i > 0 {
          assert Split(s, [c])[i] == Split(s[|[c]|..], [c])[i - 1];
          SplitPiecesLackSeparator(s[1..], c, i - 1);
        }
      } else {
        assert s[0] != c;
        if i == 0 {
          SplitPiecesLackSeparator(s[1..], c, 0);
        } else {
          SplitPiecesLackSeparator(s[1..], c, i);
        }
      }
    }
  }

  /** A join ends with its last part. */
  lemma {:induction false} JoinEndsWithLast(parts: seq<string>, sep: string)
    requires |parts| >= 1
    ensures |parts[|parts| - 1]| <= |Join(parts, sep)|
    ensures Join(parts, sep)[|Join(parts, sep)| - |parts[|parts| - 1]|..] == parts[|parts| - 1]
    decreases |parts|
  {
    if |parts| > 1 {
      JoinEndsWithLast(parts[1..], sep);
      var rest := Join(parts[1..], sep);
      assert Join(parts, sep) == (parts[0] + sep) + rest;
    }
  }

  /** A lone occurrence is replaced as a whole. */
  lemma ReplaceAllSelf(p: string, r: string)
    requires |p| > 0
    ensures ReplaceAll(p, p, r) == r
  {
    assert p[|p|..] == [];
  }

  /** Splitting a string without the separator character gives the string back. */
  lemma {:induction false} SplitNoSeparator(s: string, c: char)
    requires c !in s
    ensures Split(s, [c]) == [s]
    decreases |s|
  {
    if s != [] {
      assert s[0] in s;
      SplitNoSeparator(s[1..], c);
      assert [s[0]] + s[1..] == s;
    }
  }

  /** Splitting `a + c + t` where `a` has no `c` gives `a` and the split of `t`. */
  lemma {:induction false} SplitAtFirst(a: string, c: char, t: string)
    requires c !in a
    ensures Split(a + [c] + t, [c]) == [a] + Split(t, [c])
    decreases |a|
  {
    var s := a + [c] + t;
    if a == [] {
      assert [c] <= s;
      assert s[1..] == t;
    } else {
      assert s[0] == a[0] && a[0] in a;
      assert s[1..] == a[1..] + [c] + t;
      SplitAtFirst(a[1..], c, t);
      assert [a[0]] + a[1..] == a;
    }
  }

  /** Joining on a one-character separator and splitting again is the identity. */
  lemma {:induction false} SplitJoinRoundTrip(parts: seq<string>, c: char)
    requires |parts| >= 1
    requires forall i :: 0 <= i < |parts| ==> c !in parts[i]
    ensures Split(Join(parts, [c]), [c]) == parts
    decreases |parts|
  {
    if |parts| == 1 {
      SplitNoSeparator(parts[0], c);
    } else {
      SplitJoinRoundTrip(parts[1..], c);
      SplitAtFirst(parts[0], c, Join(parts[1..], [c]));
    }
  }

  /** Text before the first occurrence of `c`: Python `s.split(c)[0]`. */
  function Before(s: string, c: char): (r: string)
    ensures r <= s && c !in r
    ensures r == s || s[|r|] == c
    decreases |s|
  {
    if s == [] || s[0] == c then [] else [s[0]] + Before(s[1..], c)
  }

  /** `Before` is the first piece of the split. */
  lemma {:induction false} BeforeIsFirstPiece(s: string, c: char)
    ensures Split(s, [c])[0] == Before(s, c)
    decreases |s|
  {
    if s != [] && s[0] != c {
      assert !([c] <= s);
      BeforeIsFirstPiece(s[1..], c);
    }
  }

  // ---------------------------------------------------------------------
  // Decimal numerals (Python `str(n)`, f-string `{n}`)

  predicate IsDigit(c: char)
  {
    '0' <= c <= '9'
  }

  function DigitChar(d: nat): (c: char)
    requires d < 10
    ensures IsDigit(c)
  {
    ('0' as int + d) as char
  }

  /** The decimal numeral of `n`, without leading zeros. */
  function NatToString(n: nat): (s: string)
    ensures |s| >= 1
    ensures forall i :: 0 <= i < |s| ==> IsDigit(s[i])
    ensures s[0] == '0' <==> n == 0
  {
    if n < 10 then [DigitChar(n)] else NatToString(n / 10) + [DigitChar(n % 10)]
  }

  /** The value of a string of decimal digits (reading one digit per character). */
  function DigitsValue(s: string): int
    decreases |s|
  {
    if s == [] then 0 else DigitsValue(s[..|s| - 1]) * 10 + (s[|s| - 1] as int - '0' as int)
  }

  lemma {:induction false} NatToStringRoundTrip(n: nat)
    ensures DigitsValue(NatToString(n)) == n
  {
    if n >= 10 {
      NatToStringRoundTrip(n / 10);
      var s := NatToString(n);
      assert s[..|s| - 1] == NatToString(n / 10);
    }
  }

  /** Python `str(i)` for an integer of either sign. */
  function IntToString(i: int): string
  {
    if i < 0 then "-" + NatToString(-i) else NatToString(i)
  }

  function ParseInt(s: string): int
  {
    if |s| > 0 && s[0] == '-' then -DigitsValue(s[1..]) else DigitsValue(s)
  }

  lemma IntToStringRoundTrip(i: int)
    ensures ParseInt(IntToString(i)) == i
  {
    if i < 0 {
      NatToStringRoundTrip(-i);
      assert IntToString(i)[1..] == NatToString(-i);
    } else {
      NatToStringRoundTrip(i);
    }
  }
}
