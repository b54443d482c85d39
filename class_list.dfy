/**
 * The body's `class` attribute as the browser handles it: the regular-expression
 * replacement `className.replace(/weather-\w+/g, '')` that clears the old weather
 * classes, and `classList.add`, which parses the attribute into an ordered set of
 * tokens split on ASCII whitespace, appends the token when it is absent and writes
 * the set back joined by single spaces.
 */
module ClassList {

  /** The characters the regular-expression class `\w` matches. */
  predicate IsWordChar(c: char) {
    ('a' <= c <= 'z') || ('A' <= c <= 'Z') || ('0' <= c <= '9') || c == '_'
  }

  /** ASCII whitespace: the separators between the tokens of a class attribute. */
  predicate IsAsciiWhitespace(c: char) {
    c == ' ' || c == '\t' || c == '\n' || c == '\U{000C}' || c == '\r'
  }

  predicate NoWhitespace(s: string) {
    forall i :: 0 <= i < |s| ==> !IsAsciiWhitespace(s[i])
  }

  const WeatherPrefix: string := "weather-"

  /** A match of `/weather-\w+/` starts at index `i` of `s`: the eight characters
      of `WeatherPrefix`, then at least one word character. */
  predicate MatchAt(s: string, i: nat) {
    && i + 9 <= |s|
    && s[i] == 'w' && s[i + 1] == 'e' && s[i + 2] == 'a' && s[i + 3] == 't'
    && s[i + 4] == 'h' && s[i + 5] == 'e' && s[i + 6] == 'r' && s[i + 7] == '-'
    && IsWordChar(s[i + 8])
  }

  /** No match of `/weather-\w+/` starts anywhere in `s`. */
  predicate NoMatch(s: string) {
    forall i: nat :: i < |s| ==> !MatchAt(s, i)
  }

  /** Every match of `/weather-\w+/` in `s` starts a class name: it is at index 0
      or right after a whitespace separator. */
  predicate MatchesStartClassNames(s: string) {
    forall i: nat :: 0 < i < |s| && MatchAt(s, i) ==> IsAsciiWhitespace(s[i - 1])
  }

  /** Length of the leading run of word characters of `s` (the greedy `\w+`). */
  function WordRun(s: string): (n: nat)
    ensures n <= |s|
    ensures forall k :: 0 <= k < n ==> IsWordChar(s[k])
    ensures n < |s| ==> !IsWordChar(s[n])
  {
    if |s| == 0 || !IsWordChar(s[0]) then 0 else 1 + WordRun(s[1..])
  }

  /** `s.replace(/weather-\w+/g, '')`: scanning from the left, each match is the
      literal prefix followed by the longest run of word characters, and is deleted;
      every other character is kept. */
  function StripWeatherClasses(s: string): (r: string)
    ensures |r| <= |s|
    decreases |s|
  {
    if |s| == 0 then ""
    else if MatchAt(s, 0) then StripWeatherClasses(s[8 + WordRun(s[8..])..])
    else [s[0]] + StripWeatherClasses(s[1..])
  }

  /** Index of the first match in `s`, or `|s|` when there is none. */
  function FirstMatch(s: string): (m: nat)
    ensures m <= |s|
    ensures m < |s| ==> MatchAt(s, m)
    ensures forall i: nat :: i < m ==> !MatchAt(s, i)
  {
    if |s| == 0 then 0
    else if MatchAt(s, 0) then 0
    else
      var m' := FirstMatch(s[1..]);
      FirstMatchStep(s, m');
      1 + m'
  }

  lemma {:induction false} FirstMatchStep(s: string, m': nat)
    requires 0 < |s| && !MatchAt(s, 0) && m' <= |s| - 1
    requires m' < |s| - 1 ==> MatchAt(s[1..], m')
    requires forall i: nat :: i < m' ==> !MatchAt(s[1..], i)
    ensures m' + 1 < |s| ==> MatchAt(s, m' + 1)
    ensures forall i: nat :: i < m' + 1 ==> !MatchAt(s, i)
  {
    forall i: nat | i < m' + 1 ensures !MatchAt(s, i) {
      if i > 0 { MatchShift(s, 1, i - 1); }
    }
    if m' < |s| - 1 { MatchShift(s, 1, m'); }
  }

  lemma {:induction false} MatchShift(s: string, k: nat, i: nat)
    requires k <= |s|
    ensures MatchAt(s[k..], i) <==> MatchAt(s, k + i)
  {
  }

  /** A prefix in which no match starts is copied unchanged. */
  lemma {:induction false} StripKeepsPrefix(s: string, j: nat)
    requires j <= |s|
    requires forall i: nat :: i < j ==> !MatchAt(s, i)
    ensures StripWeatherClasses(s) == s[..j] + StripWeatherClasses(s[j..])
    decreases j
  {
    if j > 0 {
      assert !MatchAt(s, 0);
      forall i: nat | i < j - 1 ensures !MatchAt(s[1..], i) {
        MatchShift(s, 1, i);
      }
      StripKeepsPrefix(s[1..], j - 1);
      StripKeepsFirst(s);
      assert s[1..][..j - 1] == s[1..j] && s[1..][j - 1..] == s[j..];
      var rest := StripWeatherClasses(s[j..]);
      assert StripWeatherClasses(s) == [s[0]] + (s[1..j] + rest);
      assert [s[0]] + (s[1..j] + rest) == ([s[0]] + s[1..j]) + rest;
      assert [s[0]] + s[1..j] == s[..j];
    }
  }

  /** A string without matches is left as it is. */
  lemma {:induction false} StripWithoutMatch(s: string)
    requires NoMatch(s)
    ensures StripWeatherClasses(s) == s
  {
    StripKeepsPrefix(s, |s|);
    assert s[..|s|] == s;
  }

  /** The hypothesis survives taking a suffix. */
  lemma {:induction false} SuffixKeepsStartCondition(s: string, k: nat)
    requires k <= |s|
    requires MatchesStartClassNames(s)
    ensures MatchesStartClassNames(s[k..])
  {
    forall i: nat | 0 < i < |s[k..]| && MatchAt(s[k..], i)
      ensures IsAsciiWhitespace(s[k..][i - 1])
    {
      MatchShift(s, k, i);
    }
  }

  /** When every match starts a class name, the replacement leaves no match at all:
      no `weather-<word>` class survives it. */
  lemma {:induction false} StripRemovesEveryWeatherClass(s: string)
    requires MatchesStartClassNames(s)
    ensures NoMatch(StripWeatherClasses(s))
    decreases |s|
  {
    var m := FirstMatch(s);
    if m == |s| {
      StripWithoutMatch(s);
    } else {
      var e := StripAroundMatch(s, m);
      var rest := s[m + e..];
      SuffixKeepsStartCondition(s, m + e);
      StripRemovesEveryWeatherClass(rest);
      PrefixWithoutMatch(s, m);
      SeparatorBeforeMatch(s, m);
      ConcatAfterSeparator(s[..m], StripWeatherClasses(rest));
    }
  }

  /** Around the first match, the replacement copies what precedes it, drops the
      match, of length `e`, and goes on after it. */
  lemma {:induction false} StripAroundMatch(s: string, m: nat) returns (e: nat)
    requires m < |s| && MatchAt(s, m)
    requires forall i: nat :: i < m ==> !MatchAt(s, i)
    ensures 9 <= e && m + e <= |s|
    ensures StripWeatherClasses(s) == s[..m] + StripWeatherClasses(s[m + e..])
  {
    StripKeepsPrefix(s, m);
    MatchShift(s, m, 0);
    e := StripAtMatch(s[m..]);
    assert s[m..][e..] == s[m + e..];
  }

  /** Under the hypothesis, the character before a match is a separator. */
  lemma {:induction false} SeparatorBeforeMatch(s: string, m: nat)
    requires MatchesStartClassNames(s) && m < |s| && MatchAt(s, m)
    ensures m > 0 ==> IsAsciiWhitespace(s[..m][m - 1])
  {
    if m > 0 {
      assert s[..m][m - 1] == s[m - 1];
    }
  }

  /** At a match the replacement skips the whole match, of length `e`. */
  lemma {:induction false} StripAtMatch(t: string) returns (e: nat)
    requires MatchAt(t, 0)
    ensures e == 8 + WordRun(t[8..]) && 9 <= e <= |t|
    ensures StripWeatherClasses(t) == StripWeatherClasses(t[e..])
  {
    e := 8 + WordRun(t[8..]);
  }

  /** A match cannot run across a whitespace character. */
  lemma {:induction false} SeparatorBlocksMatch(r: string, i: nat, k: nat)
    requires i <= k < i + 9 && k < |r| && IsAsciiWhitespace(r[k])
    ensures !MatchAt(r, i)
  {
  }

  /** A prefix ending before the first match has no match. */
  lemma {:induction false} PrefixWithoutMatch(s: string, m: nat)
    requires m <= |s|
    requires forall i: nat :: i < m ==> !MatchAt(s, i)
    ensures NoMatch(s[..m])
  {
    forall i: nat | i < m ensures !MatchAt(s[..m], i) {
      assert !MatchAt(s, i);
    }
  }

  /** No match is created by joining two match-free strings after a separator. */
  lemma {:induction false} ConcatAfterSeparator(p: string, q: string)
    requires NoMatch(p) && NoMatch(q)
    requires |p| > 0 ==> IsAsciiWhitespace(p[|p| - 1])
    ensures NoMatch(p + q)
  {
    var r := p + q;
    forall i: nat | i < |r| ensures !MatchAt(r, i) {
      if i >= |p| {
        MatchShift(r, |p|, i - |p|);
        assert r[|p|..] == q;
      } else if i + 9 <= |p| {
        MatchInPrefix(p, q, i);
      } else {
        assert r[|p| - 1] == p[|p| - 1];
        SeparatorBlocksMatch(r, i, |p| - 1);
      }
    }
  }

  lemma {:induction false} MatchInPrefix(p: string, q: string, i: nat)
    requires i + 9 <= |p|
    ensures MatchAt(p + q, i) <==> MatchAt(p, i)
  {
  }

  /** Length of the leading run of non-whitespace characters. */
  function TokenLength(s: string): (n: nat)
    ensures n <= |s|
    ensures NoWhitespace(s[..n])
    ensures n < |s| ==> IsAsciiWhitespace(s[n])
  {
    if |s| == 0 || IsAsciiWhitespace(s[0]) then 0
    else
      var n' := TokenLength(s[1..]);
      assert s[..n' + 1] == [s[0]] + s[1..][..n'];
      1 + n'
  }

  /** The tokens of a class attribute: its maximal runs of non-whitespace characters. */
  function SplitOnWhitespace(s: string): (ts: seq<string>)
    ensures forall t :: t in ts ==> |t| > 0 && NoWhitespace(t)
    decreases |s|
  {
    if |s| == 0 then []
    else if IsAsciiWhitespace(s[0]) then SplitOnWhitespace(s[1..])
    else
      var n := TokenLength(s);
      [s[..n]] + SplitOnWhitespace(s[n..])
  }

  predicate Distinct(ts: seq<string>) {
    forall i, j :: 0 <= i < j < |ts| ==> ts[i] != ts[j]
  }

  /** The ordered set of a token list: first occurrences, in order. */
  function OrderedSet(ts: seq<string>): (r: seq<string>)
    ensures forall t :: t in r <==> t in ts
    ensures Distinct(r)
  {
    if |ts| == 0 then []
    else
      var rest := OrderedSet(ts[..|ts| - 1]);
      assert ts == ts[..|ts| - 1] + [ts[|ts| - 1]];
      if ts[|ts| - 1] in rest then rest else rest + [ts[|ts| - 1]]
  }

  /** The ordered-set serialiser: tokens joined by single spaces. */
  function Join(ts: seq<string>): string {
    if |ts| == 0 then ""
    else if |ts| == 1 then ts[0]
    else ts[0] + " " + Join(ts[1..])
  }

  /** `element.classList`: the ordered set of the attribute's tokens. */
  function ClassTokens(className: string): seq<string> {
    OrderedSet(SplitOnWhitespace(className))
  }

  /** `classList.add(token)`: append the token when absent, then write the set back.
      For a token the DOM accepts (non-empty, no white space) the new class list is
      the old one with the token appended when it was absent, so the token is in it
      exactly once. */
  function AddClass(className: string, token: string): (r: string)
    ensures |token| > 0 && NoWhitespace(token) ==>
      var old_ := ClassTokens(className);
      ClassTokens(r) == (if token in old_ then old_ else old_ + [token])
    ensures |token| > 0 && NoWhitespace(token) ==>
      token in ClassTokens(r) && Distinct(ClassTokens(r))
  {
    var ts := ClassTokens(className);
    var ts' := if token in ts then ts else ts + [token];
    if |token| > 0 && NoWhitespace(token) then
      assert forall t :: t in ts' ==> t in ts || t == token;
      SplitJoin(ts');
      OrderedSetOfDistinct(ts');
      Join(ts')
    else
      Join(ts')
  }

  /** `weather-` followed by a `\w+` word is a class name the DOM accepts. */
  lemma WeatherTokenIsToken(condition: string)
    requires |condition| > 0 && forall i :: 0 <= i < |condition| ==> IsWordChar(condition[i])
    ensures |WeatherPrefix + condition| > 0 && NoWhitespace(WeatherPrefix + condition)
  {
    var token := WeatherPrefix + condition;
    forall i | 0 <= i < |token| ensures !IsAsciiWhitespace(token[i]) {
      if i >= 8 { assert token[i] == condition[i - 8]; }
    }
  }

  /** The class attribute after `applyWeatherTheme`: old weather classes stripped,
      then `weather-<condition>` added, which is then a class of the element. */
  function WithWeatherClass(className: string, condition: string): (r: string)
    ensures (|condition| > 0 && forall i :: 0 <= i < |condition| ==> IsWordChar(condition[i])) ==>
      WeatherPrefix + condition in ClassTokens(r)
  {
    if |condition| > 0 && forall i :: 0 <= i < |condition| ==> IsWordChar(condition[i]) then
      WeatherTokenIsToken(condition);
      AddClass(StripWeatherClasses(className), WeatherPrefix + condition)
    else
      AddClass(StripWeatherClasses(className), WeatherPrefix + condition)
  }

  lemma {:induction false} TokenLengthOfToken(t: string, rest: string)
    requires |t| > 0 && NoWhitespace(t)
    requires rest == [] || IsAsciiWhitespace(rest[0])
    ensures TokenLength(t + rest) == |t|
    decreases |t|
  {
    assert (t + rest)[0] == t[0];
    if |t| > 1 {
      assert (t + rest)[1..] == t[1..] + rest;
      TokenLengthOfToken(t[1..], rest);
    } else {
      assert (t + rest)[1..] == rest;
    }
  }

  /** Parsing the serialisation of whitespace-free, non-empty tokens gives them back. */
  lemma {:induction false} SplitJoin(ts: seq<string>)
    requires forall t :: t in ts ==> |t| > 0 && NoWhitespace(t)
    ensures SplitOnWhitespace(Join(ts)) == ts
  {
    if |ts| == 1 {
      var t := ts[0];
      TokenLengthOfToken(t, []);
      assert t + [] == t;
      assert t[..|t|] == t && t[|t|..] == [];
    } else if |ts| > 1 {
      var t, rest := ts[0], " " + Join(ts[1..]);
      var s := t + rest;
      assert Join(ts) == s;
      TokenLengthOfToken(t, rest);
      assert s[..|t|] == t;
      assert s[|t|..] == rest;
      assert rest[1..] == Join(ts[1..]);
      SplitJoin(ts[1..]);
      assert ts == [t] + ts[1..];
    }
  }

  lemma {:induction false} OrderedSetOfDistinct(ts: seq<string>)
    requires Distinct(ts)
    ensures OrderedSet(ts) == ts
  {
    if |ts| > 0 {
      var init := ts[..|ts| - 1];
      OrderedSetOfDistinct(init);
      assert ts[|ts| - 1] !in init;
      assert init + [ts[|ts| - 1]] == ts;
    }
  }

  /** A token of a string without matches has no match either. */
  lemma {:induction false} TokensWithoutMatch(s: string)
    requires NoMatch(s)
    ensures forall t :: t in SplitOnWhitespace(s) ==> NoMatch(t)
    decreases |s|
  {
    if |s| > 0 {
      var k := if IsAsciiWhitespace(s[0]) then 1 else TokenLength(s);
      forall i: nat | i < |s[k..]| ensures !MatchAt(s[k..], i) {
        MatchShift(s, k, i);
      }
      TokensWithoutMatch(s[k..]);
      if !IsAsciiWhitespace(s[0]) {
        var t := s[..k];
        forall i: nat | i < |t| ensures !MatchAt(t, i) {
          assert !MatchAt(s, i);
        }
      }
    }
  }

  /** The replacement only deletes characters. */
  lemma {:induction false} StripKeepsCharacters(s: string)
    ensures forall c :: c in StripWeatherClasses(s) ==> c in s
    decreases |s|
  {
    if |s| > 0 {
      var k := if MatchAt(s, 0) then 8 + WordRun(s[8..]) else 1;
      StripKeepsCharacters(s[k..]);
      assert forall c :: c in s[k..] ==> c in s;
    }
  }

  /** The greedy word run stops at the same place in a prefix that ends at or after it. */
  lemma {:induction false} WordRunOfPrefix(s: string, k: nat)
    requires WordRun(s) <= k <= |s|
    ensures WordRun(s[..k]) == WordRun(s)
    decreases |s|
  {
    if |s| > 0 && IsWordChar(s[0]) && k > 0 {
      assert s[..k][1..] == s[1..][..k - 1];
      WordRunOfPrefix(s[1..], k - 1);
    }
  }

  /** A match consists of non-whitespace characters only. */
  lemma {:induction false} MatchBeforeSeparator(s: string, k: nat)
    requires MatchAt(s, 0) && k < |s| && IsAsciiWhitespace(s[k])
    ensures 8 + WordRun(s[8..]) <= k
  {
    if k >= 8 {
      assert s[8..][k - 8] == s[k];
    }
  }

  /** A prefix starts with a match exactly when the whole string does, once the
      prefix is long enough to hold it. */
  lemma {:induction false} PrefixMatch(s: string, k: nat)
    requires k <= |s|
    ensures MatchAt(s[..k], 0) ==> MatchAt(s, 0)
    ensures 9 <= k && MatchAt(s, 0) ==> MatchAt(s[..k], 0)
  {
  }

  /** Where no match starts, the replacement keeps the first character. */
  lemma {:induction false} StripKeepsFirst(s: string)
    requires |s| > 0 && !MatchAt(s, 0)
    ensures StripWeatherClasses(s) == [s[0]] + StripWeatherClasses(s[1..])
  {
  }

  /** At a match, the replacement of a prefix that holds the whole match skips the same match. */
  lemma {:induction false} StripPrefixAtMatch(s: string, k: nat) returns (e: nat)
    requires MatchAt(s, 0) && k < |s| && IsAsciiWhitespace(s[k])
    ensures 9 <= e <= k
    ensures StripWeatherClasses(s) == StripWeatherClasses(s[e..])
    ensures StripWeatherClasses(s[..k]) == StripWeatherClasses(s[e..k])
  {
    MatchBeforeSeparator(s, k);
    e := StripAtMatch(s);
    var p := s[..k];
    PrefixMatch(s, k);
    assert p[8..] == s[8..][..k - 8];
    WordRunOfPrefix(s[8..], k - 8);
    var e' := StripAtMatch(p);
    assert e' == e;
    assert p[e..] == s[e..k];
  }

  /** A whitespace character splits the replacement in two: no match runs across it. */
  lemma {:induction false} StripAtSeparator(s: string, k: nat)
    requires k < |s| && IsAsciiWhitespace(s[k])
    ensures StripWeatherClasses(s) ==
      StripWeatherClasses(s[..k]) + [s[k]] + StripWeatherClasses(s[k + 1..])
    decreases |s|, 1
  {
    if MatchAt(s, 0) {
      StripAtSeparatorFromMatch(s, k);
    } else if k == 0 {
      StripKeepsFirst(s);
      assert s[..0] == [];
    } else {
      StripAtSeparatorFromOther(s, k);
    }
  }

  /** `StripAtSeparator` when a match starts the string: the match ends before the
      separator, and the rest is split at the same separator. */
  lemma {:induction false} StripAtSeparatorFromMatch(s: string, k: nat)
    requires k < |s| && IsAsciiWhitespace(s[k]) && MatchAt(s, 0)
    ensures StripWeatherClasses(s) ==
      StripWeatherClasses(s[..k]) + [s[k]] + StripWeatherClasses(s[k + 1..])
    decreases |s|, 0
  {
    var e := StripPrefixAtMatch(s, k);
    var t := s[e..];
    assert t[..k - e] == s[e..k] && t[k - e] == s[k] && t[k - e + 1..] == s[k + 1..];
    StripAtSeparator(t, k - e);
  }

  /** `StripAtSeparator` when the first character, before the separator, is kept. */
  lemma {:induction false} StripAtSeparatorFromOther(s: string, k: nat)
    requires 0 < k < |s| && IsAsciiWhitespace(s[k]) && !MatchAt(s, 0)
    ensures StripWeatherClasses(s) ==
      StripWeatherClasses(s[..k]) + [s[k]] + StripWeatherClasses(s[k + 1..])
    decreases |s|, 0
  {
    PrefixMatch(s, k);
    StripKeepsFirst(s);
    StripKeepsFirst(s[..k]);
    var t := s[1..];
    assert t[..k - 1] == s[1..k] == s[..k][1..] && t[k - 1] == s[k] && t[k..] == s[k + 1..];
    StripAtSeparator(t, k - 1);
    var p, q := StripWeatherClasses(s[1..k]), StripWeatherClasses(s[k + 1..]);
    assert [s[0]] + (p + [s[k]] + q) == ([s[0]] + p) + [s[k]] + q;
  }

  /** The stripped form of each token, dropping those that become empty. */
  function StripEach(ts: seq<string>): seq<string> {
    if |ts| == 0 then []
    else
      var t := StripWeatherClasses(ts[0]);
      (if t == "" then [] else [t]) + StripEach(ts[1..])
  }

  /** Splitting a token followed by whitespace (or nothing) yields the token first. */
  lemma {:induction false} SplitAfterToken(a: string, rest: string)
    requires NoWhitespace(a)
    requires rest == [] || IsAsciiWhitespace(rest[0])
    ensures SplitOnWhitespace(a + rest) ==
      (if a == "" then [] else [a]) + SplitOnWhitespace(rest)
  {
    if a != "" {
      TokenLengthOfToken(a, rest);
      assert (a + rest)[..|a|] == a;
      assert (a + rest)[|a|..] == rest;
    } else {
      assert a + rest == rest;
    }
  }

  /** The replacement acts token by token. */
  lemma {:induction false} SplitOfStrip(s: string)
    ensures SplitOnWhitespace(StripWeatherClasses(s)) == StripEach(SplitOnWhitespace(s))
    decreases |s|
  {
    if |s| > 0 {
      if IsAsciiWhitespace(s[0]) {
        StripAtSeparator(s, 0);
        assert s[..0] == [];
        SplitOfStrip(s[1..]);
      } else {
        var n := TokenLength(s);
        if n == |s| {
          WholeToken(s);
          SplitOfStripToken(s);
        } else {
          SplitOfStripTokenThenRest(s, n);
          SplitOfStrip(s[n + 1..]);
          assert SplitOnWhitespace(s) == [s[..n]] + SplitOnWhitespace(s[n + 1..]);
        }
      }
    }
  }

  /** The replacement of a whitespace-free string is whitespace-free. */
  lemma {:induction false} StripNoWhitespace(s: string)
    requires NoWhitespace(s)
    ensures NoWhitespace(StripWeatherClasses(s))
  {
    var a := StripWeatherClasses(s);
    StripKeepsCharacters(s);
    forall i | 0 <= i < |a| ensures !IsAsciiWhitespace(a[i]) {
      assert a[i] in a;
    }
  }

  lemma {:induction false} SplitOfStripToken(s: string)
    requires NoWhitespace(s)
    ensures SplitOnWhitespace(StripWeatherClasses(s)) == StripEach(SplitOnWhitespace(s))
  {
    SplitSingle(s);
    StripNoWhitespace(s);
    SplitSingle(StripWeatherClasses(s));
    StripEachSingle(s);
  }

  /** A whitespace-free string is one token, or none when it is empty. */
  lemma {:induction false} SplitSingle(a: string)
    requires NoWhitespace(a)
    ensures SplitOnWhitespace(a) == if a == "" then [] else [a]
  {
    SplitAfterToken(a, []);
    assert a + [] == a;
  }

  lemma {:induction false} StripEachSingle(t: string)
    ensures StripEach([t]) ==
      (var a := StripWeatherClasses(t); if a == "" then [] else [a])
  {
    assert [t][1..] == [];
  }

  lemma {:induction false} WholeToken(s: string)
    requires TokenLength(s) == |s|
    ensures NoWhitespace(s)
  {
    assert s[..|s|] == s;
  }

  lemma {:induction false} SplitOfStripTokenThenRest(s: string, n: nat)
    requires n < |s| && NoWhitespace(s[..n]) && IsAsciiWhitespace(s[n])
    ensures SplitOnWhitespace(StripWeatherClasses(s)) ==
      (var a := StripWeatherClasses(s[..n]); if a == "" then [] else [a])
      + SplitOnWhitespace(StripWeatherClasses(s[n + 1..]))
    ensures SplitOnWhitespace(s) ==
      (if n == 0 then [] else [s[..n]]) + SplitOnWhitespace(s[n + 1..])
  {
    var a := StripWeatherClasses(s[..n]);
    StripNoWhitespace(s[..n]);
    StripAtSeparator(s, n);
    SplitTokenSeparatorRest(a, s[n], StripWeatherClasses(s[n + 1..]));
    Around(s, n);
    SplitTokenSeparatorRest(s[..n], s[n], s[n + 1..]);
  }

  /** A string is the part before position `n`, the character at `n`, and the rest. */
  lemma {:induction false} Around(s: string, n: nat)
    requires n < |s|
    ensures s == s[..n] + [s[n]] + s[n + 1..]
  {
  }

  /** A whitespace-free run, a separator, and the rest: the run (if any) is the first token. */
  lemma {:induction false} SplitTokenSeparatorRest(a: string, c: char, b: string)
    requires NoWhitespace(a) && IsAsciiWhitespace(c)
    ensures SplitOnWhitespace(a + [c] + b) ==
      (if a == "" then [] else [a]) + SplitOnWhitespace(b)
  {
    var rest := [c] + b;
    assert a + [c] + b == a + rest;
    SplitAfterToken(a, rest);
    assert rest[1..] == b;
  }

  lemma {:induction false} StripEachKeeps(ts: seq<string>, t: string)
    requires t in ts && t != "" && NoMatch(t)
    ensures t in StripEach(ts)
  {
    if ts[0] == t {
      StripWithoutMatch(t);
    } else {
      StripEachKeeps(ts[1..], t);
    }
  }

  /** The weather class replacement of `applyWeatherTheme`: afterwards the class list
      holds `weather-<condition>` exactly once, every other class comes from the
      stripped attribute, every class without a `weather-<word>` pattern is kept,
      and, when every such pattern started a class name, no class but the new one
      carries it. */
  lemma {:induction false} WeatherClassReplaced(className: string, condition: string)
    requires |condition| > 0 && forall i :: 0 <= i < |condition| ==> IsWordChar(condition[i])
    ensures var ts := ClassTokens(WithWeatherClass(className, condition));
      && (WeatherPrefix + condition) in ts
      && Distinct(ts)
      && (forall t :: t in ts && t != WeatherPrefix + condition ==>
            t in ClassTokens(StripWeatherClasses(className)))
      && (MatchesStartClassNames(className) ==>
            forall t :: t in ts && t != WeatherPrefix + condition ==> NoMatch(t))
      && (forall t :: t in ClassTokens(className) && NoMatch(t) ==> t in ts)
  {
    var token := WeatherPrefix + condition;
    WeatherTokenIsToken(condition);
    var stripped := StripWeatherClasses(className);
    if MatchesStartClassNames(className) {
      StripRemovesEveryWeatherClass(className);
      TokensWithoutMatch(stripped);
    }
    SplitOfStrip(className);
    forall t | t in ClassTokens(className) && NoMatch(t)
      ensures t in ClassTokens(stripped)
    {
      StripEachKeeps(SplitOnWhitespace(className), t);
    }
  }
}
