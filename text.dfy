/**
 * String primitives that the ingestion code takes from Python's `str` and `re`:
 * whitespace, `lower`/`upper`/`title`, `strip`, slicing to a bound, `in` on
 * strings, `split('\n')`, the URL pattern `https?://[^\s]+` and the
 * first-match-wins keyword cascades used by both tag classifiers.
 * Characters are treated as ASCII: letters outside A-Z/a-z have no case.
 */
module Text {
  import opened Wrappers

  /** Python's whitespace (`str.isspace`, `str.strip`, `\s` in `re`) on ASCII. */
  predicate IsSpace(c: char) {
    c == ' ' || c == '\t' || c == '\n' || c == '\r' || c == '\U{000B}' || c == '\U{000C}'
    || ('\U{001C}' <= c <= '\U{001F}')
  }

  predicate IsUpper(c: char) { 'A' <= c <= 'Z' }

  predicate IsLowerCase(c: char) { 'a' <= c <= 'z' }

  predicate IsLetter(c: char) { IsUpper(c) || IsLowerCase(c) }

  predicate IsDigit(c: char) { '0' <= c <= '9' }

  function LowerChar(c: char): char {
    if IsUpper(c) then (c as int + 32) as char else c
  }

  function UpperChar(c: char): char {
    if IsLowerCase(c) then (c as int - 32) as char else c
  }

  /** `s.lower()` */
  function Lower(s: string): (r: string)
    ensures |r| == |s|
    ensures forall i :: 0 <= i < |s| ==> r[i] == LowerChar(s[i])
  {
    seq(|s|, i requires 0 <= i < |s| => LowerChar(s[i]))
  }

  /**
   * `s.title()`: a letter that follows a letter is lower-cased, any other
   * letter is upper-cased; other characters are kept.
   */
  function TitleCase(s: string): string {
    TitleCaseAfter(s, false)
  }

  function TitleCaseAfter(s: string, afterLetter: bool): (r: string)
    ensures |r| == |s|
    decreases |s|
  {
    if s == [] then []
    else [if afterLetter then LowerChar(s[0]) else UpperChar(s[0])] + TitleCaseAfter(s[1..], IsLetter(s[0]))
  }

  /** `s.lstrip()` */
  function TrimStart(s: string): string
    decreases |s|
  {
    if |s| > 0 && IsSpace(s[0]) then TrimStart(s[1..]) else s
  }

  /** `s.rstrip()` */
  function TrimEnd(s: string): string
    decreases |s|
  {
    if |s| > 0 && IsSpace(s[|s| - 1]) then TrimEnd(s[..|s| - 1]) else s
  }

  /** `lstrip` drops a run of leading whitespace and keeps the rest, which starts with no whitespace. */
  lemma {:induction false} TrimStartShape(s: string)
    ensures var r := TrimStart(s);
      && |r| <= |s| && r == s[|s| - |r|..]
      && (r == [] || !IsSpace(r[0]))
      && forall k :: 0 <= k < |s| - |r| ==> IsSpace(s[k])
    decreases |s|
  {
    if |s| > 0 && IsSpace(s[0]) {
      TrimStartShape(s[1..]);
    }
  }

  /** `rstrip` drops a run of trailing whitespace and keeps the rest, which ends with no whitespace. */
  lemma {:induction false} TrimEndShape(s: string)
    ensures var r := TrimEnd(s);
      && |r| <= |s| && r == s[..|r|]
      && (r == [] || !IsSpace(r[|r| - 1]))
      && forall k :: |r| <= k < |s| ==> IsSpace(s[k])
    decreases |s|
  {
    if |s| > 0 && IsSpace(s[|s| - 1]) {
      TrimEndShape(s[..|s| - 1]);
    }
  }

  /** `s.strip()` */
  function Strip(s: string): string {
    TrimEnd(TrimStart(s))
  }

  /** A string with no whitespace at either end is what `strip` returns for it. */
  predicate Unpadded(s: string) {
    s == [] || (!IsSpace(s[0]) && !IsSpace(s[|s| - 1]))
  }

  /** `s[:n]` */
  function Take(s: string, n: nat): (r: string)
    ensures |r| <= n && r <= s
    ensures |s| <= n ==> r == s
  {
    if |s| <= n then s else s[..n]
  }

  /** `word in text` for strings: `word` occurs at position `i` of `text`. */
  predicate OccursAt(text: string, word: string, i: int) {
    0 <= i && i + |word| <= |text| && text[i..i + |word|] == word
  }

  /** `word in text` for strings. */
  predicate Contains(text: string, word: string) {
    exists i | 0 <= i <= |text| - |word| :: OccursAt(text, word, i)
  }

  /** `any(word in text for word in words)` */
  predicate ContainsAny(text: string, words: seq<string>) {
    exists w | w in words :: Contains(text, w)
  }

  /** One step of a classification cascade: a category and the keywords that select it. */
  datatype Rule = Rule(category: string, keywords: seq<string>)

  predicate Fires(rule: Rule, text: string) {
    ContainsAny(text, rule.keywords)
  }

  /** Index of the first rule that fires on `text`, or `|rules|` when none does. */
  function FirstFiringIndex(rules: seq<Rule>, text: string): (k: nat)
    ensures k <= |rules|
  {
    if rules == [] then 0
    else if Fires(rules[0], text) then 0
    else 1 + FirstFiringIndex(rules[1..], text)
  }

  /** No rule before the index fires, and the rule at the index does. */
  lemma {:induction false} FirstFiringIndexSpec(rules: seq<Rule>, text: string)
    ensures var k := FirstFiringIndex(rules, text);
      && (forall j :: 0 <= j < k ==> !Fires(rules[j], text))
      && (k < |rules| ==> Fires(rules[k], text))
  {
    if rules != [] && !Fires(rules[0], text) {
      FirstFiringIndexSpec(rules[1..], text);
      var k := FirstFiringIndex(rules, text);
      assert forall j :: 1 <= j < k ==> rules[j] == rules[1..][j - 1];
    }
  }

  /** The if/elif chain of `any(...)` tests: the first category whose keyword occurs wins. */
  function FirstFiring(rules: seq<Rule>, text: string): Option<string> {
    var k := FirstFiringIndex(rules, text);
    if k < |rules| then Some(rules[k].category) else None
  }

  /** A keyword with a character the text lacks cannot occur in it. */
  lemma MissingCharNotContained(text: string, word: string, c: char)
    requires c in word && c !in text
    ensures !Contains(text, word)
  {
    var k :| 0 <= k < |word| && word[k] == c;
    forall i | 0 <= i <= |text| - |word| ensures !OccursAt(text, word, i) {
      assert text[i..i + |word|][k] == text[i + k];
    }
  }

  /**
   * A rule stays silent on `text` when each of its keywords holds a
   * character that `text` lacks: the one at position `at[k]` of keyword `k`.
   */
  lemma RuleSilent(rule: Rule, text: string, at: seq<nat>)
    requires |at| == |rule.keywords|
    requires forall k :: 0 <= k < |at| ==> at[k] < |rule.keywords[k]|
    requires forall k, i :: 0 <= k < |at| && 0 <= i < |text| ==> text[i] != rule.keywords[k][at[k]]
    ensures !Fires(rule, text)
  {
    forall k | 0 <= k < |at| ensures !Contains(text, rule.keywords[k]) {
      MissingCharNotContained(text, rule.keywords[k], rule.keywords[k][at[k]]);
    }
  }

  /** Length of the run of non-whitespace characters starting at `i` (`[^\s]*`). */
  function NonSpaceRun(s: string, i: nat): (n: nat)
    requires i <= |s|
    ensures i + n <= |s|
    ensures forall k :: i <= k < i + n ==> !IsSpace(s[k])
    ensures i + n == |s| || IsSpace(s[i + n])
    decreases |s| - i
  {
    if i < |s| && !IsSpace(s[i]) then 1 + NonSpaceRun(s, i + 1) else 0
  }

  /** Length of the scheme `https://` or `http://` that starts at position `i`, or 0 when neither does. */
  function SchemeAt(s: string, i: nat): (p: nat)
    requires i <= |s|
    ensures p == 0 || p == 7 || p == 8
    ensures p > 0 ==> i + p <= |s| && s[i..i + p] in ["https://", "http://"]
  {
    if i + 8 <= |s| && s[i..i + 8] == "https://" then 8
    else if i + 7 <= |s| && s[i..i + 7] == "http://" then 7
    else 0
  }

  /** End of the match of `https?://[^\s]+` that starts at position `i`, if there is one. */
  function UrlMatchEnd(s: string, i: nat): (r: Option<nat>)
    requires i <= |s|
    ensures r.Some? ==> i < r.value <= |s|
  {
    var p := SchemeAt(s, i);
    if p > 0 && NonSpaceRun(s, i + p) > 0 then Some(i + p + NonSpaceRun(s, i + p)) else None
  }

  /** The leftmost position at or after `i` where the URL pattern matches, or `|s|`. */
  function UrlStartFrom(s: string, i: nat): (k: nat)
    requires i <= |s|
    ensures i <= k <= |s|
    ensures forall j :: i <= j < k ==> UrlMatchEnd(s, j).None?
    ensures k < |s| ==> UrlMatchEnd(s, k).Some?
    decreases |s| - i
  {
    if i == |s| then i
    else if UrlMatchEnd(s, i).Some? then i
    else UrlStartFrom(s, i + 1)
  }

  /** `re.search(r'https?://[^\s]+', s)`: the matched text of the leftmost match, if any. */
  function FirstUrl(s: string): Option<string> {
    var k := UrlStartFrom(s, 0);
    if k < |s| then Some(s[k..UrlMatchEnd(s, k).value]) else None
  }

  /** `k` is where the leftmost match of the URL pattern starts. */
  predicate IsLeftmostUrl(s: string, k: int) {
    && 0 <= k < |s| && UrlMatchEnd(s, k).Some?
    && forall j :: 0 <= j < k ==> UrlMatchEnd(s, j).None?
  }

  /**
   * What `re.search` promises: a URL is found exactly when the pattern matches
   * somewhere, and then it is the text of the leftmost match.
   */
  lemma FirstUrlIsLeftmostMatch(s: string)
    ensures FirstUrl(s).None? <==> forall j :: 0 <= j <= |s| ==> UrlMatchEnd(s, j).None?
    ensures FirstUrl(s).Some? ==>
      exists k :: IsLeftmostUrl(s, k) && FirstUrl(s).value == s[k..UrlMatchEnd(s, k).value]
  {
    var k := UrlStartFrom(s, 0);
    if k < |s| {
      assert IsLeftmostUrl(s, k);
    } else {
      assert UrlMatchEnd(s, |s|).None?;
    }
  }

  lemma SchemeHasNoSpace(scheme: string)
    requires scheme in ["https://", "http://"]
    ensures forall m :: 0 <= m < |scheme| ==> !IsSpace(scheme[m])
  {
  }

  /** The URL found begins with `http://` or `https://`, has a non-empty tail and holds no whitespace. */
  lemma FirstUrlShape(s: string)
    requires FirstUrl(s).Some?
    ensures "http://" <= FirstUrl(s).value || "https://" <= FirstUrl(s).value
    ensures |FirstUrl(s).value| > 7
    ensures forall c :: c in FirstUrl(s).value ==> !IsSpace(c)
  {
    var k := UrlStartFrom(s, 0);
    var e := UrlMatchEnd(s, k).value;
    var u := s[k..e];
    assert FirstUrl(s) == Some(u);
    var p := SchemeAt(s, k);
    var scheme := s[k..k + p];
    assert u[..p] == scheme;
    SchemeHasNoSpace(scheme);
    forall m | 0 <= m < |u| ensures !IsSpace(u[m]) {
      if m < p {
        assert u[m] == scheme[m];
      } else {
        assert u[m] == s[k + m];
      }
    }
  }

  /** Index of the first `c` in `s`, or `|s|`. */
  function IndexOf(s: string, c: char): (k: nat)
    ensures k <= |s|
    ensures k < |s| ==> s[k] == c
    ensures forall j :: 0 <= j < k ==> s[j] != c
  {
    if s == [] then 0
    else if s[0] == c then 0
    else 1 + IndexOf(s[1..], c)
  }

  /** `s.split('\n')` */
  function SplitLines(s: string): (lines: seq<string>)
    ensures |lines| >= 1
    ensures forall line :: line in lines ==> '\n' !in line
    decreases |s|
  {
    var k := IndexOf(s, '\n');
    if k == |s| then [s] else [s[..k]] + SplitLines(s[k + 1..])
  }

  /** `'\n'.join(lines)` */
  function JoinLines(lines: seq<string>): string {
    if lines == [] then ""
    else if |lines| == 1 then lines[0]
    else lines[0] + "\n" + JoinLines(lines[1..])
  }

  /** Splitting at newlines loses nothing: joining the lines gives the text back. */
  lemma {:induction false} JoinSplitLines(s: string)
    ensures JoinLines(SplitLines(s)) == s
    decreases |s|
  {
    var k := IndexOf(s, '\n');
    if k < |s| {
      JoinSplitLines(s[k + 1..]);
      assert s == s[..k] + "\n" + s[k + 1..];
    }
  }

  /** Whitespace is not a letter, so lower-casing keeps it and creates none. */
  lemma LowerCharSpace(c: char)
    ensures IsSpace(LowerChar(c)) <==> IsSpace(c)
  {
  }

  lemma {:induction false} TrimStartLower(s: string)
    ensures TrimStart(Lower(s)) == Lower(TrimStart(s))
    decreases |s|
  {
    if |s| > 0 {
      LowerCharSpace(s[0]);
      assert Lower(s)[1..] == Lower(s[1..]);
      if IsSpace(s[0]) {
        TrimStartLower(s[1..]);
      }
    }
  }

  lemma {:induction false} TrimEndLower(s: string)
    ensures TrimEnd(Lower(s)) == Lower(TrimEnd(s))
    decreases |s|
  {
    if |s| > 0 {
      LowerCharSpace(s[|s| - 1]);
      assert Lower(s)[..|s| - 1] == Lower(s[..|s| - 1]);
      if IsSpace(s[|s| - 1]) {
        TrimEndLower(s[..|s| - 1]);
      }
    }
  }

  /** `s.lower().strip()` and `s.strip().lower()` agree. */
  lemma StripLowerCommute(s: string)
    ensures Strip(Lower(s)) == Lower(Strip(s))
  {
    TrimStartLower(s);
    TrimEndLower(TrimStart(s));
  }

  /** `strip` leaves no whitespace at either end and is the identity on such strings. */
  lemma StripUnpadded(s: string)
    ensures Unpadded(Strip(s))
    ensures Unpadded(s) ==> Strip(s) == s
  {
    var t := TrimStart(s);
    TrimStartShape(s);
    TrimEndShape(t);
    if t != [] {
      var r := TrimEnd(t);
      if r != [] {
        assert r[0] == t[0];
      }
    }
  }

  /** `t` is `s` with a whitespace-only prefix and a whitespace-only suffix removed. */
  predicate StrippedFrom(s: string, t: string) {
    exists i, j :: 0 <= i <= j <= |s| && s[i..j] == t
      && (forall k :: 0 <= k < i ==> IsSpace(s[k]))
      && (forall k :: j <= k < |s| ==> IsSpace(s[k]))
  }

  /** `strip` removes surrounding whitespace only: what is left is the middle of the string as written. */
  lemma StripKeepsMiddle(s: string)
    ensures StrippedFrom(s, Strip(s))
  {
    var t := TrimStart(s);
    TrimStartShape(s);
    TrimEndShape(t);
    var r := TrimEnd(t);
    var i := |s| - |t|;
    var j := i + |r|;
    assert s[i..j] == r;
    forall k | j <= k < |s|
      ensures IsSpace(s[k])
    {
      assert s[k] == t[k - i];
    }
  }

  lemma {:induction false} TrimStartSkips(s: string, i: nat)
    requires i <= |s| && (forall k :: 0 <= k < i ==> IsSpace(s[k])) && (i == |s| || !IsSpace(s[i]))
    ensures TrimStart(s) == s[i..]
    decreases i
  {
    if i > 0 {
      TrimStartSkips(s[1..], i - 1);
      assert s[1..][i - 1..] == s[i..];
    }
  }

  lemma {:induction false} TrimEndSkips(s: string, j: nat)
    requires j <= |s| && (forall k :: j <= k < |s| ==> IsSpace(s[k])) && (j == 0 || !IsSpace(s[j - 1]))
    ensures TrimEnd(s) == s[..j]
    decreases |s| - j
  {
    if j < |s| {
      TrimEndSkips(s[..|s| - 1], j);
      assert s[..|s| - 1][..j] == s[..j];
    }
  }

  /** Conversely, the unpadded middle of a string is what `strip` returns for it. */
  lemma StripUnique(s: string, t: string)
    requires StrippedFrom(s, t) && Unpadded(t)
    ensures t == Strip(s)
  {
    var i, j :| 0 <= i <= j <= |s| && s[i..j] == t
      && (forall k :: 0 <= k < i ==> IsSpace(s[k]))
      && (forall k :: j <= k < |s| ==> IsSpace(s[k]));
    if t == [] {
      StripEmptyIffBlank(s);
    } else {
      assert s[i] == t[0];
      TrimStartSkips(s, i);
      StripMiddleEnd(s[i..], t, j - i);
    }
  }

  lemma StripMiddleEnd(u: string, t: string, n: nat)
    requires n <= |u| && u[..n] == t && t != [] && !IsSpace(t[|t| - 1])
    requires forall k :: n <= k < |u| ==> IsSpace(u[k])
    ensures TrimEnd(u) == t
  {
    assert u[n - 1] == t[|t| - 1];
    TrimEndSkips(u, n);
  }

  /** `strip` is idempotent. */
  lemma StripIdempotent(s: string)
    ensures Strip(Strip(s)) == Strip(s)
  {
    StripUnpadded(s);
    StripUnpadded(Strip(s));
  }

  /** `strip` gives the empty string exactly for all-whitespace strings. */
  lemma StripEmptyIffBlank(s: string)
    ensures Strip(s) == "" <==> forall k :: 0 <= k < |s| ==> IsSpace(s[k])
  {
    var t := TrimStart(s);
    TrimStartShape(s);
    TrimEndShape(t);
    if t != [] {
      assert t[0] == s[|s| - |t|];
      assert TrimEnd(t) != [] by {
        assert !IsSpace(t[0]);
      }
    }
  }

  /** Title-casing changes only letter case. */
  lemma {:induction false} LowerTitleCase(s: string, afterLetter: bool)
    ensures Lower(TitleCaseAfter(s, afterLetter)) == Lower(s)
    decreases |s|
  {
    if s != [] {
      LowerTitleCase(s[1..], IsLetter(s[0]));
      var t := TitleCaseAfter(s, afterLetter);
      assert t == [t[0]] + TitleCaseAfter(s[1..], IsLetter(s[0]));
      assert Lower(t) == [LowerChar(t[0])] + Lower(TitleCaseAfter(s[1..], IsLetter(s[0])));
      assert Lower(s) == [LowerChar(s[0])] + Lower(s[1..]);
    }
  }

  /** `s.title().title() == s.title()` */
  lemma {:induction false} TitleCaseIdempotent(s: string, afterLetter: bool)
    ensures TitleCaseAfter(TitleCaseAfter(s, afterLetter), afterLetter) == TitleCaseAfter(s, afterLetter)
    decreases |s|
  {
    if s != [] {
      var t := TitleCaseAfter(s, afterLetter);
      assert t[1..] == TitleCaseAfter(s[1..], IsLetter(s[0]));
      assert IsLetter(t[0]) == IsLetter(s[0]);
      TitleCaseIdempotent(s[1..], IsLetter(s[0]));
    }
  }

  /**
   * `title()` character by character: a character right after a letter is
   * lower-cased, any other character upper-cased (both leave non-letters as
   * they are).
   */
  lemma TitleCaseChars(s: string)
    ensures |TitleCase(s)| == |s|
    ensures forall k :: 0 <= k < |s| ==>
      TitleCase(s)[k] == if k > 0 && IsLetter(s[k - 1]) then LowerChar(s[k]) else UpperChar(s[k])
  {
    TitleCaseAfterChars(s, false);
  }

  lemma {:induction false} TitleCaseAfterChars(s: string, afterLetter: bool)
    ensures forall k :: 0 <= k < |s| ==>
      TitleCaseAfter(s, afterLetter)[k]
        == if (if k == 0 then afterLetter else IsLetter(s[k - 1])) then LowerChar(s[k]) else UpperChar(s[k])
    decreases |s|
  {
    if s != [] {
      TitleCaseAfterChars(s[1..], IsLetter(s[0]));
      var r := TitleCaseAfter(s, afterLetter);
      forall k | 1 <= k < |s|
        ensures r[k] == if IsLetter(s[k - 1]) then LowerChar(s[k]) else UpperChar(s[k])
      {
        assert r[k] == TitleCaseAfter(s[1..], IsLetter(s[0]))[k - 1];
        assert s[1..][k - 1] == s[k];
        if k > 1 {
          assert s[1..][k - 2] == s[k - 1];
        }
      }
    }
  }
}
