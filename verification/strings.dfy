/**
 * The JavaScript string built-ins the command handler relies on:
 * `startsWith`, `trim`, `split(/ +/)`, `Array.prototype.join(' ')`
 * and `toLowerCase`.
 */
module Strings {

  /** The characters `String.prototype.trim` removes: WhiteSpace and LineTerminator. */
  predicate IsWhitespace(c: char) {
    c == '\t' || c == '\n' || c == '\U{000B}' || c == '\U{000C}' || c == '\r' || c == ' '
    || c == '\U{00A0}' || c == '\U{1680}' || ('\U{2000}' <= c <= '\U{200A}')
    || c == '\U{2028}' || c == '\U{2029}' || c == '\U{202F}' || c == '\U{205F}'
    || c == '\U{3000}' || c == '\U{FEFF}'
  }

  /** `s.startsWith(prefix)`: s is prefix followed by some text. */
  predicate StartsWith(s: string, prefix: string): (b: bool)
    ensures b <==> exists t :: s == prefix + t
  {
    if |prefix| <= |s| && s[..|prefix|] == prefix then
      assert s == prefix + s[|prefix|..];
      true
    else
      false
  }

  /** `s.slice(n)`: the suffix after the first n characters, empty when s is shorter. */
  function Slice(s: string, n: nat): (r: string)
    ensures |s| < n ==> r == []
    ensures n <= |s| ==> s == s[..n] + r
  {
    if n <= |s| then s[n..] else []
  }

  predicate AllWhitespace(s: string) {
    forall i :: 0 <= i < |s| ==> IsWhitespace(s[i])
  }

  /** The number of whitespace characters s starts with. */
  function LeadingWhitespace(s: string): (k: nat)
    ensures k <= |s| && AllWhitespace(s[..k])
    ensures k == |s| || !IsWhitespace(s[k])
    decreases |s|
  {
    if |s| > 0 && IsWhitespace(s[0]) then
      var k := LeadingWhitespace(s[1..]);
      assert s[..k + 1] == [s[0]] + s[1..][..k];
      k + 1
    else 0
  }

  /** Whitespace in front of a text that does not start with whitespace is exactly what is skipped. */
  lemma {:induction false} LeadingWhitespaceOf(ws: string, u: string)
    requires AllWhitespace(ws)
    requires u == [] || !IsWhitespace(u[0])
    ensures LeadingWhitespace(ws + u) == |ws|
  {
    if ws != [] {
      assert (ws + u)[1..] == ws[1..] + u;
      LeadingWhitespaceOf(ws[1..], u);
    }
  }

  /** The number of whitespace characters s ends with. */
  function TrailingWhitespace(s: string): (k: nat)
    ensures k <= |s| && AllWhitespace(s[|s| - k..])
    ensures k == |s| || !IsWhitespace(s[|s| - k - 1])
    decreases |s|
  {
    if |s| > 0 && IsWhitespace(s[|s| - 1]) then
      var k := TrailingWhitespace(s[..|s| - 1]);
      assert s[|s| - (k + 1)..] == s[..|s| - 1][|s| - 1 - k..] + [s[|s| - 1]];
      k + 1
    else 0
  }

  /** `s.trim()`: a contiguous piece of s, with only whitespace cut from either end. */
  function Trim(s: string): (r: string)
    ensures r == [] || (!IsWhitespace(r[0]) && !IsWhitespace(r[|r| - 1]))
    ensures exists a, b :: 0 <= a <= b <= |s| && r == s[a..b] && AllWhitespace(s[..a]) && AllWhitespace(s[b..])
  {
    var a := LeadingWhitespace(s);
    var u := s[a..];
    var b := a + |u| - TrailingWhitespace(u);
    assert s[b..] == u[|u| - TrailingWhitespace(u)..];
    assert b > a ==> s[a] == u[0] && s[b - 1] == u[b - 1 - a];
    s[a..b]
  }

  predicate NoSpace(s: string) {
    forall i :: 0 <= i < |s| ==> s[i] != ' '
  }

  /** Index just past the run of spaces that starts at i. */
  function SpaceRunEnd(s: string, i: nat): (j: nat)
    requires i <= |s|
    ensures i <= j <= |s|
    ensures forall k :: i <= k < j ==> s[k] == ' '
    ensures j == |s| || s[j] != ' '
    decreases |s| - i
  {
    if i < |s| && s[i] == ' ' then SpaceRunEnd(s, i + 1) else i
  }

  /** Index of the first space at or after i, or |s| when there is none. */
  function NextSpace(s: string, i: nat): (j: nat)
    requires i <= |s|
    ensures i <= j <= |s|
    ensures forall k :: i <= k < j ==> s[k] != ' '
    ensures j == |s| || s[j] == ' '
    decreases |s| - i
  {
    if i == |s| || s[i] == ' ' then i else NextSpace(s, i + 1)
  }

  /**
   * `s.split(/ +/)`: the pieces between maximal runs of spaces.
   * A leading or trailing run yields an empty first or last piece, and
   * the empty string yields one empty piece.
   */
  function Split(s: string): (words: seq<string>)
    ensures |words| >= 1
    ensures forall w :: w in words ==> NoSpace(w)
    decreases |s|
  {
    var i := NextSpace(s, 0);
    if i == |s| then
      assert s[..i] == s;
      [s]
    else
      var j := SpaceRunEnd(s, i);
      [s[..i]] + Split(s[j..])
  }

  /** The total number of characters in the words. */
  function TotalLength(words: seq<string>): nat
  {
    if |words| == 0 then 0 else |words[0]| + TotalLength(words[1..])
  }

  /**
   * `words.join(' ')`: the words in order, one space between neighbours,
   * so the text starts with the first word and is one character longer
   * than the words for each gap between them.
   */
  function Join(words: seq<string>): (s: string)
    ensures |words| > 0 ==> StartsWith(s, words[0])
    ensures |words| > 0 ==> |s| == TotalLength(words) + |words| - 1
  {
    if |words| == 0 then []
    else if |words| == 1 then
      assert words[0] == words[0] + [];
      words[0]
    else
      var rest := Join(words[1..]);
      assert words[0] + " " + rest == words[0] + (" " + rest);
      words[0] + " " + rest
  }

  /** Every maximal run of spaces in s shortened to a single space. */
  function CollapseSpaces(s: string): (r: string)
    ensures |r| <= |s|
    ensures s != [] ==> r != [] && r[0] == s[0]
    ensures forall i :: 0 <= i < |r| - 1 ==> !(r[i] == ' ' && r[i + 1] == ' ')
    decreases |s|
  {
    if |s| == 0 then []
    else if |s| >= 2 && s[0] == ' ' && s[1] == ' ' then CollapseSpaces(s[1..])
    else [s[0]] + CollapseSpaces(s[1..])
  }

  /** A space-free word passes through the collapse unchanged. */
  lemma {:induction false} CollapseWord(w: string, t: string)
    requires NoSpace(w)
    ensures CollapseSpaces(w + t) == w + CollapseSpaces(t)
    decreases |w|
  {
    if w == [] {
      assert w + t == t;
    } else {
      var s := w + t;
      assert s[0] == w[0] && s[1..] == w[1..] + t;
      assert CollapseSpaces(s) == [w[0]] + CollapseSpaces(w[1..] + t);
      CollapseWord(w[1..], t);
      assert [w[0]] + (w[1..] + CollapseSpaces(t)) == w + CollapseSpaces(t) by {
        assert w == [w[0]] + w[1..];
      }
    }
  }

  /** A run of spaces s[i..j] followed by a non-space (or the end) collapses to one space. */
  lemma {:induction false} CollapseRun(s: string, i: nat, j: nat)
    requires i < j <= |s|
    requires forall k :: i <= k < j ==> s[k] == ' '
    requires j == |s| || s[j] != ' '
    ensures CollapseSpaces(s[i..]) == " " + CollapseSpaces(s[j..])
    decreases j - i
  {
    assert s[i..][1..] == s[i + 1..];
    if i + 1 < j {
      CollapseRun(s, i + 1, j);
    }
  }

  /**
   * Joining the pieces of `split(/ +/)` with single spaces gives the text
   * with each run of spaces shortened to one space.
   */
  lemma {:induction false} JoinSplitCollapses(s: string)
    ensures Join(Split(s)) == CollapseSpaces(s)
    decreases |s|
  {
    var i := NextSpace(s, 0);
    if i == |s| {
      assert s[..i] == s;
      CollapseWord(s, []);
      assert s + [] == s;
    } else {
      var j := SpaceRunEnd(s, i);
      JoinSplitCollapses(s[j..]);
      JoinCons(s[..i], Split(s[j..]));
      CollapseAtSpace(s, i, j);
    }
  }

  /** Joining a word in front of at least one more word puts one space after it. */
  lemma {:induction false} JoinCons(w: string, ws: seq<string>)
    requires |ws| >= 1
    ensures Join([w] + ws) == w + " " + Join(ws)
  {
    assert ([w] + ws)[1..] == ws;
  }

  /** Collapsing a text whose first space run is s[i..j] keeps s[..i], one space, and the collapse of the rest. */
  lemma {:induction false} CollapseAtSpace(s: string, i: nat, j: nat)
    requires i < j <= |s|
    requires forall k :: 0 <= k < i ==> s[k] != ' '
    requires forall k :: i <= k < j ==> s[k] == ' '
    requires j == |s| || s[j] != ' '
    ensures CollapseSpaces(s) == s[..i] + " " + CollapseSpaces(s[j..])
  {
    CollapseRun(s, i, j);
    CollapseWord(s[..i], s[i..]);
    assert s == s[..i] + s[i..];
  }

  /** A word, a run of spaces, and a text that does not start with a space split into the word and the pieces of that text. */
  lemma {:induction false} SplitAfterWord(word: string, gap: nat, rest: string)
    requires NoSpace(word) && gap >= 1
    requires rest == [] || rest[0] != ' '
    ensures Split(word + Spaces(gap) + rest) == [word] + Split(rest)
  {
    var s := word + Spaces(gap) + rest;
    forall k | 0 <= k < |word| ensures s[k] != ' ' {
      assert s[k] == word[k];
    }
    assert s[|word|] == ' ';
    NextSpaceAt(s, 0, |word|);
    assert |word| + gap == |s| || s[|word| + gap] == rest[0];
    SpaceRunEndAt(s, |word|, |word| + gap);
    assert s[..|word|] == word;
    assert s[|word| + gap..] == rest;
  }

  /** gap spaces. */
  function Spaces(gap: nat): (r: string)
    ensures |r| == gap && forall k :: 0 <= k < gap ==> r[k] == ' '
  {
    seq(gap, _ => ' ')
  }

  lemma {:induction false} NextSpaceAt(s: string, i: nat, j: nat)
    requires i <= j <= |s|
    requires forall k :: i <= k < j ==> s[k] != ' '
    requires j == |s| || s[j] == ' '
    ensures NextSpace(s, i) == j
    decreases j - i
  {
    if i < j {
      NextSpaceAt(s, i + 1, j);
    }
  }

  lemma {:induction false} SpaceRunEndAt(s: string, i: nat, j: nat)
    requires i <= j <= |s|
    requires forall k :: i <= k < j ==> s[k] == ' '
    requires j == |s| || s[j] != ' '
    ensures SpaceRunEnd(s, i) == j
    decreases j - i
  {
    if i < j {
      SpaceRunEndAt(s, i + 1, j);
    }
  }

  /** A text with no space at either end splits into non-empty words. */
  lemma {:induction false} SplitUnpadded(s: string)
    requires s != [] && s[0] != ' ' && s[|s| - 1] != ' '
    ensures forall k :: 0 <= k < |Split(s)| ==> Split(s)[k] != []
    decreases |s|
  {
    var i := NextSpace(s, 0);
    if i < |s| {
      var j := SpaceRunEnd(s, i);
      assert j < |s|;
      var rest := s[j..];
      assert rest[0] == s[j] && rest[|rest| - 1] == s[|s| - 1];
      SplitUnpadded(rest);
      assert Split(s) == [s[..i]] + Split(rest);
    }
  }

  /** Splitting undoes a join of non-empty, space-free words. */
  lemma {:induction false} SplitJoin(words: seq<string>)
    requires |words| >= 1
    requires forall k :: 0 <= k < |words| ==> words[k] != [] && NoSpace(words[k])
    ensures Split(Join(words)) == words
  {
    var s := Join(words);
    if |words| == 1 {
      NextSpaceAt(s, 0, |s|);
      assert s[..|s|] == s;
    } else {
      var rest := Join(words[1..]);
      assert StartsWith(rest, words[1]) && rest[0] == words[1][0];
      assert Spaces(1) == " ";
      SplitAfterWord(words[0], 1, rest);
      SplitJoin(words[1..]);
      assert words == [words[0]] + words[1..];
    }
  }

  /** The ASCII part of `toLowerCase`. */
  predicate IsUpper(c: char) {
    'A' <= c <= 'Z'
  }

  function LowerChar(c: char): (d: char)
  {
    if IsUpper(c) then (c as int - 'A' as int + 'a' as int) as char else c
  }

  /**
   * c and d are the same character, or one is a capital A-Z and the other
   * its small letter, 32 code points further on.
   */
  predicate SameLetter(c: char, d: char) {
    c == d
    || (IsUpper(c) && d as int == c as int + 32)
    || (IsUpper(d) && c as int == d as int + 32)
  }

  /** Two texts that differ only in the case of ASCII letters. */
  predicate EqualIgnoringCase(a: string, b: string) {
    |a| == |b| && forall i :: 0 <= i < |a| ==> SameLetter(a[i], b[i])
  }

  /**
   * `s.toLowerCase()` on ASCII letters: the result has no capital and is
   * equal to s up to case, which leaves exactly one possible result.
   */
  function ToLower(s: string): (r: string)
    ensures forall i :: 0 <= i < |r| ==> !IsUpper(r[i])
    ensures EqualIgnoringCase(s, r)
  {
    seq(|s|, i requires 0 <= i < |s| => LowerChar(s[i]))
  }

  /** Lowercasing identifies exactly the texts that are equal up to case. */
  lemma {:induction false} LowerIdentifiesCase(a: string, b: string)
    ensures ToLower(a) == ToLower(b) <==> EqualIgnoringCase(a, b)
  {
    if ToLower(a) == ToLower(b) {
      forall i | 0 <= i < |a| ensures SameLetter(a[i], b[i]) {
        assert ToLower(a)[i] == ToLower(b)[i];
      }
    }
  }
}
