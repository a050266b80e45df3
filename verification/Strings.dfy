/** The string operations the modelled code uses. */
module Strings {

  predicate Contains(s: string, word: string) {
    word <= s || (s != "" && Contains(s[1..], word))
  }

  lemma {:induction false} ContainsMeans(s: string, word: string)
    ensures Contains(s, word) <==> exists i: nat :: i <= |s| && word <= s[i..]
  {
    if s == "" {
      if word <= s { assert word <= s[0..]; }
    } else {
      ContainsMeans(s[1..], word);
      if word <= s { assert word <= s[0..]; }
      if i: nat :| i <= |s[1..]| && word <= s[1..][i..] { assert s[1..][i..] == s[i + 1..]; }
      if i: nat :| i <= |s| && word <= s[i..] && i > 0 { assert s[1..][i - 1..] == s[i..]; }
    }
  }

  /** s.replace(word, with), for a non-empty word. */
  function Replaced(s: string, word: string, with: string): string
    requires word != ""
    decreases |s|
  {
    if s == "" then ""
    else if word <= s then with + Replaced(s[|word|..], word, with)
    else [s[0]] + Replaced(s[1..], word, with)
  }

  /** str.lower and str.upper on the ASCII letters. */
  function Lower(s: string): string {
    if s == "" then "" else [if 'A' <= s[0] <= 'Z' then s[0] + ' ' else s[0]] + Lower(s[1..])
  }

  function Upper(s: string): string {
    if s == "" then "" else [if 'a' <= s[0] <= 'z' then s[0] - ' ' else s[0]] + Upper(s[1..])
  }

  /** The two characters are the same ASCII letter, or the same character. */
  predicate SameLetter(c: char, d: char) {
    c == d || ('a' <= c <= 'z' && d == c - ' ') || ('a' <= d <= 'z' && c == d - ' ')
  }

  predicate EqualUpToCase(a: string, b: string) {
    |a| == |b| && forall i :: 0 <= i < |a| ==> SameLetter(a[i], b[i])
  }

  lemma {:induction false} UpperEach(s: string)
    ensures |Upper(s)| == |s|
    ensures forall i :: 0 <= i < |s| ==> Upper(s)[i] == if 'a' <= s[i] <= 'z' then s[i] - ' ' else s[i]
  {
    if s == "" {
    } else {
      UpperEach(s[1..]);
    }
  }

  lemma UpperFolds(a: string, b: string)
    ensures Upper(a) == Upper(b) <==> EqualUpToCase(a, b)
  {
    UpperEach(a);
    UpperEach(b);
    if Upper(a) == Upper(b) {
      forall i | 0 <= i < |a| ensures SameLetter(a[i], b[i]) {
        assert Upper(a)[i] == Upper(b)[i];
      }
    }
  }

  lemma {:induction false} LowerEach(s: string)
    ensures |Lower(s)| == |s|
    ensures forall i :: 0 <= i < |s| ==> Lower(s)[i] == if 'A' <= s[i] <= 'Z' then s[i] + ' ' else s[i]
  {
    if s == "" {
    } else {
      LowerEach(s[1..]);
    }
  }

  lemma LowerFolds(a: string, b: string)
    ensures Lower(a) == Lower(b) <==> EqualUpToCase(a, b)
  {
    LowerEach(a);
    LowerEach(b);
    if Lower(a) == Lower(b) {
      forall i | 0 <= i < |a| ensures SameLetter(a[i], b[i]) {
        assert Lower(a)[i] == Lower(b)[i];
      }
    }
  }
}
