/** Go's strings.Replace(s, old, new, -1) for a non-empty old string: every non-overlapping occurrence, left to right. */
module Strings {

  function ReplaceAll(s: string, pattern: string, replacement: string): (r: string)
    requires |pattern| > 0
    ensures replacement == pattern ==> r == s
    decreases |s|
  {
    if |s| < |pattern| then s
    else if s[..|pattern|] == pattern then
      assert s == s[..|pattern|] + s[|pattern|..];
      replacement + ReplaceAll(s[|pattern|..], pattern, replacement)
    else
      assert s == [s[0]] + s[1..];
      [s[0]] + ReplaceAll(s[1..], pattern, replacement)
  }

  /** Text without the first character of the pattern cannot start an occurrence: it is copied unchanged. */
  lemma {:induction false} ReplaceSkipsFree(a: string, b: string, pattern: string, replacement: string)
    requires |pattern| > 0
    requires pattern[0] !in a
    ensures ReplaceAll(a + b, pattern, replacement) == a + ReplaceAll(b, pattern, replacement)
  {
    var s := a + b;
    if a == [] {
      assert s == b;
    } else if |s| < |pattern| {
      assert ReplaceAll(b, pattern, replacement) == b;
    } else {
      assert s[0] == a[0] && s[1..] == a[1..] + b;
      assert s[..|pattern|][0] != pattern[0];
      ReplaceSkipsFree(a[1..], b, pattern, replacement);
      assert [a[0]] + (a[1..] + ReplaceAll(b, pattern, replacement)) == a + ReplaceAll(b, pattern, replacement);
    }
  }

  /**
   * Text whose front is not an occurrence of the pattern, including a near
   * miss such as "{sx" or a tail shorter than the pattern, keeps its first
   * character and the scan resumes one character later.
   */
  lemma ReplaceSkipsMismatch(c: char, b: string, pattern: string, replacement: string)
    requires |pattern| > 0
    requires !(|[c] + b| >= |pattern| && ([c] + b)[..|pattern|] == pattern)
    ensures ReplaceAll([c] + b, pattern, replacement) == [c] + ReplaceAll(b, pattern, replacement)
  {
    assert ([c] + b)[0] == c && ([c] + b)[1..] == b;
    if |[c] + b| < |pattern| {
      assert ReplaceAll(b, pattern, replacement) == b;
    }
  }

  /** An occurrence of pattern at the front is replaced and the scan resumes after it. */
  lemma ReplaceAtOccurrence(b: string, pattern: string, replacement: string)
    requires |pattern| > 0
    ensures ReplaceAll(pattern + b, pattern, replacement) == replacement + ReplaceAll(b, pattern, replacement)
  {
    assert (pattern + b)[..|pattern|] == pattern && (pattern + b)[|pattern|..] == b;
  }

  /**
   * Another placeholder that starts like the pattern but differs at its second
   * character (such as {user} against {shape}) is copied unchanged.
   */
  lemma ReplaceSkipsOther(o: string, b: string, pattern: string, replacement: string)
    requires |pattern| >= 2 && |o| >= 2
    requires o[0] == pattern[0] && o[1] != pattern[1]
    requires pattern[0] !in o[1..]
    ensures ReplaceAll(o + b, pattern, replacement) == o + ReplaceAll(b, pattern, replacement)
  {
    var s := o + b;
    var rest := ReplaceAll(b, pattern, replacement);
    if |s| >= |pattern| {
      assert s[..|pattern|] != pattern by {
        assert s[..|pattern|][1] == o[1];
      }
      calc {
        ReplaceAll(s, pattern, replacement);
        [s[0]] + ReplaceAll(s[1..], pattern, replacement);
        { assert s[0] == o[0] && s[1..] == o[1..] + b; }
        [o[0]] + ReplaceAll(o[1..] + b, pattern, replacement);
        { ReplaceSkipsFree(o[1..], b, pattern, replacement); }
        [o[0]] + (o[1..] + rest);
        { assert [o[0]] + o[1..] == o; }
        o + rest;
      }
    } else {
      assert rest == b;
    }
  }
}
