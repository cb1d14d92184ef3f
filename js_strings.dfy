/**
  The two `String.prototype` operations the suffix tests of the codemod and of
  `BraidProvider` rest on.
 */
module JsStrings {

  /** `s` ends with `suffix`, i.e. `s.endsWith(suffix)` or a `$`-anchored match of it. */
  predicate EndsWith(s: string, suffix: string)
  {
    |suffix| <= |s| && s[|s| - |suffix|..] == suffix
  }

  /**
    `s.substr(start)`: a negative `start` counts from the end of the string and
    is clamped at 0; a start past the end gives the empty string.
   */
  function Substr(s: string, start: int): (r: string)
    ensures |r| <= |s|
    ensures r == s[|s| - |r|..]
  {
    var from := if start < 0 then (if |s| + start < 0 then 0 else |s| + start)
                else if start > |s| then |s| else start;
    s[from..]
  }

  /**
    `s.substr(s.length - |t|) === t` is the suffix test: however short `s` is,
    the comparison holds exactly when `s` ends with `t`.
   */
  lemma SubstrFromEndIsSuffixTest(s: string, t: string)
    ensures Substr(s, |s| - |t|) == t <==> EndsWith(s, t)
  {
    if |t| > |s| {
      assert |Substr(s, |s| - |t|)| < |t|;
    }
  }

  /** `s.substr(s.length - n)` keeps the last `n` characters of a string at least `n` long. */
  lemma SubstrKeepsLast(s: string, n: nat)
    requires n <= |s|
    ensures Substr(s, |s| - n) == s[|s| - n..]
  {
  }

  lemma EndsWithLast(s: string, t: string)
    requires EndsWith(s, t) && |t| > 0
    ensures s[|s| - 1] == t[|t| - 1]
  {
    assert s[|s| - |t|..][|t| - 1] == s[|s| - 1];
  }

  lemma EndsWithAppend(s: string, t: string, c: char)
    requires EndsWith(s, t)
    ensures EndsWith(s + [c], t + [c])
  {
    assert (s + [c])[|s| + 1 - |t| - 1..] == s[|s| - |t|..] + [c];
  }

  lemma EndsWithTail(s: string, t: string, n: nat)
    requires EndsWith(s, t) && |t| <= n <= |s|
    ensures EndsWith(s[|s| - n..], t)
  {
    assert s[|s| - n..][n - |t|..] == s[|s| - |t|..];
  }
}
