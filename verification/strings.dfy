/** Generic predicates and searches over strings (`seq<char>`). */
module Strings {
  import opened Wrappers

  /** Every character of `s` is in the class `p`. */
  predicate All(s: string, p: char -> bool) {
    forall i :: 0 <= i < |s| ==> p(s[i])
  }

  /** Some character of `s` is in the class `p` (Python's `re.search("[class]", s)`). */
  predicate Any(s: string, p: char -> bool) {
    exists i :: 0 <= i < |s| && p(s[i])
  }

  predicate StartsWith(s: string, prefix: string) {
    |prefix| <= |s| && s[..|prefix|] == prefix
  }

  predicate EndsWith(s: string, suffix: string) {
    |suffix| <= |s| && s[|s| - |suffix|..] == suffix
  }

  /** A string that starts with `prefix + more` starts with `prefix`. */
  lemma StartsWithShorter(s: string, prefix: string, more: string)
    requires StartsWith(s, prefix + more)
    ensures StartsWith(s, prefix)
  {
    assert s[..|prefix|] == (prefix + more)[..|prefix|];
  }

  /** A string that starts with `prefix` holds each character of `prefix` at the same place. */
  lemma PrefixChar(s: string, prefix: string, i: nat)
    requires i < |prefix|
    ensures StartsWith(s, prefix) ==> i < |s| && s[i] == prefix[i] && prefix[i] in s
  {
    if StartsWith(s, prefix) {
      assert s[..|prefix|][i] == s[i];
    }
  }

  /** No character of `s` belongs to `cs`. */
  predicate Excludes(s: string, cs: set<char>) {
    forall i :: 0 <= i < |s| ==> s[i] !in cs
  }

  /** A slice keeps every exclusion of the whole, and a narrower set is excluded too. */
  lemma ExcludesSlice(s: string, cs: set<char>, ds: set<char>, lo: nat, hi: nat)
    requires Excludes(s, cs) && ds <= cs
    requires lo <= hi <= |s|
    ensures Excludes(s[lo..hi], ds)
  {
    forall i | 0 <= i < hi - lo
      ensures s[lo..hi][i] !in ds
    {
      assert s[lo..hi][i] == s[lo + i];
    }
  }

  /** An excluded character does not occur. */
  lemma ExcludesNotIn(s: string, cs: set<char>, c: char)
    requires Excludes(s, cs) && c in cs
    ensures c !in s
  {
  }

  /** Exclusions carry over to a concatenation. */
  lemma ExcludesConcat(a: string, b: string, cs: set<char>)
    requires Excludes(a, cs) && Excludes(b, cs)
    ensures Excludes(a + b, cs)
  {
    forall i | 0 <= i < |a + b|
      ensures (a + b)[i] !in cs
    {
      if i >= |a| {
        assert (a + b)[i] == b[i - |a|];
      }
    }
  }

  /** A class holds of every character iff it holds of the first and of every later one. */
  lemma AllUncons(s: string, p: char -> bool)
    requires |s| > 0
    ensures All(s, p) <==> p(s[0]) && All(s[1..], p)
  {
    if p(s[0]) && All(s[1..], p) {
      forall i | 0 <= i < |s|
        ensures p(s[i])
      {
        if i > 0 {
          assert s[i] == s[1..][i - 1];
        }
      }
    }
  }

  /**
   * Python's `re.match("^[class]+$", s)`: one or more class characters running to the
   * end, where `$` also matches just before a final line break.
   */
  predicate PyFullMatchPlus(s: string, p: char -> bool) {
    || (|s| > 0 && All(s, p))
    || (|s| > 1 && s[|s| - 1] == '\n' && All(s[..|s| - 1], p))
  }

  /** On text without a line break, Python's `$` quirk cannot apply. */
  lemma PyFullMatchPlusStrict(s: string, p: char -> bool)
    requires '\n' !in s
    ensures PyFullMatchPlus(s, p) <==> |s| > 0 && All(s, p)
  {
  }

  /** When the class includes the line break, the quirk adds nothing either. */
  lemma PyFullMatchPlusLineBreakInClass(s: string, p: char -> bool)
    requires p('\n')
    ensures PyFullMatchPlus(s, p) <==> |s| > 0 && All(s, p)
  {
    if |s| > 1 && s[|s| - 1] == '\n' && All(s[..|s| - 1], p) {
      forall i | 0 <= i < |s|
        ensures p(s[i])
      {
        if i < |s| - 1 {
          assert s[i] == s[..|s| - 1][i];
        }
      }
    }
  }

  /**
   * The first index at or after `start` holding a character of `cs`, or `|s|` when there is
   * none (Python's `find`, with "not found" reported as the length).
   */
  function IndexOfAny(s: string, start: nat, cs: set<char>): (r: nat)
    requires start <= |s|
    ensures start <= r <= |s|
    ensures r < |s| ==> s[r] in cs
    ensures forall i :: start <= i < r ==> s[i] !in cs
    decreases |s| - start
  {
    if start == |s| then |s|
    else if s[start] in cs then start
    else IndexOfAny(s, start + 1, cs)
  }

  /** The last index holding `c` (Python's `rfind`), if any. */
  function LastIndexOf(s: string, c: char): (r: Option<nat>)
    ensures r.None? <==> c !in s
    ensures r.Some? ==> r.value < |s| && s[r.value] == c
    ensures r.Some? ==> forall i :: r.value < i < |s| ==> s[i] != c
  {
    if |s| == 0 then None
    else if s[|s| - 1] == c then Some(|s| - 1)
    else
      var r := LastIndexOf(s[..|s| - 1], c);
      assert forall i :: 0 <= i < |s| - 1 ==> s[..|s| - 1][i] == s[i];
      r
  }

  /** The part of `s` before its first character of `cs` (`s.split(c, 1)[0]`). */
  function CutAtAny(s: string, cs: set<char>): (r: string)
    ensures StartsWith(s, r)
    ensures forall i :: 0 <= i < |r| ==> r[i] !in cs
    ensures |r| < |s| ==> s[|r|] in cs
  {
    s[..IndexOfAny(s, 0, cs)]
  }

  /** ASCII lower-casing, as `str.lower()` acts on ASCII text. */
  function AsciiLower(s: string): (r: string)
    ensures |r| == |s|
    ensures forall i :: 0 <= i < |s| ==> (if 'A' <= s[i] <= 'Z' then r[i] == s[i] - 'A' + 'a' else r[i] == s[i])
  {
    if |s| == 0 then []
    else [if 'A' <= s[0] <= 'Z' then s[0] - 'A' + 'a' else s[0]] + AsciiLower(s[1..])
  }
}
