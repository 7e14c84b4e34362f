/**
 * The string operations of Python that the handlers use: `str.isspace`
 * (which is also what `\s` matches in a `str` pattern of `re`),
 * `str.strip()`, `str.upper()` and the substring test `sub in s`.
 */
module PyText {

  /** `c.isspace()`: the characters Python counts as whitespace. */
  predicate IsSpace(c: char)
  {
    || ('\t' <= c <= '\r')
    || ('\U{1C}' <= c <= '\U{1F}')
    || c == ' '
    || c == '\U{85}'
    || c == '\U{A0}'
    || c == '\U{1680}'
    || ('\U{2000}' <= c <= '\U{200A}')
    || c == '\U{2028}'
    || c == '\U{2029}'
    || c == '\U{202F}'
    || c == '\U{205F}'
    || c == '\U{3000}'
  }

  predicate AllSpace(s: string)
  {
    forall i :: 0 <= i < |s| ==> IsSpace(s[i])
  }

  predicate StartsWith(s: string, prefix: string)
  {
    |prefix| <= |s| && s[..|prefix|] == prefix
  }

  predicate EndsWith(s: string, suffix: string)
  {
    |suffix| <= |s| && s[|s| - |suffix|..] == suffix
  }

  /** `sub` stands in `s` starting at index `i`. */
  predicate OccursAt(s: string, sub: string, i: int)
  {
    0 <= i && i + |sub| <= |s| && s[i..i + |sub|] == sub
  }

  /** An occurrence begins with the first character of what occurs. */
  lemma OccursAtStart(s: string, sub: string, i: int)
    requires OccursAt(s, sub, i) && sub != []
    ensures s[i] == sub[0]
  {
    assert s[i..i + |sub|][0] == s[i];
  }

  /** What `\s*` consumes at the front of `s`: the longest all-whitespace prefix. */
  function DropLeadingSpace(s: string): (r: string)
    ensures |r| <= |s| && r == s[|s| - |r|..]
    ensures AllSpace(s[..|s| - |r|])
    ensures r == [] || !IsSpace(r[0])
  {
    if |s| > 0 && IsSpace(s[0]) then DropLeadingSpace(s[1..]) else s
  }

  /** The longest all-whitespace suffix of `s` removed. */
  function DropTrailingSpace(s: string): (r: string)
    ensures |r| <= |s| && r == s[..|r|]
    ensures AllSpace(s[|r|..])
    ensures r == [] || !IsSpace(r[|r| - 1])
  {
    if |s| > 0 && IsSpace(s[|s| - 1]) then DropTrailingSpace(s[..|s| - 1]) else s
  }

  /** No all-whitespace prefix is longer than the one `DropLeadingSpace` removes. */
  lemma {:induction false} LeadingSpaceIsLongest(t: string, j: nat)
    requires j <= |t| && AllSpace(t[..j])
    ensures j <= |t| - |DropLeadingSpace(t)|
  {
    if j > 0 {
      assert t[..j][0] == t[0];
      assert t[1..][..j - 1] == t[..j][1..];
      LeadingSpaceIsLongest(t[1..], j - 1);
    }
  }

  /** No all-whitespace suffix is longer than the one `DropTrailingSpace` removes. */
  lemma {:induction false} TrailingSpaceIsLongest(t: string, j: nat)
    requires j <= |t| && AllSpace(t[j..])
    ensures |DropTrailingSpace(t)| <= j
  {
    if j < |t| {
      assert t[j..][|t| - 1 - j] == t[|t| - 1];
      assert t[..|t| - 1][j..] == t[j..][..|t| - 1 - j];
      TrailingSpaceIsLongest(t[..|t| - 1], j);
    }
  }

  /** A string whose last character is not whitespace cannot end with one that is. */
  lemma NoSuffixEndingInSpace(s: string, suffix: string)
    requires s == [] || !IsSpace(s[|s| - 1])
    requires suffix != [] && IsSpace(suffix[|suffix| - 1])
    ensures !EndsWith(s, suffix)
  {
    if |suffix| <= |s| {
      assert s[|s| - |suffix|..][|suffix| - 1] == s[|s| - 1];
    }
  }

  /** `s.strip()`: the part of `s` between its leading and its trailing whitespace. */
  function Strip(s: string): (r: string)
    ensures |r| <= |s|
    ensures exists k :: 0 <= k <= |s| - |r| && r == s[k..k + |r|] && AllSpace(s[..k]) && AllSpace(s[k + |r|..])
    ensures r == [] || (!IsSpace(r[0]) && !IsSpace(r[|r| - 1]))
  {
    var front := DropLeadingSpace(s);
    var r := DropTrailingSpace(front);
    StripWitness(s, |s| - |front|, front, r);
    r
  }

  /**
   * The whitespace `Strip` drops at either end, as a witness position `k`:
   * `front` is `s` after its leading whitespace, `r` is `front` before its
   * trailing whitespace.
   */
  lemma StripWitness(s: string, k: nat, front: string, r: string)
    requires k <= |s| && front == s[k..] && AllSpace(s[..k])
    requires |r| <= |front| && r == front[..|r|] && AllSpace(front[|r|..])
    ensures k <= |s| - |r|
    ensures r == s[k..k + |r|]
    ensures AllSpace(s[k + |r|..])
  {
    SlicesOfSuffix(s, k, |r|);
  }

  /** Cutting the suffix `s[k..]` at `n` gives the two slices of `s` around `k + n`. */
  lemma SlicesOfSuffix(s: string, k: nat, n: nat)
    requires k + n <= |s|
    ensures s[k..][..n] == s[k..k + n]
    ensures s[k..][n..] == s[k + n..]
  {
  }

  /** `c.upper()` for the ASCII letters; every other character is left as it is. */
  function UpperChar(c: char): char
  {
    if 'a' <= c <= 'z' then (c as int - 32) as char else c
  }

  /** `s.upper()`, character by character. */
  function Upper(s: string): (r: string)
    ensures |r| == |s|
    ensures forall i :: 0 <= i < |r| ==> !('a' <= r[i] <= 'z')
    ensures forall i :: 0 <= i < |s| && !('a' <= s[i] <= 'z') ==> r[i] == s[i]
    ensures forall i :: 0 <= i < |s| && 'a' <= s[i] <= 'z' ==>
      'A' <= r[i] <= 'Z' && r[i] as int - 'A' as int == s[i] as int - 'a' as int
  {
    seq(|s|, i requires 0 <= i < |s| => UpperChar(s[i]))
  }

  /** `sub in s` for two strings. */
  predicate Contains(s: string, sub: string)
    ensures Contains(s, sub) ==> |sub| <= |s|
    ensures sub == [] ==> Contains(s, sub)
  {
    StartsWith(s, sub) || (|s| > 0 && Contains(s[1..], sub))
  }

  /** The recursive scan finds `sub` exactly when it occurs somewhere in `s`. */
  lemma {:induction false} ContainsIffOccurs(s: string, sub: string)
    ensures Contains(s, sub) <==> exists i :: OccursAt(s, sub, i)
  {
    if StartsWith(s, sub) {
      assert OccursAt(s, sub, 0);
    } else if |s| > 0 {
      ContainsIffOccurs(s[1..], sub);
      if Contains(s[1..], sub) {
        var i :| OccursAt(s[1..], sub, i);
        assert s[1..][i..i + |sub|] == s[i + 1..i + 1 + |sub|];
        assert OccursAt(s, sub, i + 1);
      }
      if i :| OccursAt(s, sub, i) {
        assert i != 0;
        assert s[1..][i - 1..i - 1 + |sub|] == s[i..i + |sub|];
        assert OccursAt(s[1..], sub, i - 1);
      }
    }
  }

  /** An occurrence survives upper-casing: `Upper` works position by position. */
  lemma UpperKeepsOccurrence(s: string, sub: string, i: int)
    requires OccursAt(s, sub, i)
    ensures OccursAt(Upper(s), Upper(sub), i)
  {
    assert Upper(s)[i..i + |sub|] == Upper(sub);
  }
}
