/**
 * Removal of the Markdown code fence a provider may wrap its reply in.
 * Both handlers first `strip()` the reply and then apply two anchored
 * substitutions:
 *
 *   re.sub(r"^```(?:json)?\s*", "", raw)    (the opening fence)
 *   re.sub(r"\s*```$", "", raw)             (the closing fence)
 *
 * The functions below compute what those substitutions produce; the
 * predicates `OpeningMatch` and `ClosingMatch` say what the patterns
 * match, and the lemmas show that each function removes exactly the match
 * `re.sub` picks (the longest at position 0, the leftmost at the end).
 * `$` matches at the very end and also just before a final "\n".
 */
module Fences {
  import opened PyText

  const Fence := "```"
  const JsonTag := "json"

  /** The result of `re.sub(r"^```(?:json)?\s*", "", s)`. */
  function StripOpeningFence(s: string): (r: string)
    ensures |r| <= |s| && r == s[|s| - |r|..]
    ensures !StartsWith(s, Fence) ==> r == s
    ensures StartsWith(s, Fence) ==> |r| <= |s| - 3 && (r == [] || !IsSpace(r[0]))
  {
    if StartsWith(s, Fence) then
      var rest := if StartsWith(s[3..], JsonTag) then s[7..] else s[3..];
      DropLeadingSpace(rest)
    else s
  }

  /** The result of `re.sub(r"\s*```$", "", s)`. */
  function StripClosingFence(s: string): (r: string)
    ensures |r| <= |s|
    ensures !EndsWith(s, Fence) && !EndsWith(s, Fence + "\n") ==> r == s
    ensures EndsWith(s, Fence) ==> |r| <= |s| - 3 && r == s[..|r|] && (r == [] || !IsSpace(r[|r| - 1]))
  {
    if EndsWith(s, Fence) then DropTrailingSpace(s[..|s| - 3])
    else if EndsWith(s, Fence + "\n") then DropTrailingSpace(s[..|s| - 4]) + "\n"
    else s
  }

  /** Both substitutions, in the order the handlers apply them. */
  function StripFences(s: string): string
  {
    StripClosingFence(StripOpeningFence(s))
  }

  /** The provider's text as `json.loads` receives it: stripped, then unfenced. */
  function CleanReply(raw: string): (r: string)
    ensures |r| <= |Strip(raw)| <= |raw|
    ensures !StartsWith(Strip(raw), Fence) && !EndsWith(Strip(raw), Fence) ==> r == Strip(raw)
  {
    NoSuffixEndingInSpace(Strip(raw), Fence + "\n");
    StripFences(Strip(raw))
  }

  /** `^```(?:json)?\s*` matches `s[..e]`. */
  ghost predicate OpeningMatch(s: string, e: int)
  {
    && 3 <= e <= |s|
    && s[..3] == Fence
    && (AllSpace(s[3..e]) || (7 <= e && s[3..7] == JsonTag && AllSpace(s[7..e])))
  }

  /** `\s*```$` matches `s[i..e]`. */
  ghost predicate ClosingMatch(s: string, i: int, e: int)
  {
    && 0 <= i
    && i + 3 <= e <= |s|
    && AllSpace(s[i..e - 3])
    && s[e - 3..e] == Fence
    && (e == |s| || (e == |s| - 1 && s[e] == '\n'))
  }

  /**
   * The opening substitution removes the longest prefix the pattern
   * matches (the optional `json` is tried first and `\s*` is greedy), and
   * changes nothing when the pattern does not match.
   */
  lemma OpeningFenceRemovesLongestMatch(s: string) returns (e: nat)
    ensures e <= |s| && StripOpeningFence(s) == s[e..]
    ensures StartsWith(s, Fence) ==> OpeningMatch(s, e) && forall e' :: OpeningMatch(s, e') ==> e' <= e
    ensures !StartsWith(s, Fence) ==> e == 0 && forall e' :: !OpeningMatch(s, e')
  {
    if !StartsWith(s, Fence) {
      return 0;
    }
    var tagged := StartsWith(s[3..], JsonTag);
    var b := if tagged then 7 else 3;
    assert s[b..] == (if tagged then s[7..] else s[3..]);
    var r := DropLeadingSpace(s[b..]);
    e := |s| - |r|;
    assert s[b..][..e - b] == s[b..e];
    assert tagged ==> s[3..7] == JsonTag;
    assert OpeningMatch(s, e);
    forall e' | OpeningMatch(s, e') ensures e' <= e {
      OpeningMatchBound(s, e');
    }
  }

  /** No match of the opening pattern extends past what `StripOpeningFence` removes. */
  lemma OpeningMatchBound(s: string, e: int)
    requires OpeningMatch(s, e)
    ensures e <= |s| - |StripOpeningFence(s)|
  {
    if 7 <= e && s[3..7] == JsonTag && AllSpace(s[7..e]) {
      TaggedMatchBound(s, e);
    } else {
      UntaggedMatchBound(s, e);
    }
  }

  lemma TaggedMatchBound(s: string, e: int)
    requires 7 <= e <= |s| && s[..3] == Fence && s[3..7] == JsonTag && AllSpace(s[7..e])
    ensures e <= |s| - |StripOpeningFence(s)|
  {
    assert s[3..][..4] == s[3..7];
    assert s[7..][..e - 7] == s[7..e];
    LeadingSpaceIsLongest(s[7..], e - 7);
  }

  lemma UntaggedMatchBound(s: string, e: int)
    requires 3 <= e <= |s| && s[..3] == Fence && AllSpace(s[3..e])
    ensures e <= |s| - |StripOpeningFence(s)|
  {
    assert s[3..][..e - 3] == s[3..e];
    LeadingSpaceIsLongest(s[3..], e - 3);
    if StartsWith(s[3..], JsonTag) {
      assert s[3..][0] == JsonTag[0];
    }
  }

  /**
   * The closing substitution removes the leftmost match of its pattern;
   * every match ends at the same place, so `re.sub` replaces at most one.
   * With no match the string is unchanged.
   */
  lemma ClosingFenceRemovesLeftmostMatch(s: string) returns (found: bool, i: nat, e: nat)
    ensures found ==> ClosingMatch(s, i, e) && StripClosingFence(s) == s[..i] + s[e..]
    ensures found ==> forall i', e' :: ClosingMatch(s, i', e') ==> i <= i' && e' == e
    ensures !found ==> StripClosingFence(s) == s && forall i', e' :: !ClosingMatch(s, i', e')
  {
    if EndsWith(s, Fence) {
      found, e := true, |s|;
      MatchesEndAt(s, e);
      i := LeftmostMatchStart(s, e);
    } else if EndsWith(s, Fence + "\n") {
      found, e := true, |s| - 1;
      assert s[e - 3..e] == (s[|s| - 4..])[..3];
      assert s[e..] == "\n";
      MatchesEndAt(s, e);
      i := LeftmostMatchStart(s, e);
    } else {
      found, i, e := false, 0, 0;
      NoClosingMatch(s);
    }
  }

  /** Without a fence at the end (or before a final newline) the closing pattern matches nowhere. */
  lemma NoClosingMatch(s: string)
    requires !EndsWith(s, Fence) && !EndsWith(s, Fence + "\n")
    ensures forall i', e' :: !ClosingMatch(s, i', e')
  {
    forall i', e' | ClosingMatch(s, i', e') ensures false {
      ClosingMatchNeedsFence(s, i', e');
    }
  }

  /** A match of the closing pattern means a fence at the end or before a final newline. */
  lemma ClosingMatchNeedsFence(s: string, i: int, e: int)
    requires ClosingMatch(s, i, e)
    ensures EndsWith(s, Fence) || EndsWith(s, Fence + "\n")
  {
    if e == |s| {
      assert s[|s| - 3..] == s[e - 3..e];
    } else {
      assert s[|s| - 4..] == s[e - 3..e] + [s[e]];
    }
  }

  /** Every match of the closing pattern ends at the same index `e`. */
  lemma MatchesEndAt(s: string, e: nat)
    requires (e == |s| && EndsWith(s, Fence)) || (e == |s| - 1 && EndsWith(s, Fence + "\n"))
    ensures forall i', e' :: ClosingMatch(s, i', e') ==> e' == e
  {
    forall i', e' | ClosingMatch(s, i', e') ensures e' == e {
      if e' == |s| {
        assert s[|s| - 1] == s[e' - 3..e'][2] == '`';
      } else {
        assert s[|s| - 1] == '\n';
      }
    }
  }

  /** Among the matches ending at `e`, `\s*` starts earliest where the trailing whitespace run before the fence starts. */
  lemma LeftmostMatchStart(s: string, e: nat) returns (i: nat)
    requires 3 <= e <= |s| && s[e - 3..e] == Fence && (e == |s| || (e == |s| - 1 && s[e] == '\n'))
    ensures ClosingMatch(s, i, e) && DropTrailingSpace(s[..e - 3]) == s[..i]
    ensures forall i' :: ClosingMatch(s, i', e) ==> i <= i'
  {
    var r := DropTrailingSpace(s[..e - 3]);
    i := |r|;
    assert s[..e - 3][i..] == s[i..e - 3];
    forall i' | ClosingMatch(s, i', e) ensures i <= i' {
      assert s[..e - 3][i'..] == s[i'..e - 3];
      TrailingSpaceIsLongest(s[..e - 3], i');
    }
  }

  /** `body` as a provider fences it: "```json", a newline, the body, a newline, "```". */
  function Wrapped(body: string): string
  {
    "```json\n" + body + "\n```"
  }

  /** A body wrapped in a ```json fence comes back exactly. */
  lemma FenceRoundTrip(body: string)
    requires body == [] || (!IsSpace(body[0]) && !IsSpace(body[|body| - 1]))
    ensures StripFences(Wrapped(body)) == body
    ensures CleanReply(Wrapped(body)) == body
  {
    var t := Wrapped(body);
    var unfenced := OpeningOfWrapped(body);
    ClosingOfWrapped(body, unfenced);
    assert t[0] == '`' && t[|t| - 1] == '`';
    StripKeepsTrimmed(t);
  }

  /** `strip()` leaves a string alone that starts and ends with a non-space. */
  lemma StripKeepsTrimmed(t: string)
    requires t != [] && !IsSpace(t[0]) && !IsSpace(t[|t| - 1])
    ensures Strip(t) == t
  {
    assert DropLeadingSpace(t) == t;
  }

  /** The opening substitution on a wrapped body leaves the body and the closing fence. */
  lemma OpeningOfWrapped(body: string) returns (unfenced: string)
    requires body == [] || !IsSpace(body[0])
    ensures unfenced == StripOpeningFence(Wrapped(body))
    ensures unfenced == if body == [] then Fence else body + "\n" + Fence
  {
    var inner := body + "\n" + Fence;
    WrappedParts(body);
    OpeningOfTagged("\n" + inner);
    DropLeadingNewline(inner);
    unfenced := DropLeadingSpace(inner);
    if body == [] {
      assert body + "\n" + Fence == "\n" + Fence;
      InnerOfEmpty();
    } else {
      InnerUnchanged(body);
    }
  }

  /** Without a body, the newline before the closing fence is whitespace too. */
  lemma InnerOfEmpty()
    ensures DropLeadingSpace("\n" + Fence) == Fence
  {
    DropLeadingNewline(Fence);
    FenceHasNoLeadingSpace();
  }

  lemma FenceHasNoLeadingSpace()
    ensures DropLeadingSpace(Fence) == Fence
  {
    assert !IsSpace(Fence[0]);
  }

  /** A body that starts with a non-space is where the opening whitespace ends. */
  lemma InnerUnchanged(body: string)
    requires body != [] && !IsSpace(body[0])
    ensures DropLeadingSpace(body + "\n" + Fence) == body + "\n" + Fence
  {
    assert (body + "\n" + Fence)[0] == body[0];
  }

  lemma DropLeadingNewline(x: string)
    ensures DropLeadingSpace("\n" + x) == DropLeadingSpace(x)
  {
    assert ("\n" + x)[1..] == x;
  }

  /** The wrapped body, split where the opening pattern's parts end. */
  lemma WrappedParts(body: string)
    ensures Wrapped(body) == Fence + JsonTag + ("\n" + (body + "\n" + Fence))
  {
  }

  /** After "```json" the opening substitution removes just the whitespace that follows. */
  lemma OpeningOfTagged(rest: string)
    ensures StripOpeningFence(Fence + JsonTag + rest) == DropLeadingSpace(rest)
  {
    var t := Fence + JsonTag + rest;
    assert t[..3] == Fence;
    assert t[3..][..4] == JsonTag;
    assert t[7..] == rest;
  }

  /** The closing substitution on what the opening one left gives the body back. */
  lemma ClosingOfWrapped(body: string, unfenced: string)
    requires body == [] || !IsSpace(body[|body| - 1])
    requires unfenced == if body == [] then Fence else body + "\n" + Fence
    ensures StripClosingFence(unfenced) == body
  {
    if body != [] {
      assert unfenced[..|unfenced| - 3] == body + "\n";
      assert (body + "\n")[..|body|] == body;
    }
  }

  /** Text with no fence at either end is passed through untouched. */
  lemma UnfencedUnchanged(s: string)
    requires !StartsWith(s, Fence) && !EndsWith(s, Fence) && !EndsWith(s, Fence + "\n")
    ensures StripFences(s) == s
  {
  }

  /**
   * `$` also matches before a final newline, which the substitution keeps:
   * a body followed by a fence and a newline loses only the fence.
   */
  lemma ClosingFenceBeforeFinalNewline(body: string)
    requires body == [] || !IsSpace(body[|body| - 1])
    ensures StripClosingFence(body + Fence + "\n") == body + "\n"
  {
    var s := body + Fence + "\n";
    assert s[|s| - 3..][2] == '\n';
    assert s[|s| - 4..] == Fence + "\n";
    assert s[..|s| - 4] == body;
  }
}
