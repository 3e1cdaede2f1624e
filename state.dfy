/**
 * The state of a question-decomposition search: the sub-questions asked so
 * far, each with the answer the sampler settled on and its confidence.
 */
module MathState {
  /** One answered sub-question. */
  datatype SubResult = SubResult(subQuestion: string, subAnswer: string, confidence: real)

  /** The history of sub-questions, oldest first. */
  type State = seq<SubResult>

  /** A sub-question containing this text announces that the original question can now be answered. */
  const Sentinel: string := "Now we can answer"

  /** `pat` sits in `s` starting at position `i`. */
  predicate MatchesAt(pat: string, s: string, i: nat) {
    i + |pat| <= |s| && s[i..i + |pat|] == pat
  }

  /** `pat` occurs in `s` as a contiguous piece. */
  ghost predicate Occurs(pat: string, s: string) {
    exists i: nat :: MatchesAt(pat, s, i)
  }

  /** Substring search, trying each start position from the left. */
  function Contains(pat: string, s: string): (r: bool)
    decreases |s|
  {
    if |pat| > |s| then false
    else if s[..|pat|] == pat then true
    else Contains(pat, s[1..])
  }

  /** The search finds the pattern exactly when it occurs. */
  lemma {:induction false} ContainsIffOccurs(pat: string, s: string)
    ensures Contains(pat, s) <==> Occurs(pat, s)
    decreases |s|
  {
    if |pat| > |s| {
    } else if s[..|pat|] == pat {
      assert MatchesAt(pat, s, 0);
    } else {
      ContainsIffOccurs(pat, s[1..]);
      if Occurs(pat, s) {
        var i: nat :| MatchesAt(pat, s, i);
        assert i > 0;
        assert s[1..][i - 1..i - 1 + |pat|] == s[i..i + |pat|];
        assert MatchesAt(pat, s[1..], i - 1);
      }
      if Occurs(pat, s[1..]) {
        var i: nat :| MatchesAt(pat, s[1..], i);
        assert s[i + 1..i + 1 + |pat|] == s[1..][i..i + |pat|];
        assert MatchesAt(pat, s, i + 1);
      }
    }
  }

  /** A search starts from the empty history. */
  function InitState(): (s: State)
    ensures |s| == 0 && !IsTerminal(s)
  {
    []
  }

  /** The search is over once the latest sub-question announces that the question can be answered. */
  function IsTerminal(state: State): (r: bool)
    ensures r <==> |state| > 0 && Occurs(Sentinel, state[|state| - 1].subQuestion)
  {
    if |state| > 0 then
      ContainsIffOccurs(Sentinel, state[|state| - 1].subQuestion);
      Contains(Sentinel, state[|state| - 1].subQuestion)
    else false
  }

  /** Only the newest sub-question decides whether a state is terminal. */
  lemma {:induction false} TerminalAfterAppend(state: State, r: SubResult)
    ensures IsTerminal(state + [r]) <==> Occurs(Sentinel, r.subQuestion)
  {
    assert (state + [r])[|state|] == r;
  }
}
