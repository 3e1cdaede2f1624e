/**
 * The prompt a step sends to the language model: the task's few-shot input,
 * the question under decomposition, every sub-question answered so far with
 * its answer, numbered from 1, then the new sub-question and an open answer
 * line for the model to complete.
 */
module Prompt {
  import opened MathState

  /**
   * The prompt templates of a world model. The sub-question and answer
   * prefixes are formatted with the 1-based index of the step they label.
   */
  datatype Templates = Templates(
    input: string,
    questionPrefix: string,
    subquestionPrefix: nat -> string,
    answerPrefix: nat -> string)

  /** The few-shot input followed by the question line. */
  function Header(t: Templates, example: string): string {
    t.input + t.questionPrefix + example + "\n"
  }

  /** The two lines recording answered step `i`: its sub-question, then its answer. */
  function StepLines(t: Templates, i: nat, r: SubResult): string {
    t.subquestionPrefix(i) + " " + r.subQuestion + "\n" + t.answerPrefix(i) + " " + r.subAnswer + "\n"
  }

  /** The lines of every answered step, oldest first, numbered from 1. */
  function History(t: Templates, state: State): string
    decreases |state|
  {
    if state == [] then ""
    else History(t, state[..|state| - 1]) + StepLines(t, |state|, state[|state| - 1])
  }

  /** The new sub-question under the next index, and the open answer line after it. */
  function Pending(t: Templates, n: nat, action: string): string {
    t.subquestionPrefix(n + 1) + " " + action + "\n" + t.answerPrefix(n + 1)
  }

  /** The whole prompt for taking `action` in `state`. */
  function PromptText(t: Templates, example: string, state: State, action: string): string {
    Header(t, example) + History(t, state) + Pending(t, |state|, action)
  }

  /**
   * Writes the prompt into a buffer, part after part: the input, the
   * question line, the two lines of each answered step, then the new
   * sub-question and the open answer prefix.
   */
  method BuildPrompt(t: Templates, example: string, state: State, action: string) returns (text: string)
    ensures text == PromptText(t, example, state, action)
  {
    var f := "";
    f := f + t.input;
    f := f + (t.questionPrefix + example + "\n");
    for idx := 0 to |state|
      invariant f == Header(t, example) + History(t, state[..idx])
    {
      var r := state[idx];
      assert state[..idx + 1][..idx] == state[..idx];
      f := f + (t.subquestionPrefix(idx + 1) + " " + r.subQuestion + "\n");
      f := f + (t.answerPrefix(idx + 1) + " " + r.subAnswer + "\n");
    }
    assert state[..|state|] == state;
    f := f + (t.subquestionPrefix(|state| + 1) + " " + action + "\n");
    f := f + t.answerPrefix(|state| + 1);
    text := f;
  }

  /** `p` is a prefix of `s`. */
  predicate IsPrefix(p: string, s: string) {
    |p| <= |s| && s[..|p|] == p
  }

  /**
   * The history of an earlier state is where the history of a later one
   * starts: rendering never rewrites the lines of steps already shown.
   */
  lemma {:induction false} HistoryOfPrefix(t: Templates, state: State, k: nat)
    requires k <= |state|
    ensures IsPrefix(History(t, state[..k]), History(t, state))
    decreases |state|
  {
    if k < |state| {
      var front := state[..|state| - 1];
      assert front[..k] == state[..k];
      HistoryOfPrefix(t, front, k);
      var h := History(t, front);
      var lines := StepLines(t, |state|, state[|state| - 1]);
      assert History(t, state) == h + lines;
      assert (h + lines)[..|h|] == h;
    } else {
      assert state[..k] == state;
    }
  }

  /**
   * Step `i` (from 1) of the state is rendered as its own two lines,
   * right after the lines of the steps before it.
   */
  lemma {:induction false} StepRenderedAtIndex(t: Templates, state: State, i: nat)
    requires 1 <= i <= |state|
    ensures IsPrefix(History(t, state[..i - 1]) + StepLines(t, i, state[i - 1]), History(t, state))
  {
    var front := state[..i];
    assert front[..|front| - 1] == state[..i - 1];
    assert History(t, front) == History(t, state[..i - 1]) + StepLines(t, i, state[i - 1]);
    HistoryOfPrefix(t, state, i);
  }

  /**
   * The prompt starts with the input and the question line, and ends with
   * the open answer prefix of the next step, nothing after it.
   */
  lemma {:induction false} PromptFraming(t: Templates, example: string, state: State, action: string)
    ensures IsPrefix(t.input + t.questionPrefix + example + "\n", PromptText(t, example, state, action))
    ensures var p := PromptText(t, example, state, action);
      var open := t.answerPrefix(|state| + 1);
      |open| <= |p| && p[|p| - |open|..] == open
  {
    var h := Header(t, example);
    var rest := History(t, state) + Pending(t, |state|, action);
    assert PromptText(t, example, state, action) == h + rest;
    assert (h + rest)[..|h|] == h;
  }

  /** The confidences of earlier steps are never shown to the model. */
  lemma {:induction false} PromptIgnoresConfidence(t: Templates, example: string, s1: State, s2: State, action: string)
    requires |s1| == |s2|
    requires forall i :: 0 <= i < |s1| ==>
      s1[i].subQuestion == s2[i].subQuestion && s1[i].subAnswer == s2[i].subAnswer
    ensures PromptText(t, example, s1, action) == PromptText(t, example, s2, action)
  {
    HistoryIgnoresConfidence(t, s1, s2);
  }

  lemma {:induction false} HistoryIgnoresConfidence(t: Templates, s1: State, s2: State)
    requires |s1| == |s2|
    requires forall i :: 0 <= i < |s1| ==>
      s1[i].subQuestion == s2[i].subQuestion && s1[i].subAnswer == s2[i].subAnswer
    ensures History(t, s1) == History(t, s2)
    decreases |s1|
  {
    if s1 != [] {
      HistoryIgnoresConfidence(t, s1[..|s1| - 1], s2[..|s2| - 1]);
    }
  }

  /** Taking a step adds exactly its two lines to the history shown in the next prompt. */
  lemma {:induction false} HistoryGrowsByStep(t: Templates, state: State, r: SubResult)
    ensures History(t, state + [r]) == History(t, state) + StepLines(t, |state| + 1, r)
  {
    assert (state + [r])[..|state|] == state;
  }
}
