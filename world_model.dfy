/**
 * The world model of the question-decomposition search: a state is the list
 * of answered sub-questions, an action is the next sub-question, and a step
 * answers the action by self-consistency sampling from the language model.
 */
module MathWorldModel {
  import opened AnswerTally
  import opened Vote
  import opened Sampler
  import opened MathState
  import opened Prompt

  datatype Option<T> = None | Some(value: T)

  /**
   * A configured world model. `lm` is the language model as an oracle: for a
   * prompt, the stream of completions it yields, in request order.
   */
  datatype WorldModel = WorldModel(
    lm: string -> seq<string>,
    prompt: Templates,
    nConfidence: nat,
    batchSize: nat,
    temperature: real,
    earlyStopBase: nat,
    threshold: real)

  /**
   * Configures a world model. Left unset, the early-stop base is the whole
   * sample budget, so the sampler only tests once, after drawing everything.
   */
  function NewWorldModel(lm: string -> seq<string>, prompt: Templates, nConfidence: nat := 8,
                         batchSize: nat := 2, temperature: real := 0.8,
                         earlyStopBase: Option<nat> := None, threshold: real := 1.0): (m: WorldModel)
    ensures m.lm == lm && m.prompt == prompt && m.temperature == temperature
    ensures m.nConfidence == nConfidence && m.batchSize == batchSize && m.threshold == threshold
    ensures earlyStopBase.Some? ==> m.earlyStopBase == earlyStopBase.value
    ensures earlyStopBase.None? ==> m.earlyStopBase == nConfidence
  {
    WorldModel(lm, prompt, nConfidence, batchSize, temperature,
               if earlyStopBase.Some? then earlyStopBase.value else nConfidence, threshold)
  }

  /** The sampling parameters of a world model. */
  function BudgetOf(m: WorldModel): (b: Budget)
    ensures b.nConfidence == m.nConfidence && b.batchSize == m.batchSize
    ensures b.earlyStopBase == m.earlyStopBase && b.threshold == m.threshold
  {
    Budget(m.nConfidence, m.batchSize, m.earlyStopBase, m.threshold)
  }

  /**
   * A world model with every parameter at its default draws all eight
   * completions in batches of two, whatever the model answers: its only
   * checkpoint is the end of the budget.
   */
  lemma {:induction false} DefaultsDrawEverything(lm: string -> seq<string>, prompt: Templates, test: nat -> bool)
    ensures Runnable(BudgetOf(NewWorldModel(lm, prompt)))
    ensures StopPoint(BudgetOf(NewWorldModel(lm, prompt)), test, 0) == 8
    ensures CallsFrom(BudgetOf(NewWorldModel(lm, prompt)), test, 0) ==
            [Request(0, 0, 2), Request(0, 2, 4), Request(0, 4, 6), Request(0, 6, 8)]
  {
    var b := BudgetOf(NewWorldModel(lm, prompt));
    assert b == Budget(8, 2, 8, 1.0);
    DefaultBaseDrawsAll(b, test);
    assert GroupCalls(b, 0, 6, 8) == [Request(0, 6, 8)] + GroupCalls(b, 0, 8, 8);
    assert GroupCalls(b, 0, 4, 8) == [Request(0, 4, 6)] + GroupCalls(b, 0, 6, 8);
    assert GroupCalls(b, 0, 2, 8) == [Request(0, 2, 4)] + GroupCalls(b, 0, 4, 8);
    assert GroupCalls(b, 0, 0, 8) == [Request(0, 0, 2)] + GroupCalls(b, 0, 2, 8);
    assert CallsFrom(b, test, 0) == GroupCalls(b, 0, 0, 8) + (if test(8) then [] else CallsFrom(b, test, 8));
  }

  /** The answer and confidence the sampler settles on for `action` in `state`. */
  function StepOutcome<K(==)>(m: WorldModel, example: string, state: State, action: string,
                              strip: string -> string, key: string -> K): (v: Verdict)
    requires Runnable(BudgetOf(m))
    requires m.nConfidence <= |m.lm(PromptText(m.prompt, example, state, action))|
  {
    Outcome(BudgetOf(m), m.lm(PromptText(m.prompt, example, state, action)), strip, key)
  }

  /**
   * Takes `action` in `state`: builds the prompt, samples and votes on the
   * answer, and returns a copy of the state with the answered sub-question
   * appended, along with the confidence as auxiliary output. `example` is the
   * question under decomposition, `strip` trims a completion and `key`
   * extracts the answer it gives.
   */
  method Step<K(==)>(m: WorldModel, example: string, state: State, action: string,
                     strip: string -> string, key: string -> K)
    returns (next: State, aux: map<string, real>)
    requires Runnable(BudgetOf(m))
    requires m.nConfidence <= |m.lm(PromptText(m.prompt, example, state, action))|
    ensures |next| == |state| + 1 && next[..|state|] == state
    ensures next[|state|].subQuestion == action
    ensures var v := StepOutcome(m, example, state, action, strip, key);
      next[|state|].subAnswer == v.answer && next[|state|].confidence == v.confidence
    ensures aux == map["confidence" := next[|state|].confidence]
    ensures m.nConfidence == 0 ==> next[|state|].subAnswer == "" && next[|state|].confidence == 0.0
    ensures m.nConfidence > 0 ==> 0.0 < next[|state|].confidence <= 1.0
    ensures IsTerminal(next) <==> Occurs(Sentinel, action)
  {
    var copy := state;
    var modelInput := BuildPrompt(m.prompt, example, copy, action);
    var completions := m.lm(modelInput);
    var v, drawn, calls := Sample(BudgetOf(m), completions, strip, key);
    copy := copy + [SubResult(action, v.answer, v.confidence)];
    TerminalAfterAppend(state, SubResult(action, v.answer, v.confidence));
    assert copy[..|state|] == state;
    next := copy;
    aux := map["confidence" := v.confidence];
  }
}
