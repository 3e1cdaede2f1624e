# MATH world model, verified in Dafny

This project models `MATHWorldModel` from `examples/AQuA/world_model.py` of
llm-reasoners. It is the state-transition function of a search that breaks a
maths question into sub-questions:

- A **state** is the list of answered sub-questions (`SubResult`: sub-question, answer, confidence).
- An **action** is the next sub-question.
- `step` builds a few-shot prompt from the history and the action. It samples completions from the language model in batches, grouped into early-stop checkpoint groups. It tallies them by extracted answer and stops early once one answer is clearly ahead. It takes the plurality answer and its vote share, and appends the answered sub-question to a copy of the state.
- `is_terminal` holds once the newest sub-question contains "Now we can answer".

The model has six modules:

| file | module | contents |
|---|---|---|
| `tally.dfy` | `AnswerTally` | The insertion-ordered `defaultdict(list)` from answer to stripped outputs: the step `Add`, the tally `Build` of a result sequence, and proofs that it groups the results exactly by key in first-seen order. |
| `vote.dfy` | `Vote` | Python's stable `sorted(..., key=len, reverse=True)` as a stable insertion sort, the checkpoint test `ShouldStop`, and the vote `Decide`. Lemmas restate both without the sort: plurality, ties to the first-seen answer, and the share as confidence. |
| `sampler.dfy` | `Sampler` | The nested sampling loops as methods (`Sample`, `DrawGroup`, `RecordBatch`), specified by pure functions. `StopPoint` gives how many completions are drawn, `CallsFrom` which generate calls are made, and `Outcome` the vote. Lemmas about these functions cover where sampling stops, which batches are requested, and what the vote means. |
| `state.dfy` | `MathState` | `SubResult`, `init_state` and `is_terminal` with its substring search. |
| `prompt.dfy` | `Prompt` | The prompt text as a function, the buffer-writing loop that builds it, and lemmas on the prompt's layout. |
| `world_model.dfy` | `MathWorldModel` | The configuration with its defaults, and `step`. |

The language model is an oracle. For a prompt it yields a stream of
completions, in request order. A generate call asking for positions
`[start, stop)` receives exactly that slice, so every call returns as many
outputs as it asked for. `output.strip()` and `utils.retrieve_answer` are
function parameters. Confidences and the threshold are exact `real`s.

## Model

| member | source | states |
|---|---|---|
| MathWorldModel.NewWorldModel | examples/AQuA/world_model.py:25-40 | The configured model keeps every argument. An unset early-stop base becomes the sample budget `n_confidence`; a given one is kept. |
| MathWorldModel.DefaultsDrawEverything | examples/AQuA/world_model.py:28-39 | With all defaults (8 completions, batches of 2, base defaulting to 8), the step is runnable. Sampling always draws all 8 completions, as four calls of 2, whatever the model answers. |
| MathState.InitState | examples/AQuA/world_model.py:42-43 | The initial state is empty and not terminal. |
| MathState.IsTerminal | examples/AQuA/world_model.py:101-105 | Terminal iff the state is non-empty and its last sub-question contains "Now we can answer" as a contiguous substring. |
| MathState.ContainsIffOccurs | examples/AQuA/world_model.py:102 | The left-to-right substring search used for `in` succeeds exactly when the pattern occurs somewhere in the text. |
| MathState.TerminalAfterAppend | examples/AQuA/world_model.py:97-105 | After appending a sub-result, terminality depends only on the new sub-question, whatever came before. |
| MathWorldModel.Step | examples/AQuA/world_model.py:45-99 | The new state is the old one plus exactly one element: the action with the sampled answer and confidence. The aux map holds just that confidence. The answer is `""` with confidence 0 when nothing is sampled; otherwise the confidence is in (0, 1]. The new state is terminal iff the action contains the sentinel text. |
| Prompt.BuildPrompt | examples/AQuA/world_model.py:48-56 | The buffer-writing loop produces exactly the prompt text: the input, the question line, two numbered lines per answered step, the action line, and the open answer prefix. |
| Prompt.PromptFraming | examples/AQuA/world_model.py:49-55 | The prompt starts with the input and the question line, and ends with the answer prefix of step `len(state)+1` with nothing after it. |
| Prompt.HistoryOfPrefix | examples/AQuA/world_model.py:51-53 | The history rendered for any earlier state is a prefix of the history rendered for the later one, so lines already shown are never rewritten. |
| Prompt.StepRenderedAtIndex | examples/AQuA/world_model.py:51-53 | Step `i` (1-based) appears as its sub-question line and answer line labelled `i`, immediately after the lines of steps `1..i-1`. |
| Prompt.HistoryGrowsByStep | examples/AQuA/world_model.py:51-54 | Appending one sub-result adds exactly its two lines, under index `len(state)+1`, the index the pending action was shown under. |
| Prompt.PromptIgnoresConfidence | examples/AQuA/world_model.py:51 | States that differ only in confidences give the same prompt: confidence is never shown to the model. |
| AnswerTally.Add | examples/AQuA/world_model.py:74 | Appending an output changes only the bucket of its key: the bucket is extended at its end, or created at the end of the tally. Keys stay distinct, no bucket is empty, and the total grows by one. |
| AnswerTally.Build | examples/AQuA/world_model.py:71-74 | The tally of a result sequence has distinct keys and non-empty buckets, and its bucket sizes sum to the number of results. |
| AnswerTally.BuildGroupsByKey | examples/AQuA/world_model.py:71-74 | Every bucket holds, in order, all and only the results carrying its key, and a key has a bucket iff some result carries it. |
| AnswerTally.BuildKeepsFirstSeenOrder | examples/AQuA/world_model.py:71-74 | Buckets appear in the order their keys were first seen. |
| Vote.SortBySize | examples/AQuA/world_model.py:90 | The ranking is in descending bucket size and is a permutation of the tally. |
| Vote.SortHeadIsLeader | examples/AQuA/world_model.py:90-91 | The top of the stable ranking is the first-inserted bucket among the largest. |
| Vote.SortSecondShowsTie | examples/AQuA/world_model.py:82 | The second-ranked bucket is as large as the first iff another bucket ties the leader. |
| Vote.EarlyStopRule | examples/AQuA/world_model.py:77-85 | At a checkpoint, sampling stops iff all three hold: the tally is non-empty, the largest bucket's share of the completions requested so far reaches the threshold, and no other bucket is equally large. |
| Vote.UnanimousStop | examples/AQuA/world_model.py:81-85 | With the default threshold 1, a checkpoint stops iff every completion so far gave the same answer. |
| Vote.Decide | examples/AQuA/world_model.py:87-95 | An empty tally gives `("", 0)`. Otherwise the answer is the first output of the leading bucket, and the confidence is the leading size over the total, which lies in (0, 1]. |
| Vote.DecidePicksFirstOfWinningKey | examples/AQuA/world_model.py:91-94 | The answer is the earliest result carrying the winning key. |
| Vote.DecideConfidenceIsShareOfWinningKey | examples/AQuA/world_model.py:95 | The confidence is the number of results carrying the winning key over the number of results. |
| Vote.DecideHasMostVotes | examples/AQuA/world_model.py:90-93 | No key is carried by more results than the winning one. |
| Vote.DecideBreaksTiesByFirstSeen | examples/AQuA/world_model.py:90 | Among keys carried by equally many results, the winner is the one first seen. |
| Sampler.Stripped | examples/AQuA/world_model.py:72 | Each recorded result is the strip of the corresponding output. |
| Sampler.StopPoint | examples/AQuA/world_model.py:59-85 | The number of completions drawn never exceeds `n_confidence`, and is positive whenever the budget is. |
| Sampler.StopPointIsAStop | examples/AQuA/world_model.py:59-85 | Sampling halts at the end of the budget or at a checkpoint (a multiple of the early-stop base). It halts at a checkpoint only when that checkpoint's test passes, and never after a passing checkpoint. |
| Sampler.FirstStopIsStopPoint | examples/AQuA/world_model.py:59-85 | Conversely, any count satisfying those conditions is the number drawn, so the stop is unique. |
| Sampler.DefaultBaseDrawsAll | examples/AQuA/world_model.py:59-60 | When the early-stop base is at least the budget, every completion is drawn. |
| Sampler.CheckpointPassesIffConfident | examples/AQuA/world_model.py:76-85 | The checkpoint test on the first `c` stripped completions passes iff their tally has a clear leader whose share of `c` reaches the threshold. |
| Sampler.UnanimousCheckpoint | examples/AQuA/world_model.py:81-85 | With threshold 1, a checkpoint passes iff all completions so far share one answer. |
| Sampler.Outcome | examples/AQuA/world_model.py:87-95 | With a zero budget the step's result is `("", 0)`; otherwise its confidence is in (0, 1]. |
| Sampler.OutcomeIsPluralityOfDrawn | examples/AQuA/world_model.py:87-95 | The recorded answer is the first drawn completion with the most frequent answer, earlier-seen answers winning ties. The confidence is that answer's share of the completions drawn. |
| Sampler.GroupCallsBatched | examples/AQuA/world_model.py:60-66 | The calls of one group request consecutive slices covering the group exactly. Each starts inside the group, asks for a full batch unless the group ends first, and stops at or before the group's checkpoint. |
| Sampler.CallsFromBatched | examples/AQuA/world_model.py:59-66 | All calls made are scheduled and request the positions `[0, drawn)` back to back. |
| Sampler.BatchesPartitionDrawn | examples/AQuA/world_model.py:62-66 | Batched calls each request between 1 and `batch_size` completions, never cross a checkpoint, and together request exactly the positions they cover. |
| Sampler.RequestedWithinBudget | examples/AQuA/world_model.py:59-66 | The generate calls together request exactly the completions drawn, which is never more than `n_confidence`. |
| Sampler.ZeroBudgetDrawsNothing | examples/AQuA/world_model.py:59-62 | With `n_confidence = 0` the batch size is never used. The sampler fails only on a zero early-stop base; otherwise it draws nothing and makes no call. |
| Sampler.Sample | examples/AQuA/world_model.py:58-95 | The loops draw exactly `StopPoint` completions, make exactly the calls `CallsFrom`, and return the vote over the tally of the stripped completions drawn. |
| Sampler.DrawGroup | examples/AQuA/world_model.py:60-74 | One group draws up to its checkpoint `min(start1 + base, n)`. Its tally becomes that of every stripped completion so far, and it appends the group's calls. |
| Sampler.RecordBatch | examples/AQuA/world_model.py:71-74 | Recording a call's outputs leaves the tally of everything seen so far followed by those outputs, stripped. |

## Left out

- The language model's internals (`generate`, `temperature`, `do_sample`, `hide_input`, `eos_token_id`) are not modelled. It is an oracle stream per prompt, and the `temperature` field is stored but has no effect.
- MathWorldModel.Step: requires the model to yield at least `n_confidence` completions for the prompt. A model that returns fewer outputs than requested, where the early-stop share over `stop1` and the share over the tally would differ, is not modelled.
- MathWorldModel.Step: requires a positive early-stop base, and a positive batch size when `n_confidence` is positive. These are exactly the inputs where a `range` step of zero raises `ValueError`, and that error path is not modelled.
- MathWorldModel.Step: negative `n_confidence`, `batch_size` or `early_stop_base` cannot be expressed, because the fields are `nat`. In Python these give empty ranges, so nothing is sampled and the step records `("", 0)`.
- `output.strip()` and `utils.retrieve_answer` are abstract function parameters. Their text processing is not part of this model.
- Floating-point division is modelled as exact division on `real`. The integer `0` confidence of the empty case is `0.0`.
- The prompt dictionary is a record of four templates, and `str.format` with the step index is a function from `nat` to `string`. A `KeyError` for a missing template is not modelled.
- `self.example` is set by the search framework outside this class, so it is a parameter of `Step`.
- The state is a value. The copy on line 46 and the caller's list staying unchanged are automatic, and list aliasing is not modelled.
- Sampler.Sample: the generate calls are recorded as a ghost sequence of position ranges. The repeated prompt list passed to each call is not recorded.
- `examples/AQuA/inference.py`, the MCTS search, `MATHConfig` reward scoring and the `WorldModel`/`LanguageModel` base classes are not part of this model: they are I/O and orchestration around the world model.
