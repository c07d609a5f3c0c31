# Statewright, modelled in Dafny

Statewright runs language-model agents through declared state machines and repairs code under
evidence-driven control. This project models its most intricate logic and proves what that logic
guarantees over every input, every run and every reachable state.

| file | what it models |
|---|---|
| `Glob.dfy` | the interrupt path matcher: one loop that remembers only the last `*` |
| `Machine.dfy` | options and results, saturating counters, JSON values, workflow definitions |
| `Executor.dfy` | one agent session: steps, approvals, invocations, iteration limits |
| `Orchestrator.dfy` | the recursive runner with step and depth budgets |
| `ProtocolHistory.dfy` | stored conversations, safe window starts, rendering of interrupted tool calls |
| `TextScan.dfy` | searching text and cutting it at delimiters, with the split that is the only one |
| `JsonScan.dfy` | the string-aware brace scanner, against a grammar of objects |
| `NativeToolCalls.dfy` | tool calls inside a decoded JSON value |
| `ThinkingBlocks.dfy` | the two passes that strip thinking blocks |
| `ToolCallRescue.dfy` | the five strategies that rescue tool calls from text |
| `Signals.dfy`, `Checkpoint.dfy` | typed evidence and the store that keeps the best checkpoint |
| `StableSort.dfy`, `CandidateBank.dfy` | stable sorting, and the bounded bank of candidate patches |
| `Fanout.dfy` | ranking of tournament candidates and the guard on the arbiter |
| `Validator.dfy` | breadth-first reachability, tool privileges, acceptance of generated machines |
| `Escalation.dfy` | how accepted machines come to external tools, along checked targets, all moves and runs |
| `CausalControl.dfy`, `CausalRepair.dfy` | the serial routing policy and the causal repair controller |

Code that updates fields is a class whose methods are proved equal to a function on the object's
value; the theorems about whole runs are lemmas about that function, and what one operation means is
said once more by lemmas in terms of fields, keys and positions. Loops of the source are loops
here. Transition resolution, JSON decoding, model replies, `git` readings, the arbiter's answer and
the results of text heuristics are arbitrary parameters, so every theorem holds for all of them.

## What turned out to hold, and what did not

- The matcher never revisits a star before the last one, and is still exact: between two matches of
  the same star-free segment, the later one reached over a slash-free run, there is no slash at all
  (`Glob.LaterMatchCrossesNoSlash`), so a following star can absorb the difference (`Glob.GreedyStar`).
- Nested runs end, with `total_steps <= max_steps + max_depth * max(max_child_steps - 1, 0)`. The
  counters only grow and each session's own `step_count` stays within the same value, so the 32-bit
  counters of the source cannot overflow when it fits.
- "Exactly one correlated result per call" (crates/agent/src/tool_protocol.rs:188-190) is not true of
  every stored history: a second stored result for a call is kept (`ProtocolHistory.DuplicateResultIsKept`).
  `ProtocolHistory.OneResultExactlyWhen` gives the exact condition on the stored messages.
- A running session can stand in a final state (`Executor.SessionsRunInFinalStates`), in exactly two
  ways: the initial state is final, or `fail_invoke` resumes in a final `on_fail` state
  (`Executor.RunsInFinalStateExactlyWhen` for every run, `Executor.MachineRunsInFinalStateExactlyWhen`
  for every machine).
- Validation looks at one target of every transition (crates/engine/src/types.rs:184-194), but a session
  also takes later guarded branches, `on_fail` states, `safe_next` and `$return`. An accepted dangerous
  machine can therefore come to external tools without approval straight from reading
  (`Escalation.AcceptedMachineSlipsThrough`); `Escalation.AlwaysApproachedExactlyWhen` has the exact
  condition on those unchecked targets, and `Escalation.SessionSlipsExactlyWhen` says the same of sessions.
- Stripping thinking blocks can leave a complete `<think>` block (`ThinkingBlocks.ThinkBlockCanReappear`).
  There is one cause: the second pass puts a tag together (`ThinkingBlocks.BlockLeftExactlyWhen` for what
  is left in the end, `ThinkingBlocks.NeverHoldsExactlyWhen` for every text on the way).
- The checkpoint store keeps evidence when an observation reads another patch that was not begun, so the
  retained patch can carry a pass of an earlier one (`Checkpoint.EvidenceCanBeForeign`).
  `Checkpoint.AttributedExactlyWhen` says when evidence belongs to the patch it is stored with.
- Rescoring a feedback-only candidate can lower its score, after better ones were dropped
  (`CandidateBank.RescoringCanLoseTheBest`). `CandidateBank.BestKeptExactlyWhen` says when the best are
  kept, and `CandidateBank.TopKExactlyWhen` when the bank is the exact top-k, the order of equals included.
- `feedback_only_branch_can_discard_current` is always false: the candidates it may choose from
  exclude feedback-only ones (`CandidateBank.FeedbackOnlyBranchCanDiscardCurrent`).
- A trusted pass does not always outrank a failed run of the same change: with at least 8 changed lines it
  does not from 23 files on, with at most 4 not from 21 files on (`CandidateBank.TrustedPassOutranksFailure`
  has the exact condition, `CandidateBank.WidePassDoesNotOutrank` a change).

## Model

| member | source | states |
|---|---|---|
| Glob.GlobMatchImpl | crates/engine/src/interrupt.rs:23-80 | For every pattern and path the one-star-memory loop terminates and answers exactly the backtracking relation `Matches`. |
| Glob.MatchDoubleStar | crates/engine/src/interrupt.rs:32-50 | At `**` the answer no longer depends on earlier stars: it is whether the rest of the pattern matches some suffix. |
| Glob.MatchSomeSuffix | crates/engine/src/interrupt.rs:40-49 | Trying every later position decides whether the rest matches some suffix; an empty rest always does. |
| Glob.OnlyStarsLeft | crates/engine/src/interrupt.rs:74-79 | Once the path is used up the pattern matches exactly if only stars are left. |
| Glob.LaterMatchCrossesNoSlash | crates/engine/src/interrupt.rs:61-68 | If a segment matches here and again after a slash-free run, the bytes between the two ends hold no slash. |
| Glob.GreedyStar | crates/engine/src/interrupt.rs:51-54 | Once the segment after the last star has matched at the earliest place and a star follows, the earlier star need never move again. |
| Glob.GreedyEnd | crates/engine/src/interrupt.rs:29-79 | When the path ends inside the current attempt, moving the last star cannot help. |
| Glob.AttemptBacktracks | crates/engine/src/interrupt.rs:61-68 | A stuck attempt can only be saved by moving the last star past a byte that is not a slash. |
| Glob.SameDepth | crates/engine/src/interrupt.rs:51-71 | A pattern without `**` matches only paths with equally many `/`. |
| Glob.LiteralMatch | crates/engine/src/interrupt.rs:58-60 | A pattern without wildcards matches exactly itself. |
| Glob.FirstByteMeans | crates/engine/src/interrupt.rs:55-60 | A `?` in front asks for one byte that is no slash, any other byte but a star for itself. |
| Glob.SingleStarMeans | crates/engine/src/interrupt.rs:51-54 | A single star in front stands for any run without a slash, the empty one included. |
| Glob.DoubleStarPrefix | crates/engine/src/interrupt.rs:32-50 | `**/rest` matches the non-empty paths some suffix of which `rest` matches, and never the empty path. |
| Executor.TrailingRun | crates/agent/src/executor.rs:115-120 | The longest block of records in the given state at the end of the trace. |
| Executor.ExecutionState.constructor | crates/agent/src/executor.rs:92-103 | A new session runs in the initial state with the declared context and an empty trace. |
| Executor.ExecutionState.Step | crates/agent/src/executor.rs:107-278 | One step is `StepNext` of the old session and the next chat outcome, and reads an outcome only while running with iterations left. |
| Executor.ExecutionState.CountTrailing | crates/agent/src/executor.rs:112-122 | Counting back from the end gives the trailing run of the current state. |
| Executor.ExecutionState.Approve | crates/agent/src/executor.rs:282-315 | Approval is `ApproveNext` of the old session: the pending transition is resolved again and taken. |
| Executor.ExecutionState.Reject | crates/agent/src/executor.rs:318-325 | Rejection fails the session in every status, in `failed` if that state exists. |
| Executor.ExecutionState.CompleteInvoke | crates/agent/src/executor.rs:329-361 | Completion succeeds exactly for a waiting session; the context becomes, key by key, the child's values over the parent's, and the session lands in `on_complete`, completed if that is final. |
| Executor.ExecutionState.FailInvoke | crates/agent/src/executor.rs:365-387 | Failure resumes running in `on_fail` even if that is final, or fails the session when there is none. |
| Executor.MergeExactly | crates/agent/src/executor.rs:335-349 | The merged context is the only one with the keys of both in which the child's values go before the parent's; without a child context nothing changes, and what is no object has no keys. |
| Executor.StepMeans | crates/agent/src/executor.rs:107-278 | What a step does in every case: refused, out of iterations, failed chat, and for a reply what it asks for and resolves to, with the record it leaves. |
| Executor.ResumptionsMean | crates/agent/src/executor.rs:282-387 | What approve, reject, complete_invoke and fail_invoke do in every status; none of them touches the trace. |
| Executor.ExhaustedExactly | crates/agent/src/executor.rs:112-122 | Iterations are used up exactly if as many records as allowed stand in the state at the end of the trace. |
| Executor.StepKeepsStatusInvariant | crates/agent/src/executor.rs:227-261 | Every operation keeps: a parked session's gated transition still resolves, and a completed session is in a final state. |
| Executor.ApplyExtends | crates/agent/src/executor.rs:183-193 | An operation leaves the trace alone or appends one record of the current state with the new step count, while iterations are left. |
| Executor.ReachableInvariant | crates/agent/src/executor.rs:107-387 | Under any interleaving of the five operations the trace and status invariants hold. |
| Executor.TraceRespectsIterationLimits | crates/agent/src/executor.rs:112-135 | In every reachable trace a contiguous block in a state with `max_iterations` m has at most m records, and step numbers strictly increase. |
| Executor.ParkedSessionIsFrozen | crates/agent/src/executor.rs:108-110 | While a session waits for approval no operation but approve and reject changes anything. |
| Executor.ApprovalLandsWhereItParked | crates/agent/src/executor.rs:235-241 | A waiting session was parked by one step of the run and has not changed since; approving succeeds and lands on exactly the target and context resolved then. |
| Executor.EveryMoveIsJustified | crates/agent/src/executor.rs:195-274 | In every reachable session a step moves only on FAIL, to exactly where FAIL leads, or along an ungated transition that invokes nothing; gated transitions are entered by approve alone; a completed invocation merges key by key. |
| Executor.OnlyFailInvokeRunsInFinalState | crates/agent/src/executor.rs:371-375 | From a session that does not run in a final state, one operation leads to one that does exactly if it is a `fail_invoke` into a final `on_fail` state. |
| Executor.RunsInFinalStateExactlyWhen | crates/agent/src/executor.rs:92-387 | In every run some session runs in a final state exactly if the initial state is final or a sub-machine fails into a final `on_fail` state. |
| Executor.MachineRunsInFinalStateExactlyWhen | crates/agent/src/executor.rs:92-387 | A machine can come to run in a final state exactly if it starts in one or some run waits for a sub-machine whose `on_fail` is final. |
| Executor.SessionsRunInFinalStates | crates/agent/src/executor.rs:365-387 | A machine and two runs of it that end running in a final state, one after `fail_invoke`, one at once. |
| Orchestrator.RunAtDepth | crates/agent/src/orchestrator.rs:40-157 | For every reply stream, registry and resolver the run ends with the outcome that its turns lead to; the outcome is accounted for and explained by the run that the status forces. |
| Orchestrator.RunTask | crates/agent/src/orchestrator.rs:64-155 | The loop ends, and its result is the outcome: the session takes the turns its status forces until the budget is used up, it has ended, or a step fails. |
| Orchestrator.OutcomeIsUnique | crates/agent/src/orchestrator.rs:40-157 | Replies, registry and resolver determine the result and how many replies are read. |
| Orchestrator.OutcomeIsAccounted | crates/agent/src/orchestrator.rs:64-155 | Steps stay within the closed bound, invocations within steps, replies read within steps + invocations + 1; success holds exactly without an error, in a final state and strictly below the step budget. |
| Orchestrator.OutcomeIsExplained | crates/agent/src/orchestrator.rs:64-155 | The result describes the session that operations forced by the status lead to: steps while running, approval when gated, completion or failure of an invocation, never a rejection; success means completed within the budget, failure means budget, failed session, failed step or depth; the session's own step count stays within the bound. |
| Orchestrator.CompletedRunSucceeds | crates/agent/src/orchestrator.rs:79-88 | A run whose forced turns complete within the budget succeeds, with that session's state and context. |
| Orchestrator.ParentFollowsChild | crates/agent/src/orchestrator.rs:104-142 | The parent goes on where the child's own success or failure leads, with the child's context merged in only on success; an unregistered machine counts as failed. |
| Orchestrator.GatedRunIsApproved | crates/agent/src/orchestrator.rs:100-103 | One reply that asks for a gated transition: the gate is approved and the run succeeds after one step. |
| Orchestrator.InvokeChild | crates/agent/src/orchestrator.rs:104-142 | The invocation is the turn that the child's outcome forces, with its steps, calls and replies added. |
| Orchestrator.RunMachine | crates/agent/src/orchestrator.rs:30-38 | The same from depth 0, with `total_steps <= max_steps + max_depth * max(max_child_steps - 1, 0)`. |
| Orchestrator.ChildFits | crates/agent/src/orchestrator.rs:124-130 | A child within its own bound keeps its parent within the parent's bound. |
| ProtocolHistory.ProtocolConversation.ProtocolWindow | crates/agent/src/tool_protocol.rs:191-233 | Apart from the inserted results the window is exactly the entries from its start on, in order, and the reported ids are exactly those of the inserted results. |
| ProtocolHistory.ProtocolConversation.ProtocolSafeStart | crates/agent/src/tool_protocol.rs:235-264 | The start is the request, unless the requested entry holds results and some earlier entry announces all the calls they answer; then it is the last such entry. |
| ProtocolHistory.LastSupplier | crates/agent/src/tool_protocol.rs:247-262 | The last entry before a position that supplies all required ids, if there is one. |
| ProtocolHistory.CloseInterruptedCalls | crates/agent/src/tool_protocol.rs:272-285 | One synthetic result per open call is appended, in order, and its id reported. |
| ProtocolHistory.AppendMessage | crates/agent/src/tool_protocol.rs:203-226 | Writing one message keeps the written part plus the rest equal to the whole rendering. |
| ProtocolHistory.SafeStartIsStart | crates/agent/src/tool_protocol.rs:235-264 | The same for the start as a function of history and request. |
| ProtocolHistory.WindowIsEntries | crates/agent/src/tool_protocol.rs:191-233 | The stored part of a window is the entries from that start on: what was pushed for them, or the plain message itself. |
| ProtocolHistory.EverythingIsAccountable | crates/agent/src/tool_protocol.rs:272-285 | Every rendered message is stored, or an inserted result that names an announced call and its tool. |
| ProtocolHistory.RenderingCloses | crates/agent/src/tool_protocol.rs:203-228 | Every announced call has a result after it, before any message that is not a tool result. |
| ProtocolHistory.RenderingOnlyInserts | crates/agent/src/tool_protocol.rs:191-233 | Without the inserted results the rendering is the stored messages in order. |
| ProtocolHistory.RenderingIsIdempotent | crates/agent/src/tool_protocol.rs:191-233 | Rendering a rendered history changes nothing and inserts nothing. |
| ProtocolHistory.ResultsOfRendering | crates/agent/src/tool_protocol.rs:212-228 | A rendering answers an id by its stored results and by one more per call left open. |
| ProtocolHistory.OneResultExactlyWhen | crates/agent/src/tool_protocol.rs:188-233 | For every stored history, each call has exactly one result exactly when stored results and calls left open make one for every announced id. |
| ProtocolHistory.OneResultInOrdinaryHistories | crates/agent/src/tool_protocol.rs:155-182 | If tool results announce nothing, that means: each announced id is answered by one stored result, or by none and announced once. |
| ProtocolHistory.DuplicateResultIsKept | crates/agent/src/tool_protocol.rs:212-224 | A second stored result of the same call survives rendering. |
| ProtocolHistory.WindowHasNoOrphans | crates/agent/src/tool_protocol.rs:191-264 | If result entries follow the turn that announced their calls, directly or after other results of that turn, then for every requested start each rendered result has its call earlier in the window. |
| ProtocolHistory.SafeStartHoldsNoResults | crates/agent/src/tool_protocol.rs:235-264 | Under the same condition a window never starts among the results of a turn. |
| ProtocolHistory.ProtocolConversation.Push | crates/agent/src/tool_protocol.rs:138-140 | A plain message is appended and the pairing of results with their turn is kept. |
| ProtocolHistory.ProtocolConversation.PushWithProtocol | crates/agent/src/tool_protocol.rs:142-146 | The plain message is appended with its protocol messages under its index; the pairing is kept unless they hold results that the last turn did not announce. |
| ProtocolHistory.ProtocolConversation.ExtendProtocolTrace | crates/agent/src/tool_protocol.rs:148-153 | Every message of the trace becomes an entry of its own; a trace whose results answer the last turn before them keeps the pairing. |
| ProtocolHistory.ProtocolConversation.PushAssistantToolTurn | crates/agent/src/tool_protocol.rs:155-168 | An assistant turn announcing the calls is appended and the pairing is kept. |
| ProtocolHistory.ProtocolConversation.PushToolResults | crates/agent/src/tool_protocol.rs:170-182 | The results are appended; if the last turn announced what they answer, the pairing is kept. |
| JsonScan.JsonObjectCandidates | crates/agent/src/tool_protocol.rs:593-630 | The candidates are exactly the spans from a brace at depth 0 to the first return to depth 0, ordered and disjoint. |
| JsonScan.FoundIsUnique | crates/agent/src/tool_protocol.rs:593-630 | Only one sequence of spans is that. |
| JsonScan.BalancedJsonObjectAt | crates/agent/src/tool_protocol.rs:632-637 | At a `{` the scan returns the slice up to the first return to depth zero, or nothing. |
| JsonScan.CloseAtMeaning | crates/agent/src/tool_protocol.rs:600-628 | The counted end is the first later position at depth 0. |
| JsonScan.ObjectEndIsGrammatical | crates/agent/src/tool_protocol.rs:593-637 | The scan ends at a position exactly if a text of the object grammar (strings with escapes, nested objects) stands from the brace to there. |
| ToolCallRescue.RescueTextToolCalls | crates/agent/src/tool_protocol.rs:370-401 | For every text and decoder the rescue ends, every call names a supplied tool, and the calls come from the first strategy that yields any. |
| ToolCallRescue.ExtractJsonToolCalls | crates/agent/src/tool_protocol.rs:403-417 | The whole text as one document if that yields calls, otherwise the calls of its top-level objects in order. |
| ToolCallRescue.JsonCallsExactly | crates/agent/src/tool_protocol.rs:403-417 | If the whole document yields calls they are the answer; otherwise a call is found exactly if a top-level object that decodes yields it. |
| ToolCallRescue.SpanCallsInOrder | crates/agent/src/tool_protocol.rs:412-416 | The calls of the objects come in the order of the objects. |
| ToolCallRescue.FenceIsStripped | crates/agent/src/tool_protocol.rs:680-692 | A fenced text loses its first line and its closing fence and is trimmed; any other text is left alone. |
| ToolCallRescue.StrategiesInOrder | crates/agent/src/tool_protocol.rs:377-400 | Tagged JSON, any JSON, rehearsed calls, function markup, marked calls, in this order. |
| TextScan.TrimExactly | crates/agent/src/tool_protocol.rs:372-372 | Trimming gives the only text that neither begins nor ends with space and has only space around it. |
| ToolCallRescue.ParseMarkedCalls | crates/agent/src/tool_protocol.rs:419-447 | The marker loop ends and collects the calls at the sites it meets. |
| ToolCallRescue.RehearsalStands | crates/agent/src/tool_protocol.rs:639-650 | The name of a rehearsed call is the whole identifier before the marker, with only space between name, marker and object. |
| ToolCallRescue.MistralStands | crates/agent/src/tool_protocol.rs:652-663 | The name of a marked call is the identifier after the marker, with only space between marker, name and object. |
| ToolCallRescue.NextSite | crates/agent/src/tool_protocol.rs:495-522 | A site lies ahead of the offset and holds a balanced object; the scan resumes past the object or the marker. |
| ToolCallRescue.SitesAdvance | crates/agent/src/tool_protocol.rs:430-444 | The objects that a marker scan consumes are balanced, ordered and disjoint. |
| ToolCallRescue.SitesAreComplete | crates/agent/src/tool_protocol.rs:423-446 | Every marker with a name and an object is the site of a consumed object or stands inside one. |
| ToolCallRescue.RescuedExactlyAtSites | crates/agent/src/tool_protocol.rs:435-444 | One call, in order, for each consumed object that decodes to a JSON object under the name of a supplied tool, with that object as arguments, and no other. |
| NativeToolCalls.NativeCalls | crates/agent/src/tool_protocol.rs:538-580 | Recursion through arrays and nested `tool_calls` ends, and every call names a supplied tool. |
| NativeToolCalls.SingleExactly | crates/agent/src/tool_protocol.rs:553-580 | A single value yields exactly the call it describes, if that names a supplied tool: the function's name before `tool`, `arguments` before `args`, neither means no arguments, a missing type means function. |
| NativeToolCalls.CallsInOrder | crates/agent/src/tool_protocol.rs:539-550 | The calls of many values are the calls of each, in order. |
| NativeToolCalls.CallsOfMembers | crates/agent/src/tool_protocol.rs:539-550 | An array and an envelope yield the calls of their members. |
| NativeToolCalls.CallsRoundTrip | crates/agent/src/tool_protocol.rs:538-580 | Calls of supplied tools written in wire form come back, all of them and in order. |
| NativeToolCalls.EnvelopeRoundTrip | crates/agent/src/tool_protocol.rs:539-544 | Also inside a `tool_calls` envelope. |
| NativeToolCalls.ShortRoundTrip | crates/agent/src/tool_protocol.rs:553-580 | Name and arguments alone come back as a function call without id. |
| TextScan.CutDecides | crates/agent/src/tool_protocol.rs:452-463 | Looking for the first occurrence of each delimiter in turn succeeds exactly if they occur in that order without overlap. |
| TextScan.SplitAssembles | crates/agent/src/tool_protocol.rs:524-536 | Every text is made of blocks whose pieces each end where their delimiter first occurs, and a tail without a further block. |
| TextScan.SplitIsUnique | crates/agent/src/tool_protocol.rs:524-536 | No other blocks and tail make up the text, so splitting inverts assembling. |
| ToolCallRescue.ParseMarkupCalls | crates/agent/src/tool_protocol.rs:449-493 | The text is split at the element tags in the only possible way, and there is one call, in order, for each element whose trimmed name is a supplied tool, with the last value of each parameter. |
| ToolCallRescue.ParseParameters | crates/agent/src/tool_protocol.rs:468-489 | The keys are exactly those of the parameters met, and each has the decoded or literal value of its last parameter. |
| ToolCallRescue.LastWinsDetermines | crates/agent/src/tool_protocol.rs:484-484 | That determines the arguments. |
| ToolCallRescue.ParametersAreDelimited | crates/agent/src/tool_protocol.rs:469-488 | The parameters met are those of the only split at opening and closing tags, followed by those of its tail, in which nothing is closed and each value ends at the next parameter. |
| ToolCallRescue.ParameterMeans | crates/agent/src/tool_protocol.rs:474-481 | Keys are trimmed of space, values of line breaks only. |
| ToolCallRescue.ElementMeans | crates/agent/src/tool_protocol.rs:457-462 | The tool's name is the trimmed text of the tag, the body what stands up to the closing tag. |
| ToolCallRescue.KnownElementsInOrder | crates/agent/src/tool_protocol.rs:464-466 | Elements of unknown tools are left out, and the rest keeps its order. |
| ToolCallRescue.TaggedBodies | crates/agent/src/tool_protocol.rs:524-536 | The bodies are the texts between the tags in a split of the text: no tag before an opening one, no closing one inside a body, no complete block in the tail. |
| ToolCallRescue.TaggedExactly | crates/agent/src/tool_protocol.rs:524-536 | The bodies of any such split are the ones returned. |
| ThinkingBlocks.StripThinkingBlocks | crates/agent/src/tool_protocol.rs:665-678 | After both passes no complete `[THINK]` block is left, and a `<think>` block exactly if the second pass put one of its tags together; none if no removal joins a tag. |
| ThinkingBlocks.RemovalJoins | crates/agent/src/tool_protocol.rs:673-674 | Removing text between two parts makes a block exactly if one of the tags of a block lies across the seam. |
| ThinkingBlocks.NeverHoldsExactlyWhen | crates/agent/src/tool_protocol.rs:668-675 | From a text without blocks, no text on the way of a pass over another tag holds one exactly if no removal joins a tag that has its partner. |
| ThinkingBlocks.BlockLeftExactlyWhen | crates/agent/src/tool_protocol.rs:668-675 | From a text without blocks, a pass over another tag leaves a block exactly if one of its tags did not stand together before. |
| ThinkingBlocks.ThinkBlockCanReappear | crates/agent/src/tool_protocol.rs:665-678 | A text from which both passes leave a complete `<think>` block. |
| ThinkingBlocks.StripTagLeavesNoBlock | crates/agent/src/tool_protocol.rs:668-675 | After a tag's pass no complete block of that tag is left, and a text without one is unchanged. |
| ThinkingBlocks.StripTagRemoves | crates/agent/src/tool_protocol.rs:668-675 | A pass removes the first block, its tags included, and goes on with what stood around it. |
| Checkpoint.PatchChangeAtoms | crates/cli/src/causal_checkpoint.rs:318-342 | One pass over the lines collects the multiset of changed lines, each under the file of the last header before it. |
| Checkpoint.AtomsExactly | crates/cli/src/causal_checkpoint.rs:318-342 | Each atom is counted as often as lines of the patch are it: an added or removed line, no file marker, under the last header, which names the file. |
| Checkpoint.QualityOrder | crates/cli/src/causal_checkpoint.rs:24-32 | A fixed reproducer counts most, then an improved task scope, then a regression pass, then a structural pass. |
| Checkpoint.ReplacesExactly | crates/cli/src/causal_checkpoint.rs:298-303 | A candidate replaces the retained one exactly if its evidence is better, or equal while its changed lines properly include a non-empty retained patch. |
| Checkpoint.ContainmentIsProper | crates/cli/src/causal_checkpoint.rs:305-316 | The counting test is proper inclusion of a non-empty multiset of changed lines. |
| Checkpoint.ReplacementIsIrreflexive | crates/cli/src/causal_checkpoint.rs:298-303 | Nothing replaces itself. |
| Checkpoint.ReplacementIsTransitive | crates/cli/src/causal_checkpoint.rs:298-303 | Replacement is transitive, so it is a strict partial order. |
| Checkpoint.CausalCheckpointStore.Begin | crates/cli/src/causal_checkpoint.rs:113-118 | A new fingerprint drops the current evidence, the same one keeps everything. |
| Checkpoint.CausalCheckpointStore.Scope | crates/cli/src/causal_checkpoint.rs:124-127 | The signal is added to the evidence and the candidate considered; captured means that the retained one changed. |
| Checkpoint.CausalCheckpointStore.Reproducer | crates/cli/src/causal_checkpoint.rs:129-132 | The same for a reproducer delta. |
| Checkpoint.CausalCheckpointStore.ConsiderCurrent | crates/cli/src/causal_checkpoint.rs:195-248 | Only a backed, readable, non-empty patch is considered, and it is captured exactly if it replaces the retained one. |
| Checkpoint.RetainedIsBest | crates/cli/src/causal_checkpoint.rs:195-248 | After any run the retained checkpoint is a candidate of the run, no candidate of the run would replace it, and its quality is the highest seen. |
| Checkpoint.CurrentEvidenceExactly | crates/cli/src/causal_checkpoint.rs:41-61 | In every run the current evidence holds exactly what was reported since a patch was begun under another fingerprint. |
| Checkpoint.RetainedEvidenceExactly | crates/cli/src/causal_checkpoint.rs:219-234 | The retained checkpoint is what one operation of the run read and captured, and its evidence holds exactly what was reported by then since the patch was begun. |
| Checkpoint.AttributedExactlyWhen | crates/cli/src/causal_checkpoint.rs:195-248 | In every run each flag of the retained checkpoint was always reported by an operation that read its patch exactly if, at each capture, whatever was reported since the patch was begun was also reported on the captured patch. |
| Checkpoint.AgreementAttributes | crates/cli/src/causal_checkpoint.rs:195-248 | That is so whenever all readings since a patch was begun agree. |
| Checkpoint.EvidenceCanBeForeign | crates/cli/src/causal_checkpoint.rs:213-228 | A run that retains a patch with a regression pass although the regression failed on it. |
| StableSort.StableSortIsUnique | crates/cli/src/candidate_bank.rs:885-890 | Order and peers determine a sorted sequence, so the modelled sort is the only stable one. |
| StableSort.OnlineTopK | crates/cli/src/candidate_bank.rs:884-915 | Pruning to the best k after every arrival gives the best k of all arrivals. |
| StableSort.ReplacedTopKExactlyWhen | crates/cli/src/candidate_bank.rs:488-540 | Replacing a kept element in place by one that has not arrived and sorting gives the best k of all arrivals, the new one last, exactly if it ranks before everything dropped and ties with nothing kept behind it. |
| CandidateBank.BankIsTopK | crates/cli/src/candidate_bank.rs:351-391 | In every run in which rescored candidates settle, from any sorted bank, the bank is the first `max_candidates` entries of the stable sort of all arrivals, a rescored candidate arriving anew. |
| CandidateBank.TopKExactlyWhen | crates/cli/src/candidate_bank.rs:480-540 | In every run whose id counter does not saturate, the bank is always that top-k exactly if each rescored candidate ranks before everything dropped so far and ties with no kept one behind its place. |
| CandidateBank.RaisingSettles | crates/cli/src/candidate_bank.rs:497-499 | A rescoring to a higher score always settles. |
| CandidateBank.ArrivalsArePushes | crates/cli/src/candidate_bank.rs:351-391 | Without rescoring everything settles, and the arrivals are what the bank started with and everything pushed since; from the empty bank, everything ever pushed. |
| CandidateBank.KeptOrDropped | crates/cli/src/candidate_bank.rs:884-915 | In every run the arrivals are exactly the kept and the dropped candidates. |
| CandidateBank.BestKeptExactlyWhen | crates/cli/src/candidate_bank.rs:480-540 | In every run no dropped candidate ever ranks before a kept one exactly if no rescored candidate falls behind one dropped before. |
| CandidateBank.RescoringCanLoseTheBest | crates/cli/src/candidate_bank.rs:480-540 | A run that keeps a candidate at -39 after dropping one at 44. |
| CandidateBank.RunIsWellKept | crates/cli/src/candidate_bank.rs:394-586 | In every run, rescoring included, the bank is within capacity, scores never rise towards its end and at equal scores sizes never fall, and ids are distinct until the counter saturates. |
| CandidateBank.RunKeepsApart | crates/cli/src/candidate_bank.rs:310-330 | In every run no two passes share files and scope, no two feedback-only passes share files, and no two failures share files and signature. |
| CandidateBank.EffectExactly | crates/cli/src/candidate_bank.rs:460-488 | A recording is ignored exactly if it is not eligible or a duplicate; otherwise it rescores the first candidate it corroborates, and if there is none it is pushed under the next id. |
| CandidateBank.EligibleMeans | crates/cli/src/candidate_bank.rs:402-414 | Recorded is only a change of source files with changed lines, and from an invalid scope only a trusted pass. |
| CandidateBank.MatchesMean | crates/cli/src/candidate_bank.rs:460-488 | What makes a recording a duplicate and which candidates it corroborates, by files, scope and signature. |
| CandidateBank.NewCandidateMeans | crates/cli/src/candidate_bank.rs:540-556 | What a new candidate holds. |
| CandidateBank.CorroboratedMeans | crates/cli/src/candidate_bank.rs:497-500 | Corroboration adds one validation and scores the change anew; the rest stays. |
| CandidateBank.CandidateBank.RecordFailedCandidate | crates/cli/src/candidate_bank.rs:268-392 | A failed run is recorded as `Record` says; a disabled bank does not change. |
| CandidateBank.CandidateBank.RecordFeedbackPassCandidate | crates/cli/src/candidate_bank.rs:394-586 | A passing run is recorded as `Record` says, by corroboration where it applies. |
| CandidateBank.CandidateBank.PruneToCapacity | crates/cli/src/candidate_bank.rs:884-915 | Sorting and popping leave the first `max_candidates` entries of the stable sort. |
| CandidateBank.BestMatching | crates/cli/src/candidate_bank.rs:680-707 | The choice is an allowed candidate that none beats and the last of its equals, or nothing if none is allowed. |
| CandidateBank.RestoreBestBeforeFinal | crates/cli/src/candidate_bank.rs:588-665 | Restored is a trusted pass of source files that no other one beats by score, then validations, then size, only over an empty diff or one at least 20 points lower, and whenever such a candidate exists. |
| CandidateBank.FeedbackOnlyBranchCanDiscardCurrent | crates/cli/src/candidate_bank.rs:667-674 | The answer is always no. |
| CandidateBank.TrustedPassOutranksFailure | crates/cli/src/candidate_bank.rs:1027-1075 | The exact widths and sizes for which a trusted pass outscores a first clean failure of the same change. |
| CandidateBank.WidePassDoesNotOutrank | crates/cli/src/candidate_bank.rs:1027-1075 | One line in each of 23 files gives both the same score. |
| CandidateBank.PassScoreMeans | crates/cli/src/candidate_bank.rs:1061-1075 | 140 for a trusted pass, 45 and 8 for each of three further validations otherwise, less 10 for every further file and 1 for every line beyond eight. |
| CandidateBank.CleanScoreMeans | crates/cli/src/candidate_bank.rs:1027-1038 | 100 for a first clean failure, less 8 for every further file and 1 for every line beyond four. |
| CandidateBank.UncleanScoreMeans | crates/cli/src/candidate_bank.rs:1038-1058 | What repeating a failure, syntax errors, invalid scopes, import errors and missing tests cost. |
| CandidateBank.CurrentScoreMeans | crates/cli/src/candidate_bank.rs:1091-1100 | The current diff is weighed as a first clean failure of it, an empty one below everything. |
| CandidateBank.CorroborationStaysBelowTrust | crates/cli/src/candidate_bank.rs:1061-1075 | However often corroborated, a feedback-only pass stays at least 71 below a trusted pass of the same change. |
| Fanout.RankedSelectable | crates/cli/src/candidate_fanout.rs:2227-2286 | The selectable candidates, each before those it ranks ahead of: the higher score, then the size nearer to the median, the lower penalty, the higher prior, the smaller change, the id. |
| Fanout.RankMeans | crates/cli/src/candidate_fanout.rs:2265-2286 | The comparator chain is that order of fields. |
| Fanout.ScoreOfSignals | crates/cli/src/candidate_fanout.rs:2513-2568 | Other things equal, a pass scores over a source scope pass, that over a regression pass, that over a feedback pass, that over other signals, and those over an untested one, by these points. |
| Fanout.ScoreOfFields | crates/cli/src/candidate_fanout.rs:2513-2568 | What locus, import error, timeout, repair failure, penalty, prior and size are worth; an unselectable candidate is worth -1000. |
| Fanout.MedianIsMedian | crates/cli/src/candidate_fanout.rs:2319-2337 | Twice the median is twice the middle size, or the sum of the two middle ones, of the positive sizes of selectable candidates. |
| Fanout.RankIsPreorder | crates/cli/src/candidate_fanout.rs:2265-2286 | The comparator chain is a total preorder for every median. |
| Fanout.MedianIgnoresOrder | crates/cli/src/candidate_fanout.rs:2319-2337 | The doubled median depends only on which candidates there are. |
| Fanout.RankingIgnoresOrder | crates/cli/src/candidate_fanout.rs:2227-2286 | With distinct candidate ids the ranking does not depend on the order of execution. |
| Fanout.StaticRiskMinimum | crates/cli/src/candidate_fanout.rs:2351-2377 | The fallback is the first shortlisted candidate of least static risk. |
| Fanout.RiskMeans | crates/cli/src/candidate_fanout.rs:2361-2377 | Less risk means: the better validated, then at the issue's locus, the lower penalty, no timeout, the smaller change, the higher score, the higher prior, the id. |
| Fanout.RiskRanksSignals | crates/cli/src/candidate_fanout.rs:2361-2377 | Lower risk never means a lower validation rank. |
| Fanout.AllowedIsSound | crates/cli/src/candidate_fanout.rs:2435-2473 | What the guard lets through has the highest validation rank of the shortlist and no higher penalty than the fallback. |
| Fanout.AllowedExactly | crates/cli/src/candidate_fanout.rs:2435-2473 | The guard lets through exactly the better validated choice, at equal rank the lower penalty, then the one at the locus, and a barely validated one only if at most 8 lines larger. |
| Fanout.ById | crates/cli/src/candidate_fanout.rs:849-854 | The arbiter's id is looked up on the shortlist only. |
| Fanout.SelectCandidate | crates/cli/src/candidate_fanout.rs:771-954 | Whatever the arbiter answers, the winner is selectable; an arbitrated one is shortlisted, of highest validation rank and of no higher penalty than the fallback; a heuristic one ranks ahead of every selectable candidate by score, median distance, penalty, prior, size and id; no winner means that none is selectable. |
| Fanout.SelectExactly | crates/cli/src/candidate_fanout.rs:849-953 | A clear winner wins at once, and so does the first without an arbiter; otherwise the arbiter's answer wins if it names a shortlisted candidate that the guard allows, and the fallback if not. |
| Fanout.SelectIsSound | crates/cli/src/candidate_fanout.rs:849-953 | The same guarantees for the decision as a function of ranking and answer. |
| Fanout.SelectionIgnoresOrder | crates/cli/src/candidate_fanout.rs:771-954 | With distinct ids and the same answer the winner does not depend on the order of execution. |
| Validator.CanReach | crates/agent/src/validator.rs:158-178 | Breadth-first search ends and finds the target exactly if a path with at least one transition leads there. |
| Validator.MaxOf | crates/agent/src/validator.rs:146-155 | The highest privilege of the listed tools, attained by one of them. |
| Validator.PrivilegesOfTools | crates/agent/src/validator.rs:182-200 | The privilege level of every tool. |
| Validator.StatesThatCannotFail | crates/agent/src/validator.rs:64-77 | No finding exactly if every non-final state can reach `failed`. |
| Validator.DangerousTools | crates/agent/src/validator.rs:79-97 | No tool is listed exactly if all are below privilege 2. |
| Validator.FindApproval | crates/agent/src/validator.rs:99-111 | Found exactly if some transition requires approval. |
| Validator.Escalations | crates/agent/src/validator.rs:113-137 | No finding exactly if no transition of a non-final state jumps to privilege 4 without approval. |
| Validator.ValidateAgentMachine | crates/agent/src/validator.rs:36-144 | There are no findings exactly if the machine is acceptable. |
| Validator.AcceptedMeans | crates/agent/src/validator.rs:36-144 | Acceptable means: no structural finding, a final `failed` state that every non-final state can reach, and for a moderate or dangerous machine a quiet initial state, some gate, and a gate on every checked jump from reading to external tools. |
| Escalation.ExternalToolsAreApproached | crates/agent/src/validator.rs:79-137 | In an accepted moderate or dangerous machine, on any path along checked targets without approval, from the initial state through non-final states, the first state with privilege 4 directly follows one with 2 or 3. |
| Escalation.AlwaysApproachedExactlyWhen | crates/agent/src/validator.rs:113-137 | The same holds along all moves without approval exactly if no reading state that such moves reach has an unchecked target with external tools. |
| Escalation.AcceptedMachineSlipsThrough | crates/agent/src/validator.rs:113-137 | An accepted dangerous machine whose second guarded branch leads from reading to `deploy` without approval. |
| Escalation.LeakySessionSlips | crates/engine/src/transition.rs:83-126 | One step of a session of that machine, which goes on running with `deploy`. |
| Escalation.LiveMovesAreFree | crates/engine/src/transition.rs:6-180 | In every run with a resolver that answers from the definition, a session that is not failed moves, except by approval, along a declared branch, failure state, fallback or return. |
| Escalation.RunsApproachExternalTools | crates/agent/src/validator.rs:113-137 | In every run of an accepted moderate or dangerous machine, a live session gets from a non-final state to external tools without approval only from a state that may write, execute or already use them, or from one with an unchecked escalation. |
| Escalation.MoveIsTaken | crates/engine/src/transition.rs:6-180 | Every move without approval is taken by a session, directly or through a sub-machine. |
| Escalation.SessionSlipsExactlyWhen | crates/agent/src/validator.rs:113-137 | In an accepted moderate or dangerous machine some session gets from reading to external tools without approval exactly if a reading state that moves without approval reach has an unchecked target with external tools. |
| CausalControl.SerialRepairPolicy.constructor | crates/cli/src/causal_control.rs:44-52 | The budget is at least 2 and nothing has happened yet. |
| CausalControl.SerialRepairPolicy.RecordValidEdit | crates/cli/src/causal_control.rs:54-56 | The edit counter goes up by one and saturates. |
| CausalControl.SerialRepairPolicy.DecideRoute | crates/cli/src/causal_control.rs:58-122 | Route and new policy are those of `Decide`. |
| CausalControl.RoutesFollowHistory | crates/cli/src/causal_control.rs:86-122 | In every run a failing candidate is reset rather than repaired exactly if there is a checkpoint and the decision just before repaired the same signature; regression candidates are audited only after task evidence was acquired, which happens once. |
| CausalControl.RouteExactly | crates/cli/src/causal_control.rs:58-122 | In every run the next route is determined by the situation, by whether task evidence was acquired, by whether the edits have used up the budget, and by whether the decision before repaired the same failure. |
| CausalControl.AcceptedIsClean | crates/cli/src/causal_control.rs:192-222 | A candidate is accepted exactly if nothing blocks it and the task is shown to be solved; while something blocks it, it is only repaired, reset or bounded. |
| CausalControl.AcquiredAtMostOnce | crates/cli/src/causal_control.rs:86-98 | In every run task evidence is acquired at most once. |
| CausalControl.CounterIsTrailingRun | crates/cli/src/causal_control.rs:105-127 | In every run the failure counter is the length of the trailing run of repairs with the same signature. |
| CausalControl.NoRepeatedRepairWithCheckpoint | crates/cli/src/causal_control.rs:112-117 | With a checkpoint two consecutive repairs never have the same signature. |
| CausalControl.ExplorationIsBounded | crates/cli/src/causal_control.rs:100-121 | If every decision follows a valid edit, at most `max(budget, 2) - 1` decisions with a checkpoint refine, repair or reset. |
| CausalRepair.CausalRepairController.Record | crates/cli/src/causal_repair.rs:184-213 | The event is traced in any case and moves the state exactly if it is accepted. |
| CausalRepair.ReplayReproduces | crates/cli/src/causal_repair.rs:184-213 | Replaying only the accepted events is accepted throughout and ends in the same state. |
| CausalRepair.TraceIsConnected | crates/cli/src/causal_repair.rs:184-213 | The trace holds every event in order, numbered, each starting where the last one ended. |
| CausalRepair.FrozenIsAbsorbing | crates/cli/src/causal_repair.rs:216-275 | No event leaves Frozen. |
| CausalRepair.NextStateExactly | crates/cli/src/causal_repair.rs:216-275 | Which events are accepted in which states, and where they lead. |
| CausalRepair.BadNewsCounts | crates/cli/src/causal_repair.rs:243-249 | In every run a failed validation takes an open trajectory, however green, back to planning. |
| CausalRepair.GreenIsReachable | crates/cli/src/causal_repair.rs:222-272 | From every open state a patch can be planned, applied and validated to the end. |
| CausalRepair.GreenMeansEvidence | crates/cli/src/causal_repair.rs:247-272 | Regression-green means that since the last patch exactly a structural pass, optionally a fixed reproducer, and a regression pass were accepted, observations aside; likewise for the other patch states. |

## Left out

- Input and output: HTTP clients, prompts, process spawning, git, snapshots, artifacts, JSONL events and environment variables.
- `match_interrupts`, one filter over the matcher, and transition resolution, guards and the engine's structural validation; resolution is an arbitrary function and structural findings are an input; where runs are tied to the definition, the resolver is any that answers from the state's transitions.
- JSON decoding, Unicode whitespace beyond ASCII when trimming, and byte offsets: texts are sequences of characters, which agrees with the source because every marker and brace is ASCII.
- The Markdown fence scanner of `parse_llm_response` and tool enforcement: a reply enters as the action parsed from it.
- Texts of messages and errors are shortened where nothing depends on them, such as the content of a synthetic result.
- 32-bit arithmetic where it does not matter: step counters are unbounded (the proved bound says when they fit), scores are unbounded; saturating counters saturate as in the source.
- Iteration order of maps: the order of validation findings is not modelled.
- `restore_best` of the checkpoint store, early stop and reanchoring of the bank, and the strong-selection gate of the tournament: single branches over I/O.
