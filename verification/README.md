# Verification of the Yap text inference server

A Dafny model of the stateful parts of the Yap text inference server: the
lifecycle of a session's requests, exact prompt budgeting, the streaming
pipeline from engine output to committed history, admission and rate limiting,
tool micro-batching, and the two linters that contain a graph search. Check it
with `dafny verify dfyconfig.toml`.

| file | what it models |
|---|---|
| `Graph.dfy`, `ImportCycles.dfy` | Tarjan's search in the import-cycle linter and the linter's verdict |
| `LicenseClosure.dfy` | the dependency worklist of the license audit |
| `Requests.dfy` | the operations on a session's request fields |
| `SessionLifecycle.dfy` | one connection: message loop and all tasks, as a state machine |
| `ChatHistory.dfy`, `PromptTemplate.dfy` | chat history as turns, its import, the messages for the chat template |
| `Tokens.dfy`, `ToolBudget.dfy`, `ChatBudget.dfy` | token counting, trimming, and the exact budgets |
| `StreamSanitizer.dfy`, `ChatStream.dfy`, `StreamResponse.dfy`, `StreamPipeline.dfy` | streaming |
| `NoiseFilter.dfy` | the line filters on stdout and stderr |
| `RateLimiter.dfy`, `Connections.dfy` | the sliding window and the connection slots |
| `Batching.dfy` | micro-batches and their futures |
| `Text.dfy`, `Numbers.dfy`, `Options.dfy` | Python's strip, split and join; minimum, maximum and lists of positions; option and result types |

Code that changes state step by step is a class or a method with loops, proved
against a specification function or a step relation; the results are then proved
about that function or relation. Coroutines and threads are step relations: one
step is what runs between two suspension points, and every interleaving is a run.

## Where the code differs from what it promises

- A request is documented as cancelled when the active id differs from its own
  (src/handlers/session/requests.py:33-36); the code answers "not cancelled" when
  there is no active id. `SessionLifecycle.StoppedTaskReport` says exactly when a
  stopped task is told so, and `StoppedTaskMissesCancellation` shows a run in
  which it is not.
- The connection's cleanup runs only when the message loop has returned its
  session (src/handlers/websocket/manager.py:168-187,210). An exception leaves
  the session unknown, so nothing is aborted or closed.
  `SessionLifecycle.CrashLeavesTaskExactly` says exactly when a task that nobody
  told to stop is left running, `CrashLeavesTaskRunning` shows such a run, and
  `CrashedForGood` that nobody stops that task afterwards.
- A closed session that is aborted becomes idle again
  (`Requests.ClosedIsKeptUnlessCancelled`). The server never aborts after it has
  closed (`SessionLifecycle.ClosedForGood`).
- Binary search for the largest fitting prefix takes for granted that a prompt
  grows with the prefix. For an arbitrary tokenizer and template
  `ChatBudget.RefusesExactly`, `KeepsCapExactly` and `TakesLargestExactly` say
  exactly when a user turn is refused, is kept up to its cap, or is cut to the
  largest prefix that fits: it depends on the few counts that are tried.
  `ChatBudget.FitCanRefuseWhatFits` is a turn that fits and is refused.
- Streamed sanitized deltas spell the sanitizer's full text if and only if no
  emitted text is ever taken back
  (`StreamSanitizer.DeltasAreFullTextIffNoRollback`), which is if and only if each
  stable part of the sanitized text extends the one before
  (`NoRollbackExactly`). `RollbackDrifts` is a cleaner with which it does not.
- Connecting a socket that is already connected loses one slot for good, and
  nothing else does (`Connections.RunAccounts`); `RetrackingLosesASlot` is a run.

## Model

| member | source | states |
|---|---|---|
| `ImportCycles.FindComponents` | linting/python/imports/import_cycles.py:106-144 | for any finite graph, any order of roots and of targets, and targets outside the module set: the result lists, once each, exactly the strongly connected components of what the modules reach (each mutually reachable and maximal, pairwise disjoint, covering), and nothing reaches from an earlier component into a later one; the recursion ends because unnumbered nodes strictly decrease |
| `ImportCycles.SccSearch.constructor` | linting/python/imports/import_cycles.py:108-113 | the search starts with nothing numbered, stacked or emitted |
| `ImportCycles.SccSearch.Visit` | linting/python/imports/import_cycles.py:115-138 | a visit keeps the search invariant, numbers only nodes reached from its node, leaves numbers and stack below it alone, and either emits its node or leaves it with a low link that is the number of a stacked node it reaches and bounds every stacked target above |
| `ImportCycles.SccSearch.PopDownTo` | linting/python/imports/import_cycles.py:131-137 | the component is the stack above and including the node, in pop order, and just those nodes leave the stack and the on-stack set |
| `ImportCycles.EnterStarts` | linting/python/imports/import_cycles.py:116-121 | numbering and stacking a node that every open node reaches establishes the loop invariant |
| `ImportCycles.FreshTarget` | linting/python/imports/import_cycles.py:124-126 | after a recursive visit, taking the minimum with the target's low link keeps the loop invariant with one more target done |
| `ImportCycles.StackedTarget` | linting/python/imports/import_cycles.py:127-128 | for a target on the stack, taking the minimum with its number keeps the loop invariant |
| `ImportCycles.EmittedTarget` | linting/python/imports/import_cycles.py:127-128 | a numbered target off the stack needs no update |
| `ImportCycles.PopConnected` | linting/python/imports/import_cycles.py:130-137 | any two popped nodes reach each other |
| `ImportCycles.PopClosed` | linting/python/imports/import_cycles.py:130-137 | when the low link equals the number, an edge from a popped node leads to a popped or an already emitted node |
| `ImportCycles.PopListing` | linting/python/imports/import_cycles.py:138 | a connected component whose edges leave it only to emitted nodes may be appended to the list of components |
| `ImportCycles.PopEnds` | linting/python/imports/import_cycles.py:130-138 | popping restores the caller's stack and the search invariant |
| `ImportCycles.KeepEnds` | linting/python/imports/import_cycles.py:130 | a node that stays stacked reaches an open node below it, so the invariant holds without it being open |
| `ImportCycles.ListingIsSccList` | linting/python/imports/import_cycles.py:140-144 | what the invariant says about the emitted list, with nothing left on the stack, makes it exactly the components, in reverse topological order |
| `ImportCycles.SccListsAgree` | linting/python/imports/import_cycles.py:123 | whatever order a set is iterated in, the components are the same sets |
| `ImportCycles.NoImportCycles` | linting/python/imports/import_cycles.py:169-190 | the linter reports OK if and only if no list of modules, each importing the next, comes back to its start |
| `ImportCycles.VerdictIsExact` | linting/python/imports/import_cycles.py:172-180 | no component with two nodes and no self edge is the same as no closed walk |
| `ImportCycles.CycleThrough` | linting/python/imports/import_cycles.py:172 | two different nodes that reach each other lie on a cycle |
| `Graph.ReachesIsPath` | linting/python/imports/import_cycles.py:123 | reachability, in terms of the edge map alone: a list of nodes, each but the last with an entry that holds the next |
| `Graph.AcyclicIsNoCycle` | linting/python/imports/import_cycles.py:172-175 | acyclicity in the same terms: no such list of two nodes or more comes back to its start |
| `LicenseClosure.ResolveDistributions` | linting/licenses/audit.py:93-111 | the worklist ends and returns, in ascending order and without duplicates, exactly the packages at the end of a chain that starts at an installed root, each package installed and required by the one before |
| `LicenseClosure.DependencyNames` | linting/licenses/audit.py:80-90 | the required names that are installed and not yet resolved, and no others, in the order and as often as they are required |
| `LicenseClosure.InstalledRoots` | linting/licenses/audit.py:95 | the queue starts with the installed roots in ascending order, all of them needed |
| `LicenseClosure.Sorted` | linting/licenses/audit.py:111 | every member of a set once, in ascending order |
| `LicenseClosure.ResolveHead` | linting/licenses/audit.py:103-109 | resolving the head and queueing its open dependencies keeps: all needed packages are resolved, queued, or reached from the queue |
| `LicenseClosure.SkipHead` | linting/licenses/audit.py:100-105 | a name already resolved or not installed can be dropped |
| `LicenseClosure.NeededStep` | linting/licenses/audit.py:86-89 | an installed dependency of a needed package is needed |
| `LicenseClosure.NothingMissing` | linting/licenses/audit.py:98-109 | a resolved set that holds the installed roots and their installed dependencies holds everything needed |
| `LicenseClosure.NothingQueued` | linting/licenses/audit.py:98 | with an empty queue the resolved packages are exactly the needed ones |
| `LicenseClosure.NeededIsChain` | linting/licenses/audit.py:86-89 | needed packages are exactly those at the end of such a chain |
| `Requests.CheckRequestCancelled` | src/handlers/session/requests.py:30-47 | a missing session cancels everything; otherwise the answer is the one the lifecycle results below are about, without touching the session |
| `Requests.CancelledIffReason` | src/handlers/session/requests.py:31-37 | a request is reported cancelled if and only if a cancel was asked for, the session is cancelling or closed, or another request is active |
| `SessionLifecycle.RunningIsUnstopped` | src/handlers/session/requests.py:50-57 | in every interleaving, when a message arrives, the check that `Requests.HasRunningTask` makes answers yes if and only if some task runs that nobody has told to stop, so the abort misses none |
| `Requests.BeginSessionRequest` | src/handlers/session/requests.py:60-71 | refused exactly when closed, and then nothing changes |
| `Requests.BeginSupersedes` | src/handlers/session/requests.py:60-71 | after a begin on any session that is not closed every other id is reported cancelled and the new one is not |
| `Requests.AttachRequestTask` | src/handlers/session/requests.py:74-85 | the tracked task changes only for the active request of a session that is not closed |
| `Requests.CancelSessionRequests` | src/handlers/session/requests.py:88-98 | the tracked task is told to stop if it is not done, and stays tracked |
| `Requests.CleanupSessionRequests` | src/handlers/session/requests.py:101-123 | a stale id clears nothing unless forced; returns the id that was active |
| `Requests.CloseSessionRequests` | src/handlers/session/requests.py:126-131 | closed, cancelling, nothing tracked |
| `Requests.AbortSessionRequests` | src/handlers/session/manager.py:276-290 | an undisturbed abort leaves a fresh session and a tracked task that is done or told to stop; the engine is asked to abort exactly the id that was active |
| `Requests.ClosedIsKeptUnlessCancelled` | src/handlers/session/requests.py:60-131 | closed is final under every operation except cancelling, and an abort reopens it |
| `SessionLifecycle.OneTaskAtATime` | src/handlers/websocket/message_loop.py:116-127 | in every interleaving: at most one task runs that has not been told to stop; a tracked task belongs to the active request; when a request begins, and after cleanup, there is none |
| `SessionLifecycle.NeverCancelledByOthers` | src/handlers/session/requests.py:38-47 | in every interleaving, a task that runs and has not been told to stop is never reported cancelled, however many stale tasks complete meanwhile |
| `SessionLifecycle.StoppedTaskReport` | src/handlers/session/requests.py:38-47 | a stopped task that still runs is reported cancelled if and only if the session is not idle |
| `SessionLifecycle.StoppedTaskMissesCancellation` | src/handlers/session/requests.py:44-46 | a run in which a stopped, running task is told it is not cancelled |
| `SessionLifecycle.ClosedForGood` | src/handlers/websocket/manager.py:81-89 | from the end of cleanup on, in every continuation, the session is closed and every id is reported cancelled |
| `SessionLifecycle.ClosedOnlyByCleanup` | src/handlers/session/manager.py:271-274 | a session is closed if and only if the connection's cleanup is over |
| `SessionLifecycle.CrashLeavesTaskExactly` | src/handlers/websocket/manager.py:185-210 | when an exception ends the loop, a task that nobody told to stop is left running if and only if a running task was tracked and no abort had reached its cancel step, or the loop was about to track a task that had not ended |
| `SessionLifecycle.CrashedForGood` | src/handlers/websocket/manager.py:168-187 | in every continuation such a task is never told to stop and the session never closed |
| `SessionLifecycle.CrashLeavesTaskRunning` | src/handlers/websocket/manager.py:185-210 | a run in which this happens |
| `SessionLifecycle.StepInv` | src/handlers/session/manager.py:233-290 | every step of the loop and of any task keeps the invariant |
| `SessionLifecycle.CompleteRequestInv` | src/handlers/websocket/supervision.py:62-65 | a task that completes late clears nothing of a newer request |
| `SessionLifecycle.MarkCancelInv` | src/handlers/session/manager.py:249-251 | after the cancel step of an abort every running task has been told to stop |
| `SessionLifecycle.CreateTaskInv` | src/handlers/websocket/supervision.py:81-89 | a task is created only when every earlier one has ended or been told to stop |
| `SessionLifecycle.SessionStepInv` | src/handlers/session/manager.py:233-274 | cleanup, begin and closing keep the invariant |
| `SessionLifecycle.TrackTaskInv` | src/handlers/session/manager.py:238-247 | tracking keeps it, also when the new task has already ended |
| `SessionLifecycle.RunInv` | src/handlers/websocket/message_loop.py:182-215 | the invariant holds at every point of every run |
| `SessionLifecycle.CancelRound` | src/handlers/websocket/message_loop.py:151-155 | from every reachable state, a cancel message leads back to receiving, with a fresh session and exactly the task that ran told to stop |
| `SessionLifecycle.MessageRound` | src/handlers/websocket/message_loop.py:113-127 | from every reachable state, a message leads to a new tracked task under its own id, with exactly the task that ran told to stop |
| `SessionLifecycle.EndRound` | src/handlers/websocket/manager.py:81-89 | from every reachable state, the end of the loop leads through an abort to a closed session, with exactly the task that ran told to stop |
| `SessionLifecycle.AbortRound` | src/handlers/session/manager.py:276-290 | the four steps of an abort, undisturbed, leave a fresh session, tell the tracked task to stop and go on with what the abort was for |
| `SessionLifecycle.EndLeadsToCleanup` | src/handlers/websocket/manager.py:185-210 | in every interleaving, after the end of the loop each step of the loop brings the end of cleanup nearer, one is always possible, tasks hold nothing up, and only an exception leads elsewhere |
| `ChatHistory.CopyChatMessages` | src/helpers/chat_history.py:9-17 | the copy is the non-blank messages, stripped, in order |
| `ChatHistory.CopiedIs` | src/helpers/chat_history.py:12-16 | the copy has, at increasing positions of the history, exactly the messages that are not blank, stripped, roles unchanged |
| `ChatHistory.GroupChatTurns` | src/helpers/chat_history.py:20-53 | the loop with its open turn and its leading assistants computes the grouping that the next rows describe |
| `ChatHistory.GroupedShape` | src/helpers/chat_history.py:23-25 | the turns in order are the messages; every turn after the first opens with its only user message |
| `ChatHistory.TurnsAreUnique` | src/helpers/chat_history.py:23-25 | there is only one way to cut messages into turns of that shape |
| `ChatHistory.FlattenUndoesGroup` | src/helpers/chat_history.py:20-58 | flattening the groups of a history is its copy, also after dropping any number of oldest turns, and regrouping what is left gives the same turns |
| `ChatHistory.GroupedNewTurn` | src/helpers/chat_history.py:33-40 | a user message opens a new turn |
| `ChatHistory.GroupedSameTurn` | src/helpers/chat_history.py:42-46 | any other message joins the last turn |
| `ChatHistory.AppendChatMessage` | src/handlers/session/parsing.py:34-42 | appends a stripped message of a known role, or extends the last user message by a blank line and the text |
| `ChatHistory.AppendedNormal` | src/handlers/session/parsing.py:34-42 | appending keeps: all contents stripped and non-blank, never two user messages in a row |
| `ChatHistory.ParseHistoryForChat` | src/handlers/session/parsing.py:107-119 | the loop skips invalid items and appends the rest |
| `ChatHistory.ParsedGrowsBy` | src/handlers/session/parsing.py:11-42 | one more item adds its stripped content under its role, or extends a last user message, if and only if role and content are strings, the content is not blank and the role, stripped and in letters of either case, is user or assistant; any other item changes nothing |
| `ChatHistory.LowerSpells` | src/handlers/session/parsing.py:19 | lowering a word gives a lower-case word if and only if they agree letter by letter up to case |
| `ChatHistory.ParsedNormal` | src/handlers/session/parsing.py:107-119 | whatever the client sends, the parsed history is in that normal form |
| `ChatHistory.ParsedKeepsText` | src/handlers/session/parsing.py:34-42 | merging loses no text: joined with blank lines, the parsed messages read like the contents of the items that count, in order |
| `ChatHistory.BuildImportedChatMessages` | src/handlers/session/history/controller.py:86-103 | re-import appends the messages one by one, and keeps nothing without a chat deployment |
| `ChatHistory.ImportFixesNormalForm` | src/handlers/session/history/controller.py:86-103 | with a chat deployment a history survives re-import unchanged if and only if it is in normal form |
| `ChatHistory.ParsedIsFixedPoint` | src/handlers/session/parsing.py:107-119 | parsed client history is a fixed point of re-import |
| `ChatHistory.ImportIsParse` | src/handlers/session/history/controller.py:86-103 | re-importing stored messages is parsing them as client items |
| `PromptTemplate.AppendMessage` | src/execution/chat/template_builder.py:26-33 | merges into a last message of the same role, drops blank text |
| `PromptTemplate.BuildMessages` | src/execution/chat/template_builder.py:18-44 | the loop computes the messages that the next rows describe |
| `PromptTemplate.MessagesAreRuns` | src/execution/chat/template_builder.py:18-44 | the messages are the system text, if any, and one message for each run of equal roles of the stripped history and user text, its contents joined by blank lines |
| `PromptTemplate.MessagesAlternate` | src/execution/chat/template_builder.py:18-44 | at most one system message, at the head, then strictly alternating roles |
| `PromptTemplate.ComposedSystem` | src/execution/chat/template_builder.py:80-82 | the system message is the two texts, stripped, blank ones left out, a blank line between |
| `PromptTemplate.AppliedTemplate` | src/execution/chat/template_builder.py:47-77 | a template that answers gives the prompt; otherwise it is three ChatML lines for each message, in order, and an open assistant line |
| `PromptTemplate.MergedSnoc` | src/execution/chat/template_builder.py:30-33 | merging message by message agrees with merging run by run |
| `PromptTemplate.RegroupingKeepsMessages` | src/execution/chat/prompt_budget.py:127-139 | grouping a history into turns and flattening it again does not change the messages |
| `Tokens.FindLargest` | src/tokens/history.py:85-100 | the binary search loop, as in src/execution/chat/prompt_budget.py:91-108 and src/execution/tool/prompt_budget.py:77-88, finds the count that the next rows describe |
| `Tokens.LargestIsBoundary` | src/tokens/history.py:85-100 | for any test at all: the count found passes, and the next one, if within range, does not |
| `Tokens.LargestIsMaximum` | src/tokens/history.py:85-100 | if smaller counts pass whenever larger ones do: exactly the counts up to the one found pass |
| `Tokens.LargestIsExactly` | src/tokens/history.py:85-100 | for any test at all: the search ends in r if and only if the counts it tries on the way pass up to r and fail beyond it |
| `Tokens.SearchExtremes` | src/tokens/history.py:85-100 | for any test at all: it comes back with nothing if and only if no halving of the range passes, and with the whole range if and only if every count on the way up passes |
| `Tokens.FindsMaximumIff` | src/tokens/history.py:85-100 | for any test at all: it finds the largest passing count if and only if the smaller counts it tries pass |
| `Tokens.LargestCanMissTheCap` | src/tokens/history.py:85-100 | a test for which the condition of the row above fails: the whole range passes and nothing is found |
| `Tokens.FallbackTrimWords` | src/tokens/history.py:21-36 | without a tokenizer, trimming to n keeps exactly the first or last n words |
| `Tokens.TokenizerTrims` | src/tokens/tokenizer.py:76-85 | a tokenizer trims a longer text to its first, or its last, n ids, decoded |
| `Tokens.TokenizerKeeps` | src/tokens/tokenizer.py:74-79 | a text that is short enough is not touched |
| `Tokens.CountsIds` | src/tokens/history.py:47-57 | with a tokenizer, special tokens are counted when asked for and only then |
| `Tokens.TrimToolTextToBudget` | src/tokens/history.py:60-101 | computes the trimmed text that the two rows below describe |
| `Tokens.TrimmedIsWithinBudget` | src/tokens/history.py:60-101 | for any tokenizer the trimmed text is within the budget |
| `Tokens.TrimmedExactly` | src/tokens/history.py:85-101 | for any tokenizer: a text that is too big is cut to n counts where those tried on the way to n fit and leave something up to n, and not beyond |
| `Tokens.FallbackTrimExact` | src/tokens/history.py:60-101 | with the whitespace counter a text that is too big keeps exactly its last budget - 2 words |
| `Tokens.BuildToolHistory` | src/tokens/history.py:104-145 | the backward loop computes the history that the next rows describe |
| `Tokens.HistoryWithinBudget` | src/tokens/history.py:130-145 | under trim_latest_tail no tokenizer makes the history exceed its effective budget, in ids with special tokens |
| `Tokens.WholeHistoryWithinBudget` | src/tokens/history.py:141-143 | under keep_latest_whole it stays within it if and only if the newest non-blank text alone does |
| `Tokens.NonBlankIs` | src/tokens/history.py:114-117 | the non-blank texts are, at increasing positions, exactly the texts that are not blank, stripped |
| `Tokens.HistorySuffix` | src/tokens/history.py:114-145 | for any tokenizer, when the newest non-blank text fits: the history is a suffix of the non-blank texts, it and every shorter one fit, and with one more text it would not |
| `Tokens.OversizedHistory` | src/tokens/history.py:130-143 | for any tokenizer, when it does not: the history is that text, whole or trimmed, as the policy says |
| `Tokens.FallbackHistorySuffix` | src/tokens/history.py:114-128 | with the whitespace counter, when the newest text fits: the history is the longest suffix of the non-blank texts that fits |
| `Tokens.FallbackHistoryTail` | src/tokens/history.py:130-143 | when the newest text does not fit: the history is its longest fitting tail of words |
| `Tokens.JoinedCount` | src/tokens/history.py:14-18 | the count of joined lines is the sum of their words, plus two special tokens when asked for |
| `ToolBudget.FitCurrentUserToBudget` | src/execution/tool/prompt_budget.py:65-93 | the search over the user text computes the fit that the next rows describe |
| `ToolBudget.FitToolInputToBudget` | src/execution/tool/prompt_budget.py:96-130 | the drop loop, the search and both errors compute the fit that the next rows describe |
| `ToolBudget.NormalizedIsNonBlank` | src/execution/tool/prompt_budget.py:22-23 | the lines are the texts that are not blank, stripped, in the order given |
| `ToolBudget.ReturnedHistory` | src/execution/tool/prompt_budget.py:106-127 | for any tokenizer, a returned history is a suffix of the non-blank texts: the one that leaves out the fewest oldest texts so that the input fits, or nothing |
| `ToolBudget.DroppedIsFewest` | src/execution/tool/prompt_budget.py:110-112 | for any tokenizer the loop drops the fewest oldest lines that make the input fit, or all |
| `ToolBudget.CountedTextIsSentText` | src/tool/adapter.py:158-161 | for any tokenizer the count returned is that of the text the backend rebuilds, and is at most the budget |
| `ToolBudget.SentTextIs` | src/tool/adapter.py:158-161 | the text for the model is the stripped history, a newline and the stripped user text, or the one of them that is not blank |
| `ToolBudget.SentIdsWithinBudget` | src/execution/tool/prompt_budget.py:37-46 | with a tokenizer, the returned count is the ids of that text, special tokens included, and at most the budget |
| `ToolBudget.TrimsUserLast` | src/execution/tool/prompt_budget.py:114-121 | for any tokenizer the user text is cut only when no history is left |
| `ToolBudget.CutUserIs` | src/execution/tool/prompt_budget.py:53-58 | with a tokenizer, a cut user text is the text of its last n ids, stripped |
| `ToolBudget.RefusesExactly` | src/execution/tool/prompt_budget.py:65-93 | for any tokenizer: a non-blank user text is refused if and only if no halving of its tokens fits |
| `ToolBudget.FailsExactly` | src/execution/tool/prompt_budget.py:96-130 | for any tokenizer: the fit fails if and only if the budget is not positive, or no history is left, the user text is too long and no halving of it fits |
| `ToolBudget.FallbackInputCount` | src/execution/tool/prompt_budget.py:26-46 | with the whitespace counter an input counts its words plus two, or nothing |
| `ToolBudget.FallbackFitUser` | src/execution/tool/prompt_budget.py:65-93 | with the whitespace counter the user text that is too long keeps its last budget - 2 words, counted as the whole budget, or fails when that is below one |
| `ToolBudget.WhitespaceFitIsExact` | src/execution/tool/prompt_budget.py:96-130 | with the whitespace counter: succeeds if and only if the budget is positive and the user text is blank or the budget leaves room for one word; returns the lines after the dropped ones and the user text, whole or exactly its last budget - 2 words |
| `ToolBudget.WhitespaceDropsFewest` | src/execution/tool/prompt_budget.py:110-112 | with the whitespace counter: the line at j survives if and only if the words from it on, with the user text and two special tokens, are within the budget |
| `ChatBudget.FitUserFromRaw` | src/execution/chat/prompt_budget.py:68-113 | returns the user text, its prompt and its count, or the error, of the fit that the rows below describe |
| `ChatBudget.FitChatPromptToBudget` | src/execution/chat/prompt_budget.py:116-169 | the drop loop and the user fit compute the fit that the rows below describe |
| `ChatBudget.ReturnedPrompt` | src/execution/chat/prompt_budget.py:22-36 | whenever the fit returns: the prompt is the template's answer to the system texts and one message for each run of equal roles of the returned history and user text, all stripped and without blank ones, or, without an answer, the ChatML lines of these messages; the returned count is its number of ids |
| `ChatBudget.UserCap` | src/execution/chat/prompt_budget.py:53 | the smaller of the user text's tokens and the configured cap, raised to at least one; without a cap, all tokens |
| `ChatBudget.CappedPrefix` | src/execution/chat/prompt_budget.py:43-54 | the capped user turn is the user text cut to its cap |
| `ChatBudget.UserPrefixIs` | src/execution/chat/prompt_budget.py:57-65 | a cut user text is the text of its first n ids, stripped; one that is short enough is left alone |
| `ChatBudget.DroppedIsFewest` | src/execution/chat/prompt_budget.py:141-149 | the loop drops the fewest oldest turns that make the capped user turn fit, or all |
| `ChatBudget.FitIsSound` | src/execution/chat/prompt_budget.py:116-169 | for any tokenizer and template: a returned prompt is the one built from the returned history and user text, its count is returned and at most the budget, and the history is the input's copy without the fewest oldest turns that make the capped user turn fit |
| `ChatBudget.FitTakesLargestPrefix` | src/execution/chat/prompt_budget.py:89-113 | if prompts do not shrink as the user text grows: the user text is the longest prefix in tokens, up to the cap, whose prompt fits; the error is raised exactly when not one token fits |
| `ChatBudget.RefusesExactly` | src/execution/chat/prompt_budget.py:89-113 | for any tokenizer and template: a non-blank user turn is refused if and only if the prompt is over budget at every halving of its cap |
| `ChatBudget.KeepsCapExactly` | src/execution/chat/prompt_budget.py:89-111 | for any tokenizer and template: all tokens up to the cap are kept if and only if the prompt fits at every count tried on the way up |
| `ChatBudget.TakesLargestExactly` | src/execution/chat/prompt_budget.py:89-111 | for any tokenizer and template: the largest fitting prefix is taken if and only if the prompt fits at the smaller counts that are tried |
| `ChatBudget.CutsUserLast` | src/execution/chat/prompt_budget.py:141-159 | while history is kept, the user turn is the capped one, uncut, if and only if the prompt fits at every count tried on the way up to the cap, and always if prompts do not shrink as the user text grows |
| `ChatBudget.FailsExactly` | src/execution/chat/prompt_budget.py:110-162 | for any tokenizer and template: when the fit succeeds, as an if and only if over the halvings of the cap; if prompts do not shrink, that is a kept history or room for one token |
| `ChatBudget.FitCanRefuseWhatFits` | src/execution/chat/prompt_budget.py:94-113 | a tokenizer with which a turn that fits whole meets the condition of `RefusesExactly` and is refused |
| `ChatBudget.UserPrefixIsPrefix` | src/execution/chat/prompt_budget.py:57-65 | if decoding leading ids gives a prefix, the kept user text is a prefix of the stripped one |
| `StreamSanitizer.StreamingSanitizer.constructor` | src/text/stream.py:58-69 | starts empty with both one-shot contexts on |
| `StreamSanitizer.StreamingSanitizer.Push` | src/text/stream.py:71-110 | the new state and delta are those the rows below describe, and the stream start is never marked as trimmed, so every push sanitizes the whole raw text from its start |
| `StreamSanitizer.StreamingSanitizer.Flush` | src/text/stream.py:112-140 | likewise for the flush |
| `StreamSanitizer.UnstableSuffixLen` | src/text/suffix.py:22-34 | the two loops compute the length that the next row describes |
| `StreamSanitizer.UnstableSuffix` | src/text/suffix.py:22-34 | held back is a maximal run of dots before a maximal run of unstable characters |
| `StreamSanitizer.TailCoversGuards` | src/text/suffix.py:132-164 | stable part and tail together are the sanitized text, and the tail is the least of the text, the bound and the largest guard |
| `StreamSanitizer.CommonPrefixLen` | src/text/stream.py:233-239 | the loop computes the length that the next row describes |
| `StreamSanitizer.CommonPrefix` | src/text/stream.py:233-239 | the longest length at which two texts agree |
| `StreamSanitizer.PushIsExact` | src/text/stream.py:95-108 | with a stable part the emitted text is the stable part of the sanitized whole, otherwise it is left alone; the full text is the sanitized whole if and only if there is a stable part or nothing was emitted before |
| `StreamSanitizer.FlushIsExact` | src/text/stream.py:128-140 | the full text is a prefix of the sanitized whole and equals it up to a blank end; it is equal when the whole ends in no space |
| `StreamSanitizer.ChunkingInvariance` | src/text/stream.py:71-145 | for any pure sanitizer and any split into pushes ended by a flush: the full text is, up to trailing space, what the sanitizer makes of the whole raw text with both one-shot contexts on |
| `StreamSanitizer.DeltasAreFullTextIffNoRollback` | src/text/stream.py:98-106 | the returned deltas spell the full text if and only if no push and no flush takes emitted text back; otherwise they are longer by just what is taken back |
| `StreamSanitizer.NoRollbackExactly` | src/text/stream.py:96-106 | nothing is taken back if and only if every stable part of the sanitized text extends the one before, and the sanitized whole extends the last |
| `StreamSanitizer.RollbackDrifts` | src/text/stream.py:98-106 | a sanitizer and two chunks with which the deltas spell more than the full text |
| `StreamSanitizer.DriftStep` | src/text/stream.py:98-106 | one replacement makes deltas and emitted text drift apart by the characters it takes back |
| `ChatStream.ChatStreamController.constructor` | src/execution/chat/controller.py:84-96 | starts with no text and an empty buffer |
| `ChatStream.ChatStreamController.ExtractDelta` | src/execution/chat/controller.py:235-250 | the new part of an extending text, all of another; an output without new text leaves the full text alone |
| `ChatStream.DeltaIs` | src/execution/chat/controller.py:240-250 | a text that continues the last one gives the continuation, any other text is taken whole |
| `ChatStream.ChatStreamController.Emit` | src/execution/chat/controller.py:252-268 | without a flush interval the delta at once; otherwise the whole buffer exactly when the interval has passed |
| `ChatStream.ChatStreamController.TakeTail` | src/execution/chat/controller.py:270-275 | the rest of the buffer, which is then empty |
| `ChatStream.ChatStreamController.EmitOutput` | src/execution/chat/controller.py:126-130 | one engine output: state and chunks are those the rows below describe |
| `ChatStream.ChatStreamController.IterText` | src/execution/chat/controller.py:168-221 | the loop, its three endings and the tail in its finally clause yield what the rows below describe; cancelled exactly when the cancel check fires |
| `ChatStream.HandledConserves` | src/execution/chat/controller.py:235-268 | one output: chunks and buffer together gain exactly the delta |
| `ChatStream.HandledKeepsInterval` | src/execution/chat/controller.py:258-268 | a chunk leaves if and only if the interval since the last one has passed, and then nothing is kept back |
| `ChatStream.OutcomeIsCancelledIff` | src/execution/chat/controller.py:311-316 | a stream ends cancelled if and only if the check fires at some output, and otherwise as the engine's stream ends |
| `ChatStream.NothingIsLost` | src/execution/chat/controller.py:168-221 | for every interval, timing and ending: the yielded chunks and what is left in the buffer spell the deltas of all used outputs, in order |
| `ChatStream.BufferIsEmptied` | src/execution/chat/controller.py:217-220 | only a cancellation leaves anything in the buffer |
| `ChatStream.CumulativeDeltas` | src/execution/chat/controller.py:244-247 | the deltas of cumulative texts spell the last one |
| `ChatStream.ChunksSpellEngineText` | src/execution/chat/controller.py:168-221 | for cumulative engine texts the chunks spell exactly the last one, unless the stream is cancelled while chunks are buffered |
| `StreamResponse.SendInitialText` | src/handlers/websocket/helpers.py:48-60 | sends the initial text unless blank or already sent; what is marked visible is what the client has |
| `StreamResponse.ForwardStreamChunks` | src/handlers/websocket/helpers.py:63-74 | token frames follow the chunks and stop at the first send that fails; the accumulated text is at all times exactly what the client has seen |
| `StreamResponse.SendCompletionFrames` | src/handlers/websocket/helpers.py:77-84 | the final frame with that text, then the done frame, and nothing after a failed one |
| `StreamResponse.SendClosing` | src/handlers/websocket/helpers.py:211-215 | an error frame for an empty answer, otherwise the completion frames |
| `StreamResponse.CommitHistoryOnce` | src/handlers/websocket/helpers.py:200-205 | one entry, the visible text, at most once, none when nothing is visible |
| `StreamResponse.SendAll` | src/handlers/websocket/helpers.py:207-215 | the attempts follow the plan of frames; when it raises, as an if and only if |
| `StreamResponse.StreamChatResponse` | src/handlers/websocket/helpers.py:180-224 | for every stream and every outcome of every send: frames go out in the planned order and none after a failed send; on every exit the history gains exactly one entry, the text the client has seen, or none if that is empty; text that the client has seen is what is returned; an exception leaves exactly when a send or the stream raised |
| `StreamResponse.FinalFrameIsVisibleText` | src/handlers/websocket/helpers.py:77-78 | a final frame carries exactly the token text that was sent, which is the initial text and every chunk |
| `StreamResponse.LastFrames` | src/handlers/websocket/helpers.py:211-215 | a response that goes through to its end closes with the final frame and done, or with the error if there is no text |
| `StreamResponse.VisibleIsPrefix` | src/handlers/websocket/helpers.py:207-224 | on every exit the client has seen a prefix of the initial text and the chunks |
| `StreamPipeline.YieldedSpellsEngineText` | src/execution/chat/controller.py:168-221 | however it ends, a cumulative stream is yielded as a prefix of the text of its used outputs, and in full unless it is cancelled while chunks are buffered |
| `StreamPipeline.StreamWithOptionalSanitizer` | src/execution/chat/runner.py:92-109 | the loop with its optional sanitizer yields the chunks that the rows below are about; the tail is flushed only when the stream does not raise |
| `StreamPipeline.SanitizedText` | src/execution/chat/runner.py:92-109 | the sanitized stream spells the sanitizer's full text if and only if nothing is taken back, and is then the one-shot sanitized text up to trailing space |
| `StreamPipeline.SanitizedUntilFailure` | src/execution/chat/runner.py:98-104 | a sanitized stream that raises has yielded the last stable part of the sanitized text if and only if every stable part extends the one before |
| `StreamPipeline.FinalTextIsDelivered` | src/handlers/websocket/helpers.py:63-84 | end to end: a final frame is sent for complete and for cancelled streams, never for failed ones, and final frame, visible text and history entry are the initial text and the delivered chunks |
| `StreamPipeline.FinalTextIsEngineText` | src/execution/chat/runner.py:98-101 | end to end without the sanitizer, for every flush interval and clock: final frame, visible text and history entry are the initial text and the engine's last text, or a prefix of that when the stream was cancelled while chunks were buffered |
| `StreamPipeline.HistoryIsEnginePrefix` | src/handlers/websocket/helpers.py:200-224 | end to end, however the stream ends and whatever happens to the sends: visible text and history entry are a prefix of the initial text and the engine's last text |
| `StreamPipeline.FinalTextIsSanitizedText` | src/execution/chat/runner.py:92-109 | end to end with the sanitizer, whatever the chunk boundaries: after the initial text comes the sanitized text of what the engine yielded, up to trailing space, if nothing is taken back; a cancelled stream is flushed like a complete one |
| `NoiseFilter.NoiseFilterStream.constructor` | src/scripts/filters/trt.py:35-43 | nothing buffered, nothing written |
| `NoiseFilter.NoiseFilterStream.Emit` | src/scripts/filters/trt.py:67-76 | passes a line on unless it is not blank and some pattern finds something in it, stripped |
| `NoiseFilter.NoiseFilterStream.Write` | src/scripts/filters/trt.py:45-55 | returns the length; the complete lines of buffer and text are filtered and the incomplete one is kept |
| `NoiseFilter.NoiseFilterStream.Flush` | src/scripts/filters/trt.py:61-65 | the incomplete line goes out unless it is noise, and then the wrapped stream is flushed |
| `NoiseFilter.FilterInTwo` | src/scripts/filters/trt.py:51-54 | filtering may stop anywhere and go on with the incomplete line |
| `NoiseFilter.OpsFilterPieces` | src/scripts/filters/trt.py:45-76 | for any series of writes and flushes: what has gone out is each piece of text between flushes, filtered line by line, with only the incomplete last line held back |
| `NoiseFilter.WritesThenFlush` | src/scripts/filters/trt.py:45-76 | for any split into writes ended by one flush the output is the text filtered line by line |
| `NoiseFilter.FilterTwice` | src/scripts/filters/vllm.py:63-72 | filtering by one set of patterns and then by another is filtering by both |
| `NoiseFilter.LinesTwice` | src/scripts/filters/vllm.py:41-51 | the same for the complete lines alone |
| `NoiseFilter.StackedFilters` | src/scripts/filters/vllm.py:41-72 | two filter streams on top of each other, in either order, behave as one with both pattern sets, at every moment of any series of writes and flushes |
| `NoiseFilter.NoiseOfBoth` | src/scripts/filters/trt.py:137-145 | a line is noise for two sets together if and only if it is for one of them |
| `NoiseFilter.BlankLinesStay` | src/scripts/filters/trt.py:142-144 | no pattern can drop a blank line |
| `NoiseFilter.LineGoesOutUnlessFound` | src/scripts/filters/trt.py:137-145 | a complete line goes out, newline and all, unless it is not blank and some pattern finds something in it, stripped; then it leaves nothing behind |
| `NoiseFilter.LastLineGoesOutUnlessFound` | src/scripts/filters/vllm.py:57-72 | the same for the incomplete last line at a flush |
| `RateLimiter.SlidingWindowRateLimiter.constructor` | src/handlers/limits.py:66-84 | negative settings count as zero, and a zero disables |
| `RateLimiter.SlidingWindowRateLimiter.Consume` | src/handlers/limits.py:86-117 | against the full history: accepts if and only if fewer than limit accepted events lie in the window ending now; a refusal changes no history, and at any later time the window has room if and only if at least the reported time has passed; a disabled limiter accepts everything |
| `RateLimiter.SpacedBoundsEveryWindow` | src/handlers/limits.py:98-117 | no window of the history, ending at any time, ever holds more than limit accepted events |
| `RateLimiter.AcceptKeepsSpacing` | src/handlers/limits.py:106-117 | an accepted event keeps limit + 1 consecutive events a window apart |
| `RateLimiter.RetryIsExact` | src/handlers/limits.py:107-111 | a full window has room again exactly from the moment its oldest event expires |
| `RateLimiter.InWindowIsCount` | src/handlers/limits.py:99-107 | the number in a window is that of the accepted events after its start and not after its end |
| `RateLimiter.PrunedFully` | src/handlers/limits.py:101-104 | after the pruning loop the deque is exactly the events in the window |
| `Connections.SlotsAreConserved` | src/handlers/connections.py:78-132 | in every interleaving with distinct sockets: free permits, tracked sockets, permits not yet tracked and removals not yet released add up to the maximum, so no more than that are ever tracked |
| `Connections.RunAccounts` | src/handlers/connections.py:103-104 | in every interleaving, slots are lost exactly by tracking a socket that is tracked already, one each time |
| `Connections.RetrackedIsCount` | src/handlers/connections.py:103-104 | the losses of a run are the points where it tracks a socket that is tracked already |
| `Connections.RetrackingLosesASlot` | src/handlers/connections.py:103-104 | a run that loses a slot: the same socket connected twice |
| `Connections.NeverOverCapacity` | src/handlers/connections.py:76 | in every interleaving, with repeated sockets too, no more than the maximum are tracked |
| `Connections.StepAccounts` | src/handlers/connections.py:78-132 | each step keeps the sum, except that one |
| `Connections.ConnectionHandler.constructor` | src/handlers/connections.py:72-76 | all permits free, nothing tracked |
| `Connections.ConnectionHandler.TryAcquire` | src/handlers/connections.py:89-99 | a step of the state machine: takes a permit, or rejects on timeout without one |
| `Connections.ConnectionHandler.AddConnection` | src/handlers/connections.py:102-110 | a step of the state machine: the socket is tracked |
| `Connections.ConnectionHandler.RemoveConnection` | src/handlers/connections.py:121-130 | a step of the state machine: a permit is due exactly when the socket was tracked |
| `Connections.ConnectionHandler.ReleasePermit` | src/handlers/connections.py:131-132 | a step of the state machine: the permit comes back |
| `Connections.ConnectionHandler.GiveUp` | src/handlers/connections.py:111-113 | a step of the state machine: the permit of a socket that could not be added comes back |
| `Connections.ConnectionHandler.Connect` | src/handlers/connections.py:78-113 | an undisturbed connect takes one slot for the socket; a timeout and an exception while adding change nothing |
| `Connections.ConnectionHandler.Disconnect` | src/handlers/connections.py:115-132 | gives one slot back for a tracked socket; a second disconnect gives back nothing |
| `Batching.BatchFuture.constructor` | src/tool/future.py:11-14 | not completed |
| `Batching.BatchFuture.SetResult` | src/tool/future.py:16-19 | completed once, with the row |
| `Batching.BatchFuture.SetException` | src/tool/future.py:21-24 | completed once, with the exception |
| `Batching.BatchFuture.Get` | src/tool/future.py:26-34 | a caller gets the row or the exception it was completed with, or a timeout |
| `Batching.DispatchBatch` | src/tool/batch.py:104-116 | every future of the batch is completed exactly once: with the row at its own position of the answer to the batch's texts in order, or with the shared exception if inference fails or the number of rows is wrong; if inference gives each text its row, each request gets the row of its own text |
| `Batching.TextsOfAre` | src/tool/batch.py:106 | the texts handed to inference are those of the batch, position by position |
| `Batching.TextsAgree` | src/tool/batch.py:104-122 | what the worker's runs hand to inference is what dispatching the batch hands to it |
| `Batching.CollectBatch` | src/tool/batch.py:87-102 | whatever arrives meanwhile, the batch is the front of the queue, in order, of 1 to the maximum; it stops short only for the deadline or an empty queue |
| `Batching.BatchesAreSubmissionOrder` | src/tool/batch.py:118-122 | in every run of worker and callers: the batches, one after the other, are the submission order, each of 1 to the maximum |
| `Batching.EachCompletedOnce` | src/tool/batch.py:104-122 | in every run: the k-th completion is that of the k-th request; when the worker waits, every request taken has been completed |
| `Batching.WorkerProgress` | src/tool/batch.py:118-122 | the worker always has a step to take until everything submitted has been completed, and each of its steps lessens what is left |
| `Batching.EachGetsItsOwnOutcome` | src/tool/batch.py:106-116 | in every run: the k-th completion is the row of its batch's result at the position where inference was given the text submitted k-th, or its batch's exception |
| `Batching.BatchingDoesNotShow` | src/tool/batch.py:70-116 | if inference treats texts one by one, every request gets the row of its own text, whatever batch it was in |
| `Batching.OwnTextsStep` | src/tool/batch.py:106-108 | every step keeps: inference has been given the texts of each batch, in order |
| `Batching.StepInv` | src/tool/batch.py:87-122 | every step of worker and callers keeps the invariant |
| `Batching.IdsOfAll` | src/tool/batch.py:112-116 | the deliveries of all batches go to the requests of all batches, in order |

## Left out

- Regular expressions: the sanitizer's pipeline, the suffix guards for entities, tags, emails, phones and emoticons, and the noise patterns are parameters; the results hold for any such functions.
- Tokenizers and chat templates: function parameters. That prompts do not shrink as the user text grows, and that decoding leading ids gives a prefix, are hypotheses of the lemmas that need them, stated there.
- Tokens.FindLargest: one loop stands for the three binary searches, which differ only in what they test; the found value is computed from the found count instead of being stored in the loop.
- Floating point: clocks, windows and probabilities are real numbers, without rounding.
- RateLimiter.SlidingWindowRateLimiter.Consume: the clock is assumed never to go back, as a monotonic clock promises.
- ImportCycles.FindComponents: Python's recursion limit; the sorted order of roots is not needed, since the result holds for every order.
- Reading and parsing files in the linters, and the linters' messages: the edge map, the installed packages and their parsed requirement names are inputs. That edges start only at modules is what the edge parser does (linting/python/imports/import_cycles.py:82-103) and is a precondition of the verdict.
- LicenseClosure.Sorted: how Python compares strings; any total order.
- src/handlers/session/history/ops.py is not part of this model, so neither are history trimming and rendering, prepare_tool_turn and append_tool_turn; the turn identifiers and store bookkeeping of an appended chat turn reduce to one history entry.
- parse_history_text, parse_history_as_tuples, parse_history_for_tool and the start-history fit.
- Letter case in roles beyond ASCII: no other letter lowers into the two known roles.
- The session's started flag, rate-limit and validation messages of the loop, screen follow-ups and the idle watchdog: they cause no step on the request fields.
- SessionLifecycle.RunInv: critical sections under the request lock are single steps, and an engine abort is a step without effect on the session; an exception that leaves the loop may come at any point.
- Requests.AbortSessionRequests: states the undisturbed abort only; the abort split at its awaits, with other tasks in between, is in the state machine.
- StreamSanitizer.StreamingSanitizer.Flush: using one sanitizer again after its flush; the server makes a new one for each stream.
- ChatStream.ChatStreamController.IterText: closing the generator while the yield of its finally clause is pending, the engine abort on cancellation and timeout, and the latency figures.
- StreamPipeline.FinalTextIsEngineText: engine texts that do not extend one another; what is yielded then is in the stream controller's results.
- StreamResponse.StreamChatResponse: frame encoding and the socket itself; a send goes through, meets a gone client, or raises. The state's interrupted flag after the last frame has no reader.
- NoiseFilter.NoiseFilterStream.Write: the two filter classes have the same code and are one class here; arguments that are not strings.
- Connections.ConnectionHandler.TryAcquire: fairness of the semaphore and of its timeout.
- Connections.ConnectionHandler.Connect: states a call that no other call interrupts; every interleaving of its steps is in the state machine. Logging is taken not to raise.
- Connections.ConnectionHandler.Disconnect: likewise.
- Batching.DispatchBatch: the softmax is part of inference, and the counts in the size-mismatch message are left out.
- Batching.CollectBatch: the clock and the arrivals are a list of rounds in which the deadline passes in the end.
- Batching.BatchFuture.Get: waiting on the event; whether it times out is a parameter.
- Batching.RunInv: the endless worker loop is represented by its finite runs.
- Telemetry, logging, configuration constants, deployment scripts, model engines and HTTP endpoints.
