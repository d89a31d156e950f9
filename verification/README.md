# A verified model of the repair agent's backend

This project models, in Dafny 4.11, the parts of the backend whose correctness depends on several
functions or on whole runs, and proves what they promise. `dafny verify dfyconfig.toml` checks all
of it. Paths in comments and in the table below are relative to the repository root.

## What is modelled

**The agent run protocol** (`Protocol`, `ProtocolSafety`, `ProtocolTheorems`, `AgentServices`,
`GateReadings`, `AgentLoop`, `Conversation`, `History`, `ToolCalls`, `ProviderTranslation`,
`EditScope`, `Analytics`).
`AgentServices` and `AgentLoop` hold the source's objects as classes with the same fields; the
loop is a method over arbitrary model replies, tool outcomes and test verdicts. `Protocol` gives
the state of a run as a value and one step per tool call. Every service method is proved to take
such a step, the loop is proved to go through a legal sequence of them (`Loop.run` is the written
out execution), and `ProtocolTheorems` states what holds of every legal sequence. `GateReadings`
says what the gates do in terms of the event table alone. The message history is followed from the
loop (`Conversation`) through the three provider adapters.

**Patches and the workspace** (`PatchWorkspace`, `PrintedPatches`, `LineEnds`, `HiddenHeaders`,
`KeptCandidates`, `DiffText`, `PatchPaths`, `PathReadings`, `HunkCounts`, `HunkContents`). Git is a parameter, without laws: what a
proof needs of it is asked for at the workspace and the patch at hand. `PrintedPatches` follows the
text the backend prints itself, the patches of untracked files, and `LineEnds` the diffs it reads
from git. `KeptCandidates` says what becomes of the chosen candidate when the run ends. The diff
scanners are proved against a structured patch and its printed form.

**The sandbox** (`Sandbox`, `Flakiness`). The container session with its digest cache, its network
mode and its snapshot images; Docker is an oracle, and any call may fail. The repetition loop
of the runner and the flakiness check that regroups its flat results.

**The index** (`WorkspaceWalk`, `WalkCounts`, `Chunking`, `Utf8`, `Batching`, `Embedding`, `Feedback`). The
directory walk, the chunk windows, the embedding texts, their batches and the provider's input check;
and the byte truncation they share with the repair feedback.

**The audit chain** (`Audit`).

## What the code does differently from what one would expect

Each of these is stated as a lemma with a concrete input, next to the exact condition.

- The printed patches of untracked files have no marker for a missing final newline, and their
  lines are split at every separator. Git undoes them exactly when each line of each file ends in a
  newline and no other separator occurs (`NewFilesUndoneIff`; `UnendedFiles` shows a missing
  newline, a carriage return and a form feed). With such a file in the workspace every other
  candidate's restore raises (`UnendedFileBlocksRestore`, `MissingNewlineBlocksRestore`), and a
  submission that adds one is judged invalid, as its patch does not apply where it was printed
  (`AssessedInPlaceIff`).
- The diffs of tracked files are read as text, which drops carriage returns. Git then undoes such a
  diff exactly when no line it leaves in the file ends in one, and gives back the base exactly when
  no line it took out did either (`ReadDiffUndoneIff`, `EditedCrlfFileIsNotUndone`); a workspace
  git does not undo refuses every other candidate (`UndoRefusedRestoreFails`).
- A passing patch stays the choice, but it can be refused when it is restored at the end: rank one
  file, edit it and pass, edit it again and fail, rank another file, stop. The gate asks for the
  newest ranking (`PassingCandidateRefused`). `Loop.FinishRun` has the exact condition. A run that
  stops on its first passing patch gets it back, as nothing has changed the workspace since.
- `restore_candidate` undoes the current work before it asks that gate, so the refusal leaves a
  clean workspace and an exception (`RejectedRestoreLeavesCleanWorkspace`).
- A patch is stored on git's list of changed files, and assessed on the files its headers name. A
  context line that hides a header behind a form feed adds a file to the latter, so that a patch
  the gate let through when it was stored is judged invalid (`HiddenHeaderIsJudgedInvalid`). Both
  agree exactly when each further file meets the scope rules itself and the quality limits hold for
  the headers' files too (`HeaderGateIff`, `StoredIsAssessedIff`).
- A second `ensure_patch_applied` can change the workspace again: git finds room for the same lines
  once more (`SecondApplyCanApplyAgain`). `SecondApplyIsNeutralIff` says when it does not, in git's
  answers, and `AlikeLinesTwiceIff` in numbers of lines for a file whose lines are all alike.
  `AcceptedPatchAppliesOnce` covers what the run itself does.
- An exported audit event cleans its summary a second time when it is stored, after it was hashed.
  A redacted summary of more than 2000 characters therefore does not verify, unless it has exactly
  2034 (`KeptIff`, `LongSummaryDoesNotVerify`).
- `str.splitlines` also ends lines at form feeds and other separators. A hunk line that hides a
  `diff --git` line behind one adds that file to `extract_patch_paths` (`FormFeedAddsPaths`;
  `ExactlyHeadersIff` says which lines matter).
- `_parse_hunks` takes an added line that starts with `++ b/` for a new path and can lose the next
  hunk (`DisguisedLineLosesHunk`, `UnbrokenTotalsAgreeIff`).
- `safe_failure_summary` can return more than `max_chars` characters when only the byte cut is
  needed (`CharacterLimitCanBeExceeded`).

## Assumptions

A run starts with no earlier events, patches or attempts (`FRESH`). The event table is an
append-only sequence in creation order. JSON in messages and event payloads round-trips, and
redaction leaves stored hypothesis and ranking payloads valid. Every successful submission gets
a fresh patch id. The digest of the sync cache and the hash of the audit chain do not collide,
and a synced name does not change from a file to a directory. `shlex.split` splits plain words at
blanks, and the `diff --git` pattern finds the second of two plain paths (`Lawful`, `Finds`;
`BlanksAreLawful` and `SecondPathFinds` show that both can be met).
No two entries of a directory share a name. The submit tool of this backend returns a stored patch
or raises (backend/app/agents/tools/service.py:342-360); the loop's branch for any other result is
modelled (`Loop.Abandon`), and `AttemptsAreAccountedFor` says what it would leave unfinished.

## Model

| member | source | states |
|---|---|---|
| History.OpenHistoryIsAnswered | backend/app/agents/loop.py:197-437 | a history the provider may be called with answers every tool call exactly once, in order, before the next assistant message, and contains no other answer |
| History.SkipRemainingCalls | backend/app/agents/loop.py:740-750 | appends one failure answer for each call of a batch cut short, which completes the history |
| History.SkippedAnswersRest | backend/app/agents/loop.py:740-750 | answering the calls that were never run closes the batch, whatever they are |
| History.SkippedAt | backend/app/agents/loop.py:740-750 | the answers stand in the order of the calls, each with its id and its name, and each a failure |
| ProviderTranslation.CheckCall | backend/app/model_providers/providers.py:271-289 | a call passes exactly when it is structured and has an id, a name and an argument object; its id is returned |
| ProviderTranslation.AnthropicInput | backend/app/model_providers/providers.py:496-519 | the loop over messages builds the turns of the specification function, or raises its first error; the system field joins the system and developer texts |
| ProviderTranslation.SystemPartsAre | backend/app/model_providers/providers.py:496-503 | those texts, and no others, in the order of the history |
| ProviderTranslation.AnthropicCarriesAll | backend/app/model_providers/providers.py:496-578 | the blocks of all turns, in order, are the messages, each said by its side: a user text as it is, an answer under its id as an error iff it failed, and an assistant text, unless empty, before its calls with their ids; no turn is empty |
| ProviderTranslation.AnthropicHistoryIsWellFormed | backend/app/model_providers/providers.py:496-578 | a history handed to the provider is accepted iff every call has an id, a name and an argument object; its turns alternate, start and end with the user, and the tool uses of a turn are exactly the leading results of the next, in order |
| ProviderTranslation.OpenAiInput | backend/app/model_providers/providers.py:238-258 | the loop over messages builds the items of the specification function, or raises its first error |
| ProviderTranslation.OpenAiCarriesAll | backend/app/model_providers/providers.py:238-305 | the items, in order, are the messages: each text under its role, each answer under its id, and an assistant text, unless empty, before its calls |
| ProviderTranslation.OpenAiHistoryIsWellFormed | backend/app/model_providers/providers.py:238-305 | the same acceptance condition; every function output answers the oldest unanswered call, and none is left unanswered when the provider is called |
| ProviderTranslation.LocalModelMessages | backend/app/model_providers/providers.py:769-798 | the loop over messages builds the list of the specification function, or raises its first error |
| ProviderTranslation.LocalCarriesAll | backend/app/model_providers/providers.py:769-833 | so are the entries of the local list, with an assistant text and its calls in one entry |
| ProviderTranslation.LocalAgreesWithOpenAi | backend/app/model_providers/providers.py:769-833 | the local adapter accepts the same histories, and its list opened up is the OpenAI list with `developer` renamed |
| ToolCalls.ExecutedCallsTranslate | backend/app/agents/loop.py:600-648 | a call that parses, or fails only for its unknown name, can never make a later provider request fail |
| ToolCalls.ParsesIff | backend/app/agents/loop.py:600-648 | a call of a registered tool whose arguments are checked parses iff it has every needed argument, no unknown one, and each of its type; otherwise it is malformed |
| ToolCalls.RefusedIff | backend/app/agents/loop.py:600-625 | the error is an unknown tool iff the call is well-formed and its name is not registered; what parses is the registered tool of its name |
| ToolCalls.RetrieveTakes | backend/app/agents/loop.py:572-576 | the retrieval tool takes a text query, an optional number, for which a flag passes too, and an optional flag |
| EditScope.NoViolationsMeansJustified | backend/app/patch_quality/service.py:389-446 | the set expressions report no violation iff every changed file satisfies the per-file rules of the policy |
| EditScope.ViolationsName | backend/app/patch_quality/service.py:389-446 | each violation reported is about some changed file, and about exactly those that break its rule |
| Protocol.ExecutionIsRun | backend/app/agents/loop.py:190-444 | a written-out execution of the services is a legal run of the protocol and ends in the state that run leads to |
| ProtocolSafety.HypothesisStep | backend/app/agents/hypotheses.py:62-73 | one submission keeps at most one live entry; the live revision becomes the new one for a live status, stays otherwise, and never decreases |
| ProtocolSafety.HypothesisLogIsFaithful | backend/app/agents/hypotheses.py:33-107 | over whole runs the rewritten log has one entry per submission: as it was submitted, or revised by the first live submission after it if it was live; so its live entry is the last live submission |
| ProtocolSafety.StreakStep | backend/app/agents/repairs.py:94-125 | every action keeps the streak of failed-test attempts fresh, and the gate's demand equal to its last entry |
| ProtocolSafety.AccountStep | backend/app/agents/repairs.py:127-138 | every action keeps starts and completions paired and numbered, and the attempt counter within the budget |
| ProtocolSafety.EvidenceStep | backend/app/agents/candidate_files.py:40-131 | every action keeps rankings justified, frozen after a write, and stored sources ranked |
| ProtocolSafety.RankingOpenStep | backend/app/agents/repairs.py:107-115 | every action keeps the ranking open while the gate demands a new one |
| ProtocolSafety.SelectionStep | backend/app/agents/repairs.py:217-240 | every action keeps the service's last patch, passing patch and outcomes equal to what the newest completions say |
| ProtocolSafety.StepKeepsInv | backend/app/agents/loop.py:250-437 | every enabled action, with any outcome, keeps all invariants together |
| ProtocolSafety.Reachable | backend/app/agents/loop.py:190-444 | every state of every run satisfies all invariants |
| ProtocolTheorems.PassingCandidateIsKept | backend/app/agents/repairs.py:329-381 | in every run and at every stop: a patch is accepted iff the stop is not fatal and some attempt passed or the newest stored patch is valid and untested; the choice is the newest passing patch, else the newest stored one |
| ProtocolTheorems.ChoiceIsRight | backend/app/agents/repairs.py:329-356 | of the completion the choice is made from, the newest pass or else the newest one of a stored patch: the choice is its patch, valid iff it was judged so, with its test verdict if it was, failed if it was not, and none if its assessment raised; without such a completion there is no choice, nothing valid and no verdict |
| ProtocolTheorems.FinalPatchIsTheChoice | backend/app/models/agent_run.py:81-92 | after flagging, exactly the chosen patch is selected and the run's final patch id is the choice, or nothing when there is no choice |
| ProtocolTheorems.StreaksAreFresh | backend/app/agents/repairs.py:94-125 | along a streak of failed-test attempts the hypothesis revisions, and the plan revisions, strictly increase under their policies; under both plan policies a streak has at most 1 + max_plan_revisions attempts |
| ProtocolTheorems.PlanLimitLocksTheRun | backend/app/agents/planning.py:48-98 | a plan past the revision limit revokes the earlier one for good: no write and no submission can follow in the run |
| ProtocolTheorems.UnfinishedIff | backend/app/agents/loop.py:382-384 | a start stays without a completion iff the last action got a tool result that is no patch |
| ProtocolTheorems.AttemptsAreAccountedFor | backend/app/agents/repairs.py:127-262 | attempts stay within 1 + max_repair_attempts and below it while the run goes on; with a tool that returns patches or raises, every start is completed exactly once; otherwise the last one alone is unfinished; `repair_attempts_used` is one less than the attempts |
| KeptCandidates.AcceptedEndsTheRun | backend/app/agents/repairs.py:258-265 | a run that stops on the first passing patch ends with the very attempt that submitted the patch it accepts |
| KeptCandidates.AcceptedButOutOfScope | backend/app/agents/repairs.py:329-381 | a legal run, for any two source files and any plan and hypothesis policy, whose accepted patch the scope rules refuse at the end |
| KeptCandidates.PassingCandidateRefused | backend/app/patches/service.py:321-345 | after that run, from any workspace git can undo that holds another diff, the restore raises and leaves the clean workspace |
| ProtocolTheorems.StoredSourcesHaveEvidence | backend/app/patch_quality/service.py:389-446 | with ranking required (as in `EditScope.DEFAULT_POLICY`) and no override, every source file of a stored patch was in the newest ranking when stored, and read or retrieved before that ranking |
| ProtocolTheorems.RankingFreezesWithoutDeadlock | backend/app/agents/candidate_files.py:40-105 | between a write and a later ranking lies a failed-test attempt that reopened it; when the gate demands a ranking it is open, and any ordinary submission is accepted and lifts the demand |
| GateReadings.WriteGate | backend/app/agents/repairs.py:94-125 | read off the event table of any run: a file may be written iff an accepted plan stands and a ranking was submitted, where asked for, and both are newer than those of the newest failed-test attempt that nothing settled since, where an update is asked for |
| GateReadings.SubmitGate | backend/app/agents/repairs.py:94-125 | the same for a submission, of the plan and of the last live hypothesis |
| GateReadings.PlanGate | backend/app/agents/planning.py:48-119 | a plan is accepted iff it is within the revision limit and rests on enough files, every one of which was read, searched or retrieved in the run; the review that says so is logged |
| GateReadings.RankingGate | backend/app/agents/candidate_files.py:64-131 | a ranking is accepted iff no write is open, it is bounded and without repeats, and every file was read or retrieved |
| GateReadings.RunEndsIff | backend/app/agents/repairs.py:214-268 | a run has stopped iff its newest attempt was never assessed, or its assessment raised, used up the budget, found a valid untested patch, or a passing one where that ends the run; the repair limit is logged exactly after an assessment that used up the budget without settling |
| GateReadings.NumbersCount | backend/app/patches/service.py:270-319 | reviews, rankings and stored patches are numbered 1, 2, 3, ... in the event table, and so are the patch rows, with ids of their own |
| GateReadings.SubmissionsAreStored | backend/app/patches/service.py:270-319 | the rows and the stored events of a run are its submissions that stored a patch, in order, each with its text, its files and exactly its source files |
| AgentServices.PlanningService.Submit | backend/app/agents/planning.py:48-119 | takes a revision, revokes the plan before it, accepts iff within the limit, valid and with enough observed evidence; the review is logged |
| AgentServices.CandidateFilesService.Observe | backend/app/agents/candidate_files.py:45-51 | records reads and retrievals, and that editing began |
| AgentServices.CandidateFilesService.Submit | backend/app/agents/candidate_files.py:64-131 | accepts exactly the rankings that are open, bounded, without repeats and backed by evidence; otherwise nothing changes |
| AgentServices.HypothesisService.ActiveRunHypothesis | backend/app/agents/hypotheses.py:102-107 | the backward scan finds the newest live revision |
| AgentServices.HypothesisService.Submit | backend/app/agents/hypotheses.py:33-89 | the loop rewrites older live entries as revised only for a live status, then appends the new entry |
| AgentServices.PatchService.StoreGeneratedPatch | backend/app/patches/service.py:270-319 | one new row with a fresh id and the next version, and the events that record it |
| AgentServices.PatchService.SubmitPatch | backend/app/agents/tools/service.py:342-360 | stores a patch iff the run is on, the diff is readable and the gate accepts git's own list of changed files on the rankings and plans recorded so far; its text is the current diff, its files that list; a failure changes nothing |
| AgentServices.PatchService.RestoreCandidate | backend/app/patches/service.py:321-345 | the steps of the method are the restore function; on normal return the diff is the patch text |
| AgentServices.RepairService.CheckAction | backend/app/agents/repairs.py:94-125 | refuses exactly when a demanded plan, ranking or hypothesis is not newer than at the failed attempt |
| AgentServices.RepairService.BeginAttempt | backend/app/agents/repairs.py:127-138 | starts an attempt iff the budget and the gate allow it, and logs it |
| AgentServices.RepairService.Evaluate | backend/app/agents/repairs.py:140-219 | the tests run once iff the workspace holds the submitted text and the run asks for tests; the verdict is theirs; it is valid iff the workspace holds the text before and after, `ensure_patch_applied` accepts it and no exception is raised; an unknown exception, of the tests or of the analysis of failed ones, is the only one that escapes |
| AgentServices.RepairService.Assess | backend/app/agents/repairs.py:140-288 | the verdict on a stored patch is the one the workspace, the tests and the analysis determine; outcomes, passing patch, demand, decision and events follow for every verdict, including an assessment that re-raises |
| AgentServices.RepairService.Finish | backend/app/agents/repairs.py:329-381 | chooses by the fields of the service, stores their verdict as the final one, flags exactly the choice, restores it when it is valid, and on normal return the workspace diff is its text (what the fields say of the run is `ChoiceIsRight`) |
| AgentLoop.Loop.HandleCall | backend/app/agents/loop.py:267-372 | a call that parses is run iff the gates of its tool are open, and then takes exactly the step its arguments or its outcome determine; it succeeds iff its service took it, a plan iff it is accepted; one step joins the trace and one answer with the same success joins the history |
| AgentLoop.Loop.OpenAttempt | backend/app/agents/loop.py:268-282 | the attempt begins iff every gate lets the submission through: the budget check inside `begin_attempt` never fires |
| AgentLoop.Loop.HandleSubmission | backend/app/agents/loop.py:267-437 | one submission, whatever the tool and the assessment do: the gate is closed iff a gate refuses, and then the run is unchanged and an error is counted; otherwise the services take exactly one attempt step with the submission that the tool, the workspace and the quality gate determine; the history gets its answer, the answers to the calls not run and the feedback, unless an exception escapes; an error is counted iff the tool raised or the stored patch is invalid |
| AgentLoop.Loop.HandleBatch | backend/app/agents/loop.py:247-437 | the calls of one reply keep every budget and every call handled has its step and its answer; when the loop goes on, all were handled or the last one was a submission that closed the batch, and when it ends, it ends as the errors and the assessment say |
| Conversation.OpenIsSendable | backend/app/model_providers/providers.py:238-578 | a history handed over has all calls answered, and each of the three adapters takes it iff every call in it can be translated |
| Conversation.ContinuesOpen | backend/app/agents/loop.py:236-437 | what the loop makes of a complete history and any reply is complete again: after every call, after a submission that cuts the batch short, or after the prompt to go on |
| Conversation.RepliesAreKept | backend/app/agents/loop.py:236-249 | every reply but the last one of a run is a response; the next history is the one before it, the reply, and what follows, which for a reply without calls is only the prompt to go on |
| Conversation.PromptsComeFirst | backend/app/agents/loop.py:190-196 | the first history handed over is the prompts, before any step and attempt |
| Conversation.ConversesSnoc | backend/app/agents/loop.py:197-249 | one more model call continues the conversation: its history follows from the exchanges before it and may be handed over |
| AgentLoop.EndMeans | backend/app/agents/loop.py:190-444 | how a run ended says what happened: a provider error iff the provider failed on the last call; an exception iff the last assessment raised or the tool returned no patch; the error limit iff it is reached; a submitted patch iff the last assessment stops the run; the step limit only with a budget used up; a patch is handed over iff the last call stored it |
| AgentLoop.Loop.Run | backend/app/agents/loop.py:190-444 | terminates for any provider; model calls, steps and errors stay within their limits; the first history is the prompts, and each later one is what the exchange before it leads to (`Conversation.Leads`); errors are the failed steps plus the stored patches judged invalid; the end is the one the last reply, the errors and the last assessment determine; the services went through a legal run |
| AgentLoop.Loop.FinishRun | backend/app/agents/repairs.py:329-381 | the right candidate is chosen and flagged, and its verdict, none for an untested patch, is the one stored; with a valid choice and a readable workspace the restore returns normally iff the workspace already holds the text, or git undoes the current diff and the text is empty or accepted by the gate and applies; an accepted choice of a run that stops on the first passing patch is always restored, the workspace untouched |
| AgentLoop.Loop.RunAndFinish | backend/app/agents/repairs.py:329-381 | the same for a whole run and its end, from the workspace the run left |
| Analytics.LegacyAttempts | backend/app/analytics/repair_outcomes.py:190-202 | groups the verdicts of the post-patch test rows by attempt, in order; a group is all passed iff all its rows are |
| Analytics.LegacyVerdicts | backend/app/analytics/repair_outcomes.py:190-202 | an attempt is rebuilt iff some post-patch row is its |
| Analytics.ReadModelAgrees | backend/app/analytics/repair_outcomes.py:148-159 | the number of repair attempts rebuilt from events, patches and test rows is the one the run recorded |
| PatchWorkspace.RestoreIsExact | backend/app/patches/service.py:321-345 | a normal return leaves exactly the selected patch in the workspace, whatever git does |
| PatchWorkspace.RestoreLeaves | backend/app/patches/service.py:321-345 | a restore leaves the workspace as it was, with the current work undone, or with the text applied after that; a run that is off, an unreadable workspace and an unreadable text are refused and change nothing |
| PatchWorkspace.RestoreRefinesResetThenApply | backend/app/patches/service.py:321-345 | a readable patch is restored from a readable workspace iff it is already there, or git undoes the current diff and the patch is empty or accepted and applies to what is left; a restore that acts ends where resetting and applying ends |
| PatchWorkspace.RestoreNeedsUndoAndGate | backend/app/patches/service.py:321-345 | where git redoes the patch on the undone workspace, only the undo and the gate decide |
| PatchWorkspace.UndoRefusedRestoreFails | backend/app/patches/service.py:329-334 | a workspace git cannot undo stays as it is, and every other patch is refused |
| PatchWorkspace.RejectedRestoreLeavesCleanWorkspace | backend/app/patches/service.py:321-345 | a patch the gate no longer accepts is refused after the current work was undone |
| PatchWorkspace.HeaderGateIff | backend/app/patches/service.py:221-228 | of a patch the gate accepted on git's list of files, it accepts the files of the headers iff there are any, the quality limits hold for them, and each file beyond git's list meets the scope rules itself |
| PatchWorkspace.StoredIsAssessedIff | backend/app/patches/service.py:211-268 | a stored patch is applied in place by its assessment iff that gate accepts and git undoes or applies it there; a refusal by the gate is the safety error and changes nothing |
| PatchWorkspace.SecondApplyIsNeutralIff | backend/app/patches/service.py:211-268 | a second `ensure_patch_applied` leaves the workspace alone iff the first did not apply, or git's answers on the applied workspace say so |
| PatchWorkspace.AcceptedPatchAppliesOnce | backend/app/patches/service.py:211-268 | an accepted patch that git applies to a clean workspace and undoes there: applying twice is applying once |
| PatchWorkspace.ApplyIff | backend/app/patches/service.py:211-268 | `ensure_patch_applied` returns normally iff the run is on and the text is blank, or the text and the workspace are readable, its files accepted, and git applies or undoes it there; it changes the workspace only by applying the text, and raises an apply error iff only git refuses |
| PatchWorkspace.RecordedIff | backend/app/patches/service.py:116-141 | a text is some workspace's readable diff iff it is empty or readable, and printed by a workspace whose changed files are within the limits |
| PatchWorkspace.AlikeLinesAreRegular | backend/app/patches/service.py:211-268 | in a repository with one file whose lines are all alike, of any length, every diff can be undone where it was printed and redone on a clean workspace |
| PatchWorkspace.AlikeLinesTwiceIff | backend/app/patches/service.py:211-268 | there a second call changes the workspace iff base and patched file have at least four lines, the workspace has neither number, and it is long enough for both calls |
| PatchWorkspace.SecondApplyCanApplyAgain | backend/app/patches/service.py:211-268 | the input: four lines at the base, five in the workspace, and a recorded patch that adds two; both calls apply it |
| PrintedPatches.ReadBack | backend/app/patches/service.py:124-141 | the files and their lines can be read back off the joined text of their printed patches |
| PrintedPatches.TextOfSplitIff | backend/app/patches/service.py:389-389 | writing back the split lines gives the content iff every line ends in a newline and no other separator occurs |
| PrintedPatches.NewFilesUndoneIff | backend/app/patches/service.py:124-141 | git undoes the printed patches of a workspace's untracked files iff every one of them is newline-ended in that sense |
| PrintedPatches.NewFilesReapply | backend/app/patches/service.py:374-402 | where the files are missing, git applies the printed patches of any of them, prints them again, and can undo them |
| PrintedPatches.RestoredFilesIff | backend/app/patches/service.py:321-345 | what a restore writes are the files that were submitted iff they were newline-ended |
| PrintedPatches.NewFilesRestoreIff | backend/app/patches/service.py:321-345 | the new files of one workspace are restored in another iff that one already prints them, or its own are all newline-ended and the gate accepts those to restore |
| PrintedPatches.UnendedFileBlocksRestore | backend/app/patches/service.py:321-345 | with a file that is not newline-ended in the workspace, every other recorded candidate's restore raises |
| PrintedPatches.MissingNewlineBlocksRestore | backend/app/patches/service.py:321-345 | the input: one line `x` without a newline in the workspace |
| PrintedPatches.AssessedInPlaceIff | backend/app/test_execution/service.py:522-544 | applying submitted new files where they were printed succeeds iff all are newline-ended, so other submissions are judged invalid |
| LineEnds.ReadAsPrintedIff | backend/app/patches/service.py:562-576 | what is read of git's output is what git printed iff it holds no carriage return |
| LineEnds.BodyIsReadWithout | backend/app/patches/service.py:562-576 | printed hunk lines whose carriage returns end them are read as those lines without them |
| LineEnds.ReadDiffUndoneIff | backend/app/patches/service.py:329-339 | a diff git undoes where it printed it is undone, as it is read, iff no line it leaves ends in a carriage return, and gives the same file iff no line it took out did either |
| LineEnds.EditedCrlfFileIsNotUndone | backend/app/patches/service.py:329-334 | the input: a line added to a one-line CRLF file |
| HiddenHeaders.HeaderFilesOf | backend/app/patches/service.py:347-355 | the files of a printed patch are those of its headers and those its hunks name when read on their own |
| HiddenHeaders.HiddenHeaderIsJudgedInvalid | backend/app/patches/service.py:221-228 | a patch of one ranked file whose context hides an unranked file's header: the gate accepts it when it is stored, and its assessment raises the safety error |
| DiffText.SplitText | backend/app/patches/service.py:611-611 | splitting a printed patch splits each printed line on its own |
| PatchPaths.ExtractPatchPaths | backend/app/patches/service.py:607-628 | the flag-driven loop is the scan the lemmas below speak of, or the safety error |
| PatchPaths.ExtractReadsBodies | backend/app/patches/service.py:607-651 | of a printed patch the scan finds the header paths and exactly what each hunk names when read on its own |
| PathReadings.ExtractIff | backend/app/patches/service.py:607-651 | for every text: the extraction raises iff some line is a malformed first header line, or a header line without a path outside hunks; otherwise its result is exactly the paths named by first header lines, and outside hunks by path, rename and copy lines |
| PathReadings.StampIsCut | backend/app/patches/service.py:641-651 | a path is read up to the tab before a timestamp, whatever follows it |
| PatchPaths.ScanBoundedIff | backend/app/patches/service.py:607-651 | over any lines the scan finds no further path and does not fail iff each line is harmless: a `diff --git ` line, or a header line outside hunks, neither fails nor names another path |
| PatchPaths.ExactlyHeadersIff | backend/app/patches/service.py:607-651 | the result for a printed patch is exactly the header paths iff every line the splitter sees in its hunks is harmless |
| PatchPaths.CalmPatchIsExact | backend/app/patches/service.py:607-628 | so it is exact whatever the hunks contain, as long as no line the splitter sees in them starts with `diff --git ` |
| PatchPaths.UnbrokenHunkIsCalm | backend/app/patches/service.py:607-628 | a hunk whose texts contain no line separator meets that condition, including added lines that look like headers |
| PatchPaths.FormFeedAddsPaths | backend/app/patches/service.py:611-615 | the input: a line added after one that is a form feed and another file's header; the scan adds that file |
| HunkCounts.ChangedLineCounts | backend/app/patch_quality/service.py:815-825 | counts the added and the removed lines of the text (`calculate_patch_size_statistics` counts the same lines) |
| HunkContents.PrintedLinesAreCounted | backend/app/patch_quality/service.py:815-825 | of such a patch the two counts are the numbers of its added and of its removed texts that do not print like a header |
| HunkCounts.ParseHunks | backend/app/patch_quality/service.py:530-557 | the loop collects the hunks of the specification fold, contents and paths |
| HunkCounts.ParsedTotal | backend/app/patch_quality/service.py:530-557 | the collected hunks hold exactly the changed lines that met an open hunk of a listed file |
| HunkContents.PrintedHunksAreCollected | backend/app/patch_quality/service.py:530-557 | of a printed patch whose texts hide no separator the parser collects, hunk by hunk, the path it is read under and exactly its added and its removed texts, for each hunk under a listed path |
| HunkContents.UndisguisedCollected | backend/app/patch_quality/service.py:530-557 | without an added line that starts with `++ b/` that path is the file's own, so the hunks are those of the listed files |
| HunkCounts.HunksNeverOvercount | backend/app/patch_quality/service.py:530-557 | for every text the hunks hold at most the changed lines counted over it |
| HunkCounts.TotalsAgreeIff | backend/app/patch_quality/service.py:530-557 | on a printed patch the totals agree iff no hunk, read on its own under the path left before it, loses a changed line |
| HunkCounts.InnerHunkLosesIff | backend/app/patch_quality/service.py:541-550 | a hunk none of whose lines opens a file loses its lines iff the path before it is not listed |
| HunkCounts.UnbrokenTotalsAgreeIff | backend/app/patch_quality/service.py:530-557 | when no text of the patch hides a separator, they agree iff every hunk with a counted line is read under a listed path: the file's own, or that of the last added line before it starting with `++ b/` |
| HunkCounts.UndisguisedTotalsAgreeIff | backend/app/patch_quality/service.py:530-557 | without such added lines they agree iff every file with a counted line is listed |
| HunkCounts.UndisguisedIsSteady | backend/app/patch_quality/service.py:541-543 | a hunk without separators meets the condition of the next row iff none of its added lines starts with `++ b/` |
| HunkCounts.ListedTotalsAgree | backend/app/patch_quality/service.py:530-557 | over listed files the totals agree when no hunk line starts with `+++ b/` or `diff --git a/`, whatever separators the texts hide |
| HunkCounts.DisguisedLineLosesHunk | backend/app/patch_quality/service.py:541-543 | the input: a ten-line file with an added line `++ b/` and a path before it and another line after it; the parser loses the second hunk |
| Sandbox.NetworkFailsClosed | backend/app/sandbox/network.py:9-51 | the network is open iff the phase is known and permitted, no host allowlist is set, and the requested or configured mode says so |
| Sandbox.PolicyIs | backend/app/sandbox/network.py:9-51 | a request is refused iff its mode is neither `none` nor `bridge`, or the network would be open and a host allowlist is set; it gets the network iff it is wanted and there is no such list, and runs offline otherwise |
| Sandbox.DefaultsRunOffline | backend/app/sandbox/network.py:9-51 | under the default settings every phase but the setup runs offline |
| Sandbox.IncrementalEqualsFullCopyIff | backend/app/sandbox/commands.py:153-196 | an incremental sync equals a full copy iff every file it skips is intact in the container |
| Sandbox.SyncMirrorsHost | backend/app/sandbox/commands.py:153-196 | with collision-free digests and an untampered container: the synced tree is the host tree, lost files are gone, all other files are untouched, and the new cache is right |
| Sandbox.SyncKeepsMirror | backend/app/sandbox/commands.py:153-196 | syncing one workspace keeps the trees of all others |
| Sandbox.Session.EnsureContainer | backend/app/sandbox/commands.py:111-151 | it succeeds iff no Docker call fails; then the container has the wanted network mode and, through snapshot and replacement, the files of the one before; one that has the mode is kept; every image made is recorded |
| Sandbox.Session.Synchronize | backend/app/sandbox/commands.py:153-196 | a successful sync is a full copy iff the files it skips are intact; unless a command overwrote a synced file it is one: the container holds the host tree, lost files are gone and no other file is touched |
| Sandbox.Session.Execute | backend/app/sandbox/commands.py:61-109 | a command of an open session runs unless the policy refuses it, the host tree cannot be read, or a Docker call fails; it starts only in a container whose mode is the policy's effective mode and, unless an earlier command overwrote synced files, whose files are a full copy of the host's tree over what was there; the result is the command's, or a setup error; the session is closed iff that is an error or a timeout, and a closed session runs nothing |
| Sandbox.Session.Close | backend/app/sandbox/commands.py:39-59 | every snapshot image is removed, or its removal failed and is reported: cleanup failed iff some removal was refused, and the call escapes iff one raised no Docker error, which keeps the client and the list of images |
| Flakiness.RunTests | backend/app/sandbox/runner.py:138-159 | the nested loop with its stop rules and exceptions produces the flat results of the specification |
| Flakiness.GroupRepetitions | backend/app/flakiness/service.py:145-162 | the cursor loop is the grouping function |
| Flakiness.RegroupingRecovers | backend/app/flakiness/service.py:145-162 | for any outcomes and policy the grouped repetitions are exactly those that got a first result, each with the results of exactly the commands it came to, in order, and its true verdict: all its commands ran and passed |
| Flakiness.SandboxErrorIff | backend/app/sandbox/runner.py:161-166 | the runner reports a sandbox error iff the phase came to a command that raised or ended with a runner error |
| Flakiness.StatusIsTrue | backend/app/flakiness/service.py:165-179 | unless the phase breaks down: stable iff every requested repetition got going and all true verdicts agree, flaky iff two disagree |
| Flakiness.EarlierFailures | backend/app/flakiness/service.py:165-179 | a failed setup is reported as one, and a failed clone or checkout decides nothing |
| Flakiness.Check | backend/app/flakiness/service.py:62-73 | the check regroups the runner's flat results and judges them: its runs and status are those of the two rows above |
| WorkspaceWalk.Files | backend/app/repository_indexing/workspace.py:187-220 | the explicit stack, sorting each scanned directory, walks the recursive preorder of the tree in name order; the limit error occurs iff the tree has more entries than allowed, and what was yielded before it is an initial part of the walk |
| WorkspaceWalk.ScanOrderIsIrrelevant | backend/app/repository_indexing/workspace.py:201-201 | two scans with the same entries at every path, in any order, give the same walk |
| WorkspaceWalk.DeepNames | backend/app/repository_indexing/workspace.py:201-201 | at every level the walk takes the entries in strict name order |
| WorkspaceWalk.BeforeIs | backend/app/repository_indexing/workspace.py:201-201 | in that order a name comes before those it begins, and otherwise by the first character where they differ |
| WorkspaceWalk.WalkFinds | backend/app/repository_indexing/workspace.py:201-219 | a directory's walk yields exactly the regular files below it, reached through real directories, whose path is searchable |
| WorkspaceWalk.WalkBalances | backend/app/repository_indexing/workspace.py:187-220 | entries visited are files yielded plus directories descended into plus entries skipped, by reason |
| WalkCounts.WalkTallies | backend/app/repository_indexing/workspace.py:187-220 | the files and the five counters of a walk are those of its visits: which entries it yields, descends into, and skips as protected, ignored or unsafe |
| WalkCounts.VisitedIff | backend/app/repository_indexing/workspace.py:187-220 | the entries visited are exactly those below directories it descends into, each with its own verdict |
| WalkCounts.VerdictMeans | backend/app/repository_indexing/workspace.py:40-64 | each verdict, by the path and the kind of the entry: an unsafe step or a drive, then a protected name anywhere, then an ignored name, then links and special files |
| WalkCounts.SearchableMeans | backend/app/repository_indexing/workspace.py:40-64 | a path is searchable iff it has a step and none of its steps is unsafe, protected or ignored |
| WorkspaceWalk.JudgedAsSearchable | backend/app/repository_indexing/workspace.py:40-64 | below an entered directory the per-entry checks are `searchable_path` of the whole path |
| WorkspaceWalk.IndexWalk | backend/app/repository_indexing/workspace.py:187-220 | every searchable regular file is yielded exactly once and nothing else is, whatever order the scans return |
| Chunking.ChunkFile | backend/app/repository_indexing/chunking.py:22-58 | the window loop terminates and produces the chunks of the specification, which the rows below speak of |
| Chunking.HasChunksIff | backend/app/repository_indexing/chunking.py:13-27 | a file that is not blank has chunks iff it is searchable, within both size limits, and holds no control character but tab, newline, form feed and carriage return |
| Chunking.RefusedHasNoChunks | backend/app/repository_indexing/chunking.py:13-27 | any other file has none |
| Chunking.NextEndsLater | backend/app/repository_indexing/chunking.py:29-57 | window ends strictly increase for any overlap below the size |
| Chunking.WindowEndsAtLastLine | backend/app/repository_indexing/chunking.py:29-40 | a window that does not reach the end of the file ends after the last newline of its later half, past the overlap, or has exactly the chunk size if there is none |
| Chunking.WindowsRebuildTheFile | backend/app/repository_indexing/chunking.py:22-58 | the first window and each later one without its first `overlap` characters rebuild the file |
| Chunking.EveryCharacterIsIndexed | backend/app/repository_indexing/chunking.py:22-58 | every non-blank character of a file that meets the conditions of `HasChunksIff` lies in a kept chunk with the lines of its first and last character; ordinals are 0, 1, 2, ... |
| Chunking.ChunkSizes | backend/app/repository_indexing/chunking.py:22-58 | no chunk exceeds the window size or is blank |
| Chunking.SymbolNamesIff | backend/app/repository_indexing/chunking.py:41-50 | the names on a chunk's lines, of which it keeps the first 20, are those of the symbols that overlap them, cut to 64 characters |
| Chunking.ChunkNames | backend/app/repository_indexing/chunking.py:41-50 | every kept chunk lists the first 20 of those names, or all if there are fewer |
| Utf8.RoundTrip | backend/app/repository_indexing/chunking.py:67-68 | decoding what was encoded gives the text back |
| Utf8.BytePrefixIsLongest | backend/app/repository_indexing/chunking.py:67-68 | encoding, cutting at a byte limit and decoding leniently gives the longest whole-character prefix that fits |
| Feedback.FeedbackIsBounded | backend/app/agents/repairs.py:26-38 | feedback never exceeds 4096 bytes, and exactly when it stays within `max_chars` |
| Feedback.FeedbackSays | backend/app/agents/repairs.py:26-38 | redacted text within both limits is handed over as it is; of any other the longest prefix that leaves room for the marker in both, with the marker once at its end |
| Feedback.CharacterLimitCanBeExceeded | backend/app/agents/repairs.py:26-38 | an input whose feedback has more than `max_chars` characters |
| Batching.BatchedAt | backend/app/repository_indexing/semantic.py:255-266 | each batch is non-empty and within both limits, and each but the last had no room for the next text |
| Batching.Batches | backend/app/repository_indexing/semantic.py:255-266 | the greedy loop: batches concatenate to the plan in order and are each full but the last |
| Embedding.EmbeddingTextFits | backend/app/repository_indexing/chunking.py:61-68 | every embedding text has at most 7298 bytes and is not blank, whatever the path, symbols and content |
| Embedding.EmbeddingTextShows | backend/app/repository_indexing/chunking.py:61-68 | the text is the longest whole-character prefix of the path within 1024 bytes, that of the symbol names within 256, and the whole chunk, under their headings |
| Embedding.ValidateTexts | backend/app/embeddings/base.py:37-49 | accepts exactly the lists within the count, text and request limits |
| Embedding.Plan | backend/app/repository_indexing/semantic.py:96-101 | the plan holds every chunk of every file in order, or the limit error is raised iff there are more than 10000 |
| Embedding.BatchIsValid | backend/app/embeddings/base.py:37-49 | every batch of such a plan passes the provider's input check |
| Embedding.Build | backend/app/repository_indexing/semantic.py:96-112 | unless the chunk limit is exceeded, the whole plan is sent, in order, and no batch is refused; every non-blank character of every file that can be embedded is in some text sent |
| Audit.ChainEvents | backend/app/audit_logs/service.py:332-350 | each event's hash covers its own fields and its predecessor's hash |
| Audit.ExportShows | backend/app/audit_logs/service.py:332-350 | each exported event has the fields of its pending event, cleaned, its position and the hash of the event before it |
| Audit.SameFinalHashSameLog | backend/app/audit_logs/service.py:327-350 | two logs that verify and end in the same hash are the same log |
| Audit.SameFinalHashSameExport | backend/app/audit_logs/service.py:332-350 | two exports with the same final hash have the same length, fields and events, whether or not they verify |
| Audit.SameFinalHashSameItems | backend/app/audit_logs/service.py:332-350 | and their pending events agree one by one in time, actor, entity, redacted type and redacted summary |
| Audit.ExportVerifiesIff | backend/app/audit_logs/service.py:332-350 | an export is always linked, and verifies iff storing its events changed none of the hashed fields |
| Audit.TruncatedKeeps | backend/app/core/redaction.py:124-129 | a text that fits is kept; of a longer one its first characters are, and then the number of those left out |
| Audit.TruncatedTwice | backend/app/core/redaction.py:124-129 | a second truncation changes nothing iff the text fits or is exactly 34 characters over |
| Audit.KeptIff | backend/app/schemas/audit_log.py:22-30 | when redaction leaves its cleaned texts alone, an event verifies iff its redacted summary has at most 2000 characters or 2034 |
| Audit.LongSummaryDoesNotVerify | backend/app/audit_logs/service.py:332-350 | an event with a summary of 2001 characters does not verify |

## Left out

- AgentLoop.Loop.Run: the loop without a repair service (single-attempt runs), failure categories, log events of model and tool calls, and message wording are not modelled.
- PatchWorkspace.RestoreRefinesResetThenApply: git timeouts, and a git call that fails after its own check succeeded.
- PrintedPatches.NewFilesUndoneIff: workspaces that also change tracked files.
- LineEnds.ReadDiffUndoneIff: hunks are undone at the lines they name, where git also looks nearby; a carriage return inside a line, a last line without a newline, and how git computes the hunks are not modelled.
- ProtocolTheorems.StoredSourcesHaveEvidence: the files of `search_code` results count as observed by the tool's event; the provenance of retrieval scores is not followed.
- HunkContents.PrintedHunksAreCollected: patches whose texts hide a separator; for those the totals are compared (`TotalsAgreeIff`).
- Feedback.FeedbackIsBounded: text with lone surrogates, which the source encodes with replacement characters, is not modelled; `max_chars` is at least the marker's length, as the configuration's lower bound of 512 ensures.
- WorkspaceWalk.Files: races between the scan and the link check, and the reading of a file and its size limit.
- Sandbox.Session.Synchronize: tar archives, file modes and a name that changes between file and directory.
- Sandbox.Session.Execute: exceptions outside the four classes it catches; the error codes of a failed setup are one setup error.
- Flakiness.StatusIsTrue: clone, checkout and setup phases before the test phase enter only as statuses.
- Embedding.Build: vector checks, token and cost sums, and the storage limit on vector values.
- Audit.KeptIff: redaction itself is an arbitrary function; what it does to a text it would change twice is not decided.
- Path normalisation, protected benchmark paths and the size, binary and file-count checks on patches: one predicate of the text.
- Duplicate, generated-file and formatting warnings of the quality gate, and its scores: single formulas.
- Persistence, HTTP routes, schemas, provider network calls, reports and the frontend: plumbing.
- Semantic search, cosine scores and leaderboards: floating-point formulas without state.
- Test execution and failure analysis: an arbitrary verdict, exception and effect on the workspace.
