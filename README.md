# diff-buddy: the summary coordinator and the pull-request view helpers, in Dafny

diff-buddy shows a GitHub pull request with an AI-written summary of its diff.
The summary is made by the server action `generateSummary`
(src/serverActions/generateSummary.ts), which works on one row of the
`pullRequest` table per pull request. That row is keyed by (owner, repo, number) and holds:

- the head SHA;
- the diff and the summary;
- a status: idle, generating, ready or error;
- the stage of a running generation: fetching_diff, prompting_model or saving_result;
- the time the generation started.

The action does one of the following:

- answers from the table when it already holds a summary for the current head SHA;
- resets a row left over from another head SHA;
- takes a "lock" with a guarded `updateMany`;
- creates the row, or recovers when the create fails because the row already exists;
- reports a generation that is already running.

After taking the lock it runs the staged pipeline `runGeneration`:

1. fetch the diff;
2. escape its code fences;
3. prompt the model;
4. unescape the reply;
5. save the result.

A caller that waits (`wait` is true by default) runs the pipeline before it is answered. A caller that does not wait is told "generating" at once. After the first lock or create, a pipeline is started for it without waiting for it (`void runGeneration()`, lines 308-309). After the second lock, on the path where a failed create found a row of another head SHA, no pipeline is started at all (lines 289-297).

The model has these parts:

- **`SummaryStore`** is the table. It is a map from `Key` to `Row`, and `PullRequestTable` is a class over that map. Each of its methods is one atomic Prisma call:
  - `findUnique`;
  - `update`;
  - `updateMany`, which returns its affected count;
  - `create`, which fails on an existing key.
- **`SummaryCoordinator`** is the action as a machine of atomic steps. A `Call` has a program counter (`Pc`), and one `Step` is one table call or one outside call.
  - What GitHub and the model answer is an input (`Env`).
  - Other requests running at the same time are `Others`: before each step of this call, the rows they have written are merged in.
  - `Respond` runs a call until its caller has an answer.
  - `Complete` runs it until its pipeline has ended.
- **`SummaryHandler`** holds the handler and `runGeneration` as imperative methods on a `PullRequestTable`. Each method is proved to leave the table and give the answer that the step machine gives.
- **`SummaryHandling`** is `Handle`, a direct definition of what one call does when nothing else runs. The step machine is proved equal to it. It also holds the properties of the action: cache hits, the stale reset, retries after an error, the pipeline's result rows, the errors a call can throw, and what a second caller sees.
- **`SummaryRaces`** runs any number of calls on one table, under any schedule of their steps. Suppose every call is for the same pull request and the same head SHA, and the row is absent or already carries that SHA. Then an invariant holds over every schedule:
  - at any one time, at most one call is inside the pipeline;
  - at most one call succeeds;
  - pollers see the running call's stage and start time;
  - the stage never moves back.

  A concrete schedule shows that this single-flight rule fails when the row starts out stale. The reset at lines 113-125 fires whatever the row's status, so two calls can both run the pipeline.
- **`SummaryPrompt` and `Text`** model the prompt template and the `replaceAll` chains that escape triple backticks in the diff and restore them in the model's reply.
- **`DiffViewer`, `PRListItem`, `PRHeader`, `PRSidebar`, `PullRequestView`, `Words`, `Decimal` and `Wrappers`** model the view helpers:
  - change counts per file, the file to scroll to, the path to link, which files start open and the "DELETED" label;
  - the relative times;
  - author initials;
  - the state badge;
  - the sidebar's collapsible sections and its labels.

JavaScript details the model follows:

- **Truthiness.** `""` is falsy; see `Wrappers.Truthy`.
- **`replaceAll`.** A left-to-right scan with no overlaps; see `Text.ReplaceAll`.
- **`Math.floor` of a quotient by a positive divisor.** This is Dafny's `/`.
- **`split(" ")`.** It keeps empty pieces.
- **`undefined` in `join`.** `join` writes it as nothing.
- **Template literals.** They write integers in decimal (`Decimal.IntToString`).

Four behaviours of the code are proved as they are written rather than corrected:

- **A stale row breaks single-flight.** See `SummaryRaces.StaleRowAdmitsTwoRuns`.
- **An empty summary or diff is never served.** It is saved with status ready, but the cache test needs both values to be truthy. The lock guard needs `summary` to be null, and the saved summary `""` is not null. So every later call for the same head SHA answers "generating, fetching_diff" with no start time, and no new run can start. See `SummaryHandling.EmptyResultIsNeverServed`.
- **A second lock without waiting starts no run.** On the path where the create failed and the re-read found another head SHA, a caller that does not wait resets the row, takes the second lock, and is told "generating" without any pipeline being started (lines 289-297). The row is left generating at fetching_diff. Every later call for that head SHA is told "generating" with that start time, and writes nothing. See `SummaryHandling.SecondLockStartsNoRun` and `SummaryHandling.OrphanedLockStays`.
- **Two pieces of text are the same.** The "DELETED" heading is shown for a deleted file, and also for a file whose new path is itself "DELETED". See `DiffViewer.DeletedLabel`.

Two further behaviours of the code worth knowing:

- **Failures are thrown, not returned.** A failed pipeline throws, and the code never returns an error status.
- **A waiting caller does not wait for someone else's run.** A caller with `wait = true` that finds a generation already running gets "generating" at once.

The prompt's instruction text spells its one dash as the source file holds it: the three characters U+00E2 U+20AC U+201D, an em dash whose UTF-8 bytes were decoded as Windows-1252. The model keeps those characters, because they are what the prompt sends.

## Model

| member | source | states |
|---|---|---|
| SummaryStore.Find | src/serverActions/generateSummary.ts:101-103 | `findUnique` finds a row exactly when the key is in the table, and returns that row |
| SummaryStore.LockMany | src/serverActions/generateSummary.ts:210-226 | the guarded `updateMany` affects at most one row. It affects one exactly when the row exists, has no summary and is not generating. Then it writes the locked row; otherwise the table is unchanged |
| SummaryStore.LockSetsOnlyProgress | src/serverActions/generateSummary.ts:220-225 | a successful lock sets the status to generating, the stage to fetching_diff, the start time to this call's and the head SHA to the current one. It keeps the diff and the absent summary and touches no other row |
| SummaryStore.PullRequestTable.constructor | src/serverActions/generateSummary.ts:101 | the table starts as the given rows |
| SummaryStore.PullRequestTable.Resume | src/serverActions/generateSummary.ts:101-317 | at each `await`, the rows other calls wrote are merged into the table |
| SummaryStore.PullRequestTable.FindUnique | src/serverActions/generateSummary.ts:101-103 | the method returns `Find` of the current table |
| SummaryStore.PullRequestTable.Update | src/serverActions/generateSummary.ts:114-124 | `update` on an existing row replaces that row by the patched row and changes nothing else |
| SummaryStore.PullRequestTable.UpdateMany | src/serverActions/generateSummary.ts:271-287 | the new table and the affected count are those of `LockMany` |
| SummaryStore.PullRequestTable.Create | src/serverActions/generateSummary.ts:230-240 | `create` succeeds exactly when the key is absent and then inserts the row; when it fails the table is unchanged |
| SummaryPrompt.PromptDiff | src/serverActions/generateSummary.ts:8-59 | the inverse of the prompt template: it is defined exactly on texts that start with the fixed prefix, and returns the rest |
| SummaryPrompt.PromptShape | src/serverActions/generateSummary.ts:8-59 | `getPrompt(d)` is the fixed instruction prefix, ending in the "Diff:" heading, followed by `d` |
| SummaryPrompt.PromptRoundTrip | src/serverActions/generateSummary.ts:8-59 | the diff can be read back from any prompt |
| SummaryPrompt.ReplacedFencesAreGone | src/serverActions/generateSummary.ts:145-148 | replacing every "```" by a non-empty text without backticks leaves no "```" |
| SummaryPrompt.EscapeRemovesFences | src/serverActions/generateSummary.ts:145-148 | the escaped diff contains no "```" |
| SummaryPrompt.PlaceholdersRestoreFences | src/serverActions/generateSummary.ts:145-148 | mapping the placeholder back to "```" restores a diff that held no placeholder |
| SummaryPrompt.EscapeRoundTrip | src/serverActions/generateSummary.ts:145-174 | when the model echoes the escaped diff, unescaping gives back the original diff, as long as the original held no `<diff-buddy-code-block>` |
| SummaryPrompt.EscapeRoundTripNeedsNoPlaceholder | src/serverActions/generateSummary.ts:145-174 | that condition is needed: a diff holding the placeholder comes back as "```" |
| SummaryPrompt.NarrowWiden | src/serverActions/generateSummary.ts:172-173 | widening "```" to "````" loses nothing |
| SummaryPrompt.WidenKeepsPlaceholdersOut | src/serverActions/generateSummary.ts:172-173 | widening does not create a placeholder |
| SummaryPrompt.UnescapeWidensFences | src/serverActions/generateSummary.ts:172-174 | on a reply with no placeholder, unescaping only widens every "```" to "````", and that can be undone |
| SummaryPrompt.PromptDiffHasNoFence | src/serverActions/generateSummary.ts:145-168 | the prompt sent to the model carries the escaped diff, which has no "```" |
| SummaryCoordinator.EntryStep | src/serverActions/generateSummary.ts:95-240 | each step of the SHA check, first read, stale reset, lock and create moves the call forward and never replaces an answer already given |
| SummaryCoordinator.RetryStep | src/serverActions/generateSummary.ts:242-304 | the same holds for the re-read, the second reset and the second lock after a failed create. A retry step that answers the caller ends the call, so it never dispatches a run. The second lock enters the pipeline exactly when the caller waits and the lock affects a row; for a caller that does not wait it ends the call |
| SummaryCoordinator.EarlyAnswerIsDispatch | src/serverActions/generateSummary.ts:210-317 | the only step that answers a caller before its call ends is the first lock or the create of a caller that does not wait; the call holds the lock and stands at the diff fetch |
| SummaryCoordinator.PipelineStep | src/serverActions/generateSummary.ts:127-207 | the same holds for each pipeline step |
| SummaryCoordinator.Step | src/serverActions/generateSummary.ts:70-318 | a step keeps the request, moves an unfinished call closer to its end, and leaves a finished call alone |
| SummaryCoordinator.StepFrame | src/serverActions/generateSummary.ts:70-318 | a step writes at most the row of its own key, and deletes nothing |
| SummaryCoordinator.Respond | src/serverActions/generateSummary.ts:70-318 | run amid any writes of other calls, a call always ends up with an answer, and keeps one it already has |
| SummaryCoordinator.Complete | src/serverActions/generateSummary.ts:127-208 | the pipeline always runs to its end, and the caller's answer is kept |
| SummaryCoordinator.CompleteIsRespond | src/serverActions/generateSummary.ts:317 | inside the pipeline with no answer given yet (`return runGeneration()`), running until the caller is answered and running until the end coincide |
| SummaryHandler.GenerateSummary | src/serverActions/generateSummary.ts:70-125 | the handler leaves the table of `Respond` from the start and returns its answer. It reports dispatch exactly when the pipeline is still running when the caller is answered, which happens only for a caller that does not wait and holds the lock for that run (`DispatchedRunIsTheCallers`), answered at its first lock or create (`EarlyAnswerIsDispatch`) |
| SummaryHandler.TakeLock | src/serverActions/generateSummary.ts:210-241 | the same, from the lock |
| SummaryHandler.Retry | src/serverActions/generateSummary.ts:242-257 | the same, from the re-read after a failed create |
| SummaryHandler.ResetAndRelock | src/serverActions/generateSummary.ts:258-304 | the same, from the second reset. After a second lock, a waiting caller runs the pipeline inline; a caller that does not wait gets "generating" and nothing is dispatched |
| SummaryHandler.RunOrDispatch | src/serverActions/generateSummary.ts:308-317 | the same, once the first lock or the create has succeeded. The pipeline runs inline when the caller waits, and is otherwise dispatched with the answer fetching_diff and this call's start time |
| SummaryHandler.RunGeneration | src/serverActions/generateSummary.ts:127-208 | `runGeneration` leaves the table of `Complete` and returns its answer |
| SummaryHandler.PromptModel | src/serverActions/generateSummary.ts:159-174 | the same, from the prompting_model stage |
| SummaryHandler.AskModel | src/serverActions/generateSummary.ts:166-195 | the same, from the model call on the escaped diff: a missing reply aborts with model_failed, a reply is unescaped and saved |
| SummaryHandler.Generate | src/serverActions/generateSummary.ts:166-169 | the prompt sent carries exactly the escaped diff, which reads back from it (its fixed instruction prefix is `PromptShape`); the model's reply is the given outcome |
| SummaryHandler.SaveSummary | src/serverActions/generateSummary.ts:176-195 | the same as `RunGeneration`, from the saving_result stage; it returns ready with this run's summary and diff |
| SummaryHandler.Abort | src/serverActions/generateSummary.ts:196-207 | the same, from a failure; it rethrows the error it caught |
| SummaryHandling.ClaimedRow | src/serverActions/generateSummary.ts:210-240 | the row a lock or create leaves: generating, fetching_diff, this call's start time and head SHA, no summary. It keeps the stored diff only when the row already carried this SHA |
| SummaryHandling.RespondIsHandle | src/serverActions/generateSummary.ts:70-318 | with no other call running, the step machine gives exactly the final table and answer of the reference `Handle` |
| SummaryHandling.PipelineRun | src/serverActions/generateSummary.ts:127-208 | run alone, the pipeline replaces the row by its result row and answers its result |
| SummaryHandling.MissingShaTouchesNothing | src/serverActions/generateSummary.ts:95-99 | with no head SHA, the call throws before it reads or writes the table, whatever other calls do |
| SummaryHandling.MissingApiKeyFailsInFetchingDiff | src/serverActions/generateSummary.ts:150-153 | without an API key, the pipeline fails before it writes a stage, so the row still reads fetching_diff. The error write keeps the head SHA, diff and summary |
| SummaryHandling.OnlyThePipelineThrows | src/serverActions/generateSummary.ts:228-305 | amid any writes of other calls, a call throws only for a missing head SHA or from a pipeline it locked itself. A lost lock or failed create is never an error |
| SummaryHandling.CallThrowsOnlyMissingShaOrFromItsRun | src/serverActions/generateSummary.ts:95-305 | the same, for a call from its start |
| SummaryHandling.DispatchOnlyWithoutWaiting | src/serverActions/generateSummary.ts:210-317 | whatever other calls write meanwhile, a call whose caller is answered while its run still goes on is a call that does not wait, holds the lock and is inside the pipeline |
| SummaryHandling.DispatchedRunIsTheCallers | src/serverActions/generateSummary.ts:308-317 | the same, for a call from its start: a dispatched run belongs to a caller that does not wait and took the lock |
| SummaryHandling.PromptCarriesEscapedDiff | src/serverActions/generateSummary.ts:145-169 | the model step writes nothing and records that its prompt was built from the escaped diff the call fetched. The diff reads back from the prompt and holds no "```" |
| SummaryHandling.SecondLockStartsNoRun | src/serverActions/generateSummary.ts:228-297 | a caller that does not wait, finds no row and loses the create to a row of another head SHA, then resets it and wins the second lock. It gets "generating" with its own start time, and runs no pipeline. The row is left generating at fetching_diff with no summary |
| SummaryHandling.LostCreate | src/serverActions/generateSummary.ts:101-242 | a call that finds no row and loses the lock and the create to an inserted row comes to the re-read with that row in the table |
| SummaryHandling.RelockWithoutWaiting | src/serverActions/generateSummary.ts:242-297 | after a re-read that finds another head SHA, a caller that does not wait resets the row, takes the second lock and is answered without a run |
| SummaryHandling.OrphanedLockStays | src/serverActions/generateSummary.ts:105-125 | such a row is never released: every later call for its head SHA gets "generating" with the stored start time and leaves the table as it was |
| SummaryHandling.RereadServesSavedRun | src/serverActions/generateSummary.ts:242-256 | a call that loses the create to a run which then saves is served that run's summary and diff by the re-read, and writes nothing itself |
| SummaryHandling.HandleKeepsOtherRows | src/serverActions/generateSummary.ts:73-79 | a call never changes the row of another pull request |
| SummaryHandling.ServedMatchesTable | src/serverActions/generateSummary.ts:105-111 | a ready answer agrees with the row left in the table: same summary, same diff, current head SHA |
| SummaryHandling.ServedSummaryIsCached | src/serverActions/generateSummary.ts:101-111 | after a non-empty ready answer, a later call for the same head SHA is served the same summary and writes nothing |
| SummaryHandling.EmptyResultIsNeverServed | src/serverActions/generateSummary.ts:105-304 | after a ready answer with an empty summary or diff, every later call for that head SHA gets "generating, fetching_diff" with no start time, and writes nothing |
| SummaryHandling.SecondCallerSeesTheRun | src/serverActions/generateSummary.ts:228-304 | while a dispatched run is going, a second call for the same head SHA gets its stage and start time and does not take the lock. Only a first caller that does not wait is stated: a waiting first caller has finished its run before it is answered |
| SummaryHandling.StaleRowIsReplaced | src/serverActions/generateSummary.ts:113-125 | a row of another head SHA is reset and locked again, whatever its status. A caller that does not wait gets fetching_diff with its own start time. A waiting caller leaves the pipeline's result row and gets its answer |
| SummaryHandling.FailedRunIsRetried | src/serverActions/generateSummary.ts:196-226 | a row left in error without a summary is locked again by the next call: a caller that does not wait gets "generating" and leaves the row generating; a caller that waits gets the table and answer of the pipeline run on the claimed row |
| SummaryHandling.PipelineAnswerMatchesRow | src/serverActions/generateSummary.ts:183-207 | the pipeline throws exactly when it leaves the row in error. The error write keeps the head SHA, diff and summary and clears the stage and start time. A ready result stores the answered summary and diff, clears the progress fields and stores the diff GitHub returned |
| SummaryHandling.StepKeepsRowsWellFormed | src/serverActions/generateSummary.ts:159-226 | every step keeps each row well-formed: a ready row has its diff and summary, and a generating row has its stage and start time |
| SummaryRaces.Next | src/serverActions/generateSummary.ts:70-318 | one scheduled step moves only the chosen call and keeps its request |
| SummaryRaces.Run | src/serverActions/generateSummary.ts:70-318 | a schedule keeps the set of calls |
| SummaryRaces.InitInv | src/serverActions/generateSummary.ts:70-99 | calls that have not started, on a row that is absent or carries their head SHA, satisfy the single-flight invariant |
| SummaryRaces.StepLocal | src/serverActions/generateSummary.ts:210-305 | a step that takes the lock finds the row unclaimed, and a step of a call without the lock writes nothing |
| SummaryRaces.Replace | src/serverActions/generateSummary.ts:210-305 | replacing one call's state and the row under those conditions keeps the invariant |
| SummaryRaces.NextInv | src/serverActions/generateSummary.ts:210-305 | every scheduled step keeps the invariant |
| SummaryRaces.RunInv | src/serverActions/generateSummary.ts:210-305 | every schedule keeps the invariant |
| SummaryRaces.SameShaSingleFlight | src/serverActions/generateSummary.ts:210-305 | for calls of one head SHA on a row that is absent or already carries it, any schedule leaves at most one call in the pipeline and at most one call succeeding, and never both one running and one succeeded |
| SummaryRaces.PollersSeeTheRun | src/serverActions/generateSummary.ts:159-181 | while a call is in the pipeline, the row is generating, without a summary, with that call's start time and current stage |
| SummaryRaces.StageNeverMovesBack | src/serverActions/generateSummary.ts:159-181 | while the row is generating, its stage moves only forward: fetching_diff, then prompting_model, then saving_result |
| SummaryRaces.SummaryStays | src/serverActions/generateSummary.ts:183-193 | once a run has saved its summary, the row keeps a summary under every later schedule |
| SummaryRaces.RunKeepsFinished | src/serverActions/generateSummary.ts:70-318 | a call that has finished takes no more steps |
| SummaryRaces.StaleRowAdmitsTwoRuns | src/serverActions/generateSummary.ts:113-125 | with two waiting calls for the same new head SHA on a stale row, one schedule puts both calls into the pipeline at once |
| SummaryRaces.BothReadStale | src/serverActions/generateSummary.ts:101-113 | in that schedule both calls first read the stale row |
| SummaryRaces.BothLock | src/serverActions/generateSummary.ts:113-226 | each call then resets the row and takes the lock with the first `updateMany`. The second reset makes the row idle again, so the second lock also succeeds |
| Decimal.NatToString | src/components/PRListItem.tsx:28-31 | a count is written as decimal digits, without leading zeros |
| Decimal.IntToString | src/components/PRHeader.tsx:39 | a negative count gets a minus sign |
| Decimal.ParseNatToString | src/components/PRListItem.tsx:28-31 | the digits read back as the count |
| Decimal.NatToStringInjective | src/components/PRListItem.tsx:28-31 | different counts are written differently |
| Words.Split | src/components/PRListItem.tsx:37 | `split(" ")` gives at least one piece, and no piece contains a space |
| Words.JoinSplit | src/components/PRListItem.tsx:37 | joining the pieces with spaces gives the name back |
| Words.SplitJoin | src/components/PRListItem.tsx:37 | splitting a join of space-free pieces gives the pieces back |
| Words.Upper | src/components/PRListItem.tsx:40 | `toUpperCase` maps each character on its own |
| Words.UpperChar | src/components/PRListItem.tsx:40 | it upper-cases an ASCII letter and leaves other characters alone |
| Words.Take | src/components/PRListItem.tsx:41 | `slice(0, n)` is the prefix of length at most n, and of exactly n when the text is long enough |
| PullRequestView.AuthorInitials | src/components/PRListItem.tsx:35-42 | the initials have at most two characters, none of them a lower-case ASCII letter |
| PullRequestView.InitialsAreWordStarts | src/components/PRListItem.tsx:35-42 | the initials are the first two word starts of the name, in order and upper-cased, and there are two unless the name has fewer words |
| PullRequestView.FirstsOfSplit | src/components/PRListItem.tsx:37-39 | the first characters of the pieces are the characters that start a word |
| PullRequestView.StateBadge | src/components/PRListItem.tsx:44-68 | Open exactly for "open"; Merged exactly for "closed" with `merged_at` set; Closed exactly for "closed" without it; no badge exactly for any other state |
| PRListItem.Buckets | src/components/PRListItem.tsx:19-33 | under a minute, including a future date, is "just now". Then come whole minutes 1-59, whole hours 1-23 and whole days 1-29, each counted by floor division. From 30 days on, the date is shown |
| PRListItem.TextNamesTheCount | src/components/PRListItem.tsx:28-31 | a count's text is the count's decimal digits followed by five characters of unit and " ago", and the count can be read back from those digits |
| PRListItem.OneDayText | src/components/PRListItem.tsx:30-31 | the special "1d ago" branch says what the general branch would |
| PRListItem.FloorBelow | src/components/PRListItem.tsx:23-31 | with floor division, a count below k means an elapsed time below k units, and a count of exactly 1 means between one and two units |
| PRHeader.DaysTextMeaning | src/components/PRHeader.tsx:31-40 | less than a day forward is "today"; any other number of days, negative for a future date, is "{d}d ago" |
| PRHeader.TodayIsNotACount | src/components/PRHeader.tsx:37-39 | "today" is never the text of a day count |
| PRHeader.OpenIgnoresMergedAt | src/components/PRHeader.tsx:53-61 | an open pull request shows Open, whatever `merged_at` holds |
| PRHeader.ClosedBadge | src/components/PRHeader.tsx:62-73 | a closed pull request shows Merged exactly when `merged_at` is set, and Closed otherwise |
| PRSidebar.Initial | src/components/PRSidebar.tsx:47-51 | all three sections start expanded |
| PRSidebar.Toggle | src/components/PRSidebar.tsx:53-58 | `toggleSection` negates the entry of the given section and keeps the other two |
| PRSidebar.ToggleTwice | src/components/PRSidebar.tsx:53-58 | toggling a section twice restores the record |
| PRSidebar.TogglesCommute | src/components/PRSidebar.tsx:53-58 | toggles of two sections can be made in either order |
| PRSidebar.Body | src/components/PRSidebar.tsx:42 | a section's body is shown exactly when its entry is true, and it is the section's children |
| PRSidebar.ChevronClass | src/components/PRSidebar.tsx:35-39 | the chevron is turned aside exactly while the section is collapsed |
| PRSidebar.Normalize | src/components/PRSidebar.tsx:111-114 | a bare string label becomes that name with colour "999999", and an object label passes through |
| PRSidebar.Badges | src/components/PRSidebar.tsx:109-126 | the section shows one normalised label per label, in order |
| PRSidebar.NormalizeIdempotent | src/components/PRSidebar.tsx:111-114 | normalising a normalised label changes nothing |
| DiffViewer.CalculateStats | src/components/DiffViewer.tsx:48-60 | the two counters are the number of "insert" lines and the number of "delete" lines, over the hunks of type "hunk" that have lines |
| DiffViewer.StatsBounded | src/components/DiffViewer.tsx:49-59 | additions plus deletions never exceed the lines of the counted hunks |
| DiffViewer.LinesBounded | src/components/DiffViewer.tsx:53-56 | the same holds within one hunk |
| DiffViewer.CountAppend | src/components/DiffViewer.tsx:51-58 | each hunk contributes to the counts on its own |
| DiffViewer.UncountedAddsNothing | src/components/DiffViewer.tsx:52 | a hunk of another type, or one without lines, contributes nothing |
| DiffViewer.FindIndex | src/components/DiffViewer.tsx:35-37 | the result is the first file whose new or old path is the one asked for, or -1 exactly when there is none |
| DiffViewer.TargetIndex | src/components/DiffViewer.tsx:30-38 | it is -1 without a non-empty `scrollToFile`, and otherwise that first match |
| DiffViewer.LinkPath | src/components/DiffViewer.tsx:66-67 | a deleted file links its old path, and any other file its new path |
| DiffViewer.OpenFiles | src/components/DiffViewer.tsx:81 | the target file starts open; any other file starts open exactly when it is not deleted |
| DiffViewer.DeletedFileOpensOnlyAsTarget | src/components/DiffViewer.tsx:76-81 | a deleted file starts open exactly when it is the file asked for |
| DiffViewer.HeadingOf | src/components/DiffViewer.tsx:89-98 | equal paths show one path. Otherwise the old path is shown, then "DELETED" for a deleted file and by the new path for any other |
| DiffViewer.DeletedLabel | src/components/DiffViewer.tsx:89-98 | when the paths differ, "DELETED" is shown exactly when the new path is "/dev/null" or is itself "DELETED" |

## Left out

- **The GitHub requests and the OpenRouter call.** The diff request and `generateText` are outcomes given with each call (`Env`): a diff or a failure, and a reply or a failure. The reply is given per call and does not depend on the prompt's text. Each call records the escaped diff its prompt was built from; `SummaryHandling.PromptCarriesEscapedDiff` states what that prompt carries.
- **The GitHub token and the pull-request request.** `$getGithubToken` (line 81), the pull-request request (lines 82-93) and their headers are not modelled. Only the head SHA that comes back is used, as part of the `Request`; a missing or empty SHA is `None` or `""`. A token lookup or a pull-request request that throws cannot be represented. Either would throw before the table is touched, as the missing-SHA case does.
- **`Date`, `toISOString` and `toLocaleDateString`.** Times are integer milliseconds. The ISO rendering of a start time is the time itself, and the locale date is an opaque text given to `PRListItem.FormatTimeAgo`.
- **Invalid dates.** `NaN` dates and floating-point milliseconds are not modelled; elapsed time is an integer.
- **Outside code.** `parseDiff` and the `getFullDiffUrl` builder are not part of this model. Parsed files are an input, and the builder is a flag in `DiffViewer.OffersFullDiff`.
- **React.** Rendering, hooks, `scrollIntoView`, navigation and the `Collapsible` component are left out; only the values the components compute are modelled.
- **The dispatched run's rejection.** When a run dispatched by `void runGeneration()` (line 309) fails, its `catch` marks the row as errored and rethrows (lines 196-206). Nothing catches that rejection. The model records the failure in the call's `failed` field and nothing else.
- **Real concurrency.** It is modelled as interleaving of atomic table calls. The fire-and-forget `void runGeneration()` is a pipeline that keeps taking steps after its caller has been answered; `dispatched` reports it.
- **Other callers.** Their writes are merged into the table; they never delete a row.
- **`update` on a deleted row.** Prisma throws when `update` finds no row. Rows are never deleted here, so the model's `update` on an absent row leaves the table unchanged.
- **The create error.** Any error from `create` is taken to be the duplicate-key error. Other database failures are not modelled.
- **`toUpperCase`.** Only ASCII letters are modelled. Characters are Dafny characters, not UTF-16 code units, so `n[0]` of a name that starts with a surrogate pair is not modelled.
- **The copied helpers.** `getAuthorInitials` in src/components/PRHeader.tsx:42-49 and src/components/PRSidebar.tsx:60-67, and `getStateBadge` in src/components/PRHeader.tsx:51-76, are textual copies of the helpers in src/components/PRListItem.tsx. They are modelled once, in `PullRequestView`.
- **Markdown and the table of contents.** MarkdownViewer.tsx, TableOfContents.tsx, the routes, authentication and the Convex files are not part of this model.
- **The model name and options.** The model identifier and the OpenRouter client configuration passed to `generateText` are ignored.
