# Oiajudge: a verified model

Oiajudge is the web judge of an informatics olympiad. It sits beside CMS, the contest
system that compiles and runs submissions: triggers in CMS's database put rows into an event queue,
a bridge reads the queue and hands each event to the judge, and the judge keeps its own
tables of submissions, task scores and user totals. This project models that chain and proves
what it promises, together with the repository's hardest algorithm, a search for the largest
useful square in an orchard, and five smaller pieces whose correctness takes an argument.

## How the project is laid out

| file | what it models |
|---|---|
| `Bridge.dfy` | the values exchanged between bridge and judge |
| `BestScores.dfy` | per-subtask maxima over a user's submissions |
| `LedgerTables.dfy`, `LedgerInWords.dfy`, `Ledger.dfy` | the judge's tables: what a handler attempt does, as functions, and the class that does it in a transaction |
| `LedgerInvariants.dfy`, `Confluence.dfy` | invariants over whole runs; independence of order, repetition and failures |
| `Scoring.dfy` | how a submission's result and a task's maximum are read out of CMS; the bound that ties them |
| `EventPipeline.dfy` | the road of an event as a machine of interleaved steps; safety over all schedules |
| `PipelineOrder.dfy` | calm runs: no panic, nothing lost, exactly-once delivery |
| `PipelineProgress.dfy` | without new rows the pipeline goes quiet within a bounded number of steps |
| `EndToEnd.dfy` | CMS, pipeline and judge together: the judge converges to what CMS holds |
| `PipelineLimits.dfy` | what the pipeline does not promise, and exactly when |
| `EventSource.dfy`, `CmsTriggers.dfy` | the code behind the machine's steps; the triggers that feed it |
| `SquareCounts.dfy`, `Greenhouse.dfy` | counting in rectangles; prefix sums, both binary searches and the scan |
| `Cooldown.dfy`, `Migrations.dfy`, `Tokens.dfy`, `Patterns.dfy`, `TokenReader.dfy` | submission cooldown, migration runner, access tokens, subtask patterns, tokenizer |
| `Strings.dfy`, `Sequences.dfy` | string order, sorting by name, splitting; lists without repetitions |

A method that changes state is proved to compute a function of the old state; what the program
promises is then proved about that function. Database failures of the judge's handlers, of a poll, of the
cooldown check and of the migration runner are inputs, so the theorems about these cover their error
paths and rollbacks.

## What the code does that its reader may not expect

These are properties of the program as written. Each is kept in the model, and where a
promise depends on it, a lemma says exactly when the promise holds.

- `handleSubmission` and `handleTask` have unnamed results, so the error of a failing COMMIT is stored
  too late to be returned: the handler returns nil and the consumer stops trying (`ConsumedTaskSavedIff`,
  `ConsumedSubmissionStoredIff`).
- The panic on an unknown task unwinds through a deferred close that sees no error and commits: the
  submission row stays, unscored (`SplitPollPanics`). `AttemptKeepsScoredIff` says exactly which attempts
  leave a submission without a score, and `AbsentTaskPanicsIff` when a missing task takes the server down.
- A poll's SELECT and UPDATE are separate statements, and the UPDATE has no condition beyond the table:
  rows committed in between are marked without being read, and are then lost for good
  (`PollLosesExactly`, `LostForever`). A COMMIT that takes effect but reports an error, and a server that
  ends while it pushes, lose rows too; nothing else does (`LostByStepIff`).
- A failed poll uses up its wakeup; unless another is waiting, unseen rows wait for the next insert or a
  restart (`FailedPollStrandsIff`).
- A new multiplier does not reach the scores already stored (`TaskEventKeepsScoresIff`).
- The subtask patterns go wrong in three ways, and `PatternRightIff` says exactly when they do not. The
  loader searches a name for its subtask, while a pattern is matched from the start: no pattern of subtask 1
  matches `xS1E` (`PrefixMisleads`). In the new format a pattern also matches names whose part after the
  first E holds its digit and then another E: `S1Ex2E` is matched for subtask 2 (`SecondEMisleads`). In the
  old format, of two spellings of a number only the one read last is matched (`SecondSpellingMisleads`).
- The upsert of a submission keeps the stored user and task but recalculates the score of the user and
  task in the event (`BasesNeedStableKeys`).
- A task whose description is JSON without a multiplier gets multiplier 0 (`Scoring.TaskMultiplier`).
- `frutales.cpp` reads one-based coordinates and prints a zero-based corner. When the first cell is a
  pine and there is no fruit it reports an empty square (`EmptyAnswerIff`).

## Model

| member | source | states |
|---|---|---|
| Greenhouse.Solve | testdata/tasks/frutales.cpp:19-99 | told by the two lists of coordinates: the printed square is on the board, every pine in it is replaced by fruit, the printed count is the number of distinct fruit coordinates in it, no other such square holds more, and one that holds as much has a later corner or is larger; side 0 only at a pine |
| Greenhouse.AnswerIsUnique | testdata/tasks/frutales.cpp:59-95 | a board has one answer only, so the contract of the scan leaves no freedom |
| Greenhouse.AnswerInPlainWords | testdata/tasks/frutales.cpp:97-99 | an answer lies on the board, contains no pine cell, holds exactly its count of fruit cells, and no square without a pine cell holds more |
| Greenhouse.EmptyAnswerIff | testdata/tasks/frutales.cpp:65-94 | side 0 is reported exactly when cell (0,0) is a pine and the board has no fruit |
| Greenhouse.ReadBoard | testdata/tasks/frutales.cpp:22-40 | a cell is fruit exactly when it is listed as fruit, a pine exactly when listed as a pine and not as fruit, and empty otherwise |
| Greenhouse.FruitIsListed | testdata/tasks/frutales.cpp:33-39 | the fruit counted in a square of the board is the number of distinct listed coordinates in it |
| Greenhouse.PinesAreListed | testdata/tasks/frutales.cpp:26-39 | a square of the board is free of pines exactly when each pine listed in it is also listed as fruit |
| Greenhouse.BuildTables | testdata/tasks/frutales.cpp:43-57 | both tables, filled in one pass, hold at every cell the count of their kind over the top-left rectangle |
| Greenhouse.EntryIsPrefix | testdata/tasks/frutales.cpp:46-56 | one assignment of the pass computes the prefix count from its three neighbours, edges included |
| Greenhouse.GetSqCounts | testdata/tasks/frutales.cpp:4-10 | four table reads give the direct count over the square for every side from 0 to min(x,y)+1, including reads off the edge |
| Greenhouse.TableArithmeticFitsInt32 | testdata/tasks/frutales.cpp:4-57 | below 2^30 cells no partial sum leaves the 32-bit range |
| Greenhouse.LargestPineFree | testdata/tasks/frutales.cpp:65-76 | the first search returns the largest pine-free side at a corner, within ceil(log2) of its gap iterations |
| Greenhouse.SmallestWithSameFruit | testdata/tasks/frutales.cpp:78-89 | the second search returns the smallest nonempty side with the same fruit, 0 only for side 0, within ceil(log2) of the side iterations |
| Greenhouse.LargestHoldsMost | testdata/tasks/frutales.cpp:78-79 | the largest pine-free square of a corner holds the most fruit of all pine-free squares there |
| Greenhouse.VisitCorner | testdata/tasks/frutales.cpp:64-95 | one turn of the scan extends the best-so-far claim by one corner |
| Greenhouse.Report | testdata/tasks/frutales.cpp:43-99 | what is printed about a board is its answer, shifted to the zero-based top-left cell |
| Greenhouse.Scan | testdata/tasks/frutales.cpp:43-95 | the scan over all corners ends with the board's answer |
| SquareCounts.SquareFromPrefixes | testdata/tasks/frutales.cpp:4-10 | inclusion and exclusion over rectangles anchored at the corner |
| SquareCounts.Monotone | testdata/tasks/frutales.cpp:71-84 | squares with a common corner are nested, so counts grow with the side |
| SquareCounts.PrefixRecurrence | testdata/tasks/frutales.cpp:46-56 | the recurrence of prefix counts |
| Bisection.CeilLog2IsLeast | testdata/tasks/frutales.cpp:69-88 | the iteration bound is the least k with g <= 2^k |
| Bisection.HalvingStep | testdata/tasks/frutales.cpp:70-75 | whichever half a search keeps, one unit of the bound is used |
| BestScores.PerSubtaskBest | oiajudge/pkg/oiajudge/updater.go:17-25 | the loop yields, per position, the maximum over the rows that reach it, floored at 0, and is as long as the longest row |
| BestScores.Sum | oiajudge/pkg/oiajudge/updater.go:26-29 | the base score is the sum over positions |
| BestScores.SumAddsUp | oiajudge/pkg/oiajudge/updater.go:26-29 | that sum is reached by adding one element after the other, and `TotalIsUnique` says that nothing else is |
| BestScores.OrderIrrelevant | oiajudge/pkg/oiajudge/store.go:162-181 | every permutation of the rows gives the same maxima |
| BestScores.BaseAtLeastEach | oiajudge/pkg/oiajudge/updater.go:17-29 | the base score is at least any one submission's total |
| BestScores.BaseWithin | oiajudge/pkg/oiajudge/updater.go:17-29 | with at most n entries a row, each at most m, the base score is between 0 and n times m |
| Ledger.Ledger.Close | oiajudge/pkg/store/store.go:65-83 | commit or rollback; a failed commit keeps the old tables and reports an error |
| Ledger.Ledger.CreateUser | oiajudge/pkg/oiajudge/store.go:19-27 | a new account has score 0; a taken id, email or username is refused |
| Ledger.Ledger.CreateSubmission | oiajudge/pkg/oiajudge/store.go:124-160 | delete, insert under the foreign key, or update that keeps user and task; the stored row holds the score of each subtask |
| Ledger.Ledger.GetAllScores | oiajudge/pkg/oiajudge/store.go:162-181 | the subtask rows of exactly the user's submissions to the task, in any order |
| Ledger.Ledger.SaveUserScore | oiajudge/pkg/oiajudge/store.go:183-203 | fails when the multiplier cannot be read, panics exactly on an unknown task; otherwise stores base score and scaled score and returns the latter |
| Ledger.Ledger.GetUserTaskScore | oiajudge/pkg/oiajudge/store.go:205-216 | the stored score, 0 without a row |
| Ledger.Ledger.IncrementUserScore | oiajudge/pkg/oiajudge/store.go:218-224 | moves one user's total and nothing else |
| Ledger.Ledger.SaveTask | oiajudge/pkg/oiajudge/store.go:226-244 | inserts or replaces the task and touches no score |
| Ledger.Ledger.RecalculateUserScoreForTask | oiajudge/pkg/oiajudge/updater.go:12-43 | stores the base score of the stored submissions and moves the total by the change |
| Ledger.Ledger.HandleSubmission | oiajudge/pkg/oiajudge/updater.go:45-64 | whichever statement fails: unchanged tables and an error, or the submission stored and rescored, or the panic with the row committed, or nil after a failed commit |
| Ledger.Ledger.HandleTask | oiajudge/pkg/oiajudge/updater.go:66-81 | saves the task or leaves the tables alone; nil also after a failed commit |
| Ledger.Ledger.HandleEvent | oiajudge/pkg/oiajudge/updater.go:83-93 | dispatch on the event type; unknown types do nothing and succeed |
| LedgerInWords.StoredInWords | oiajudge/pkg/oiajudge/store.go:124-160 | the row holds what was read and the score of each subtask of the result; a stored submission keeps its user and task; no other row changes |
| LedgerInWords.RefusedInWords | oiajudge/pkg/oiajudge/store.go:124-160 | a row is refused exactly when it is new and its user unknown |
| LedgerInWords.RescoredInWords | oiajudge/pkg/oiajudge/updater.go:12-43 | the base score is the sum of the best points per subtask over the stored rows, the score is that times the multiplier, the user's total moves by the change, and nothing else does |
| LedgerInWords.AttemptInWords | oiajudge/pkg/oiajudge/updater.go:45-64 | how an attempt ends and what it leaves, for every combination of failing statements |
| LedgerInWords.TaskInWords | oiajudge/pkg/oiajudge/updater.go:66-81 | a task is saved as it was read and no other row changes, or nothing changes |
| LedgerInWords.FirstSubmission | oiajudge/pkg/oiajudge/updater.go:12-64 | a user's first submission to a task scores, and adds to the user's total, the sum of its subtasks' points times the task's multiplier |
| LedgerInvariants.UserTotalAfterWrite | oiajudge/pkg/oiajudge/updater.go:30-41 | writing one score row changes its user's from-scratch total by the difference and no other total |
| LedgerInvariants.StepKeepsTotals | oiajudge/pkg/oiajudge/updater.go:12-64 | every attempt, failing or panicking, and every new account keeps totals equal to sums |
| LedgerInvariants.TotalsOverRuns | oiajudge/pkg/oiajudge/updater.go:30-41 | in every reachable state each user's score is the sum of that user's task scores |
| LedgerInvariants.SubmissionKeepsBases | oiajudge/pkg/oiajudge/updater.go:13-37 | storing and scoring a submission under its own key keeps every base score right |
| LedgerInvariants.BasesOverRuns | oiajudge/pkg/oiajudge/updater.go:13-37 | in every reachable state each base score is recomputable from the stored submissions, while ids keep their user and task |
| LedgerInvariants.BasesNeedStableKeys | oiajudge/pkg/oiajudge/store.go:149-155 | an event for a stored submission keeps base scores right for every result exactly when it names the stored user and task |
| LedgerInvariants.ScoresOverRuns | oiajudge/pkg/oiajudge/store.go:183-203 | while each task keeps its multiplier, in every reachable state each score is its base score times that multiplier |
| LedgerInvariants.TaskEventKeepsScoresIff | oiajudge/pkg/oiajudge/store.go:226-244 | a task event leaves stored scores in line with the tasks' multipliers exactly when it has no effect, keeps the multiplier, or every base score of the task is 0 |
| Confluence.SettledIsDetermined | oiajudge/pkg/oiajudge/updater.go:12-43 | a settled state is a function of accounts, tasks and stored submissions |
| Confluence.AttemptKeepsSettled | oiajudge/pkg/oiajudge/updater.go:12-64 | such an attempt keeps the state settled and replaces at most one snapshot |
| Confluence.AttemptKeepsScoredIff | oiajudge/pkg/oiajudge/updater.go:45-64 | an attempt leaves every stored submission scored exactly when its task is saved, its row is refused, a statement up to the multiplier fails, or the COMMIT fails |
| Confluence.Confluent | oiajudge/pkg/oiajudge/updater.go:12-64 | sequences of attempts with the same last snapshots give identical tables, whatever their order, repetitions and failures |
| Confluence.ConfluentFromStart | oiajudge/pkg/oiajudge/updater.go:12-64 | from accounts and tasks alone, two histories with the same last snapshots end in the same tables, which store exactly those snapshots |
| Confluence.ReplayChangesNothing | oiajudge/pkg/oiajudge/store.go:149-155 | an event with the snapshot already stored changes nothing |
| Scoring.ResultBuilder.FillTestcaseResults | oiajudge/pkg/cmsbridge/submission.go:162-209 | the evaluations as testcases sorted by codename, unreadable outcomes as 0; a row that cannot be scanned leaves the unsorted prefix |
| Scoring.ResultBuilder.FillSum | oiajudge/pkg/cmsbridge/submission.go:109-129 | one subtask per testcase, which earns its outcome times the multiplier; totals over the list |
| Scoring.ResultBuilder.FillGrouped | oiajudge/pkg/cmsbridge/submission.go:131-160 | one subtask per group, which earns its fraction of its maximum; totals over the list |
| Scoring.TotalsAddUp | oiajudge/pkg/cmsbridge/submission.go:126-154 | score and maximum add up those of the subtasks |
| Scoring.GroupedWithin | oiajudge/pkg/cmsbridge/submission.go:131-160 | fractions in [0,1] of nonnegative maxima keep the score within the maximum, which is reached exactly when every group with points has fraction 1 |
| Scoring.TestcaseInWords | oiajudge/pkg/cmsbridge/submission.go:162-209 | a testcase's name, points out of 1 and message, for each kind of outcome |
| Scoring.RowOrderIrrelevant | oiajudge/pkg/cmsbridge/submission.go:204-207 | for distinct codenames the subtask list does not depend on the order of the evaluations |
| Strings.SortIsUnique | oiajudge/pkg/cmsbridge/submission.go:204-207 | distinct names have one sorted arrangement |
| Strings.LessIff | oiajudge/pkg/cmsbridge/submission.go:204-207 | in the order of names the first difference decides, the smaller character or the shorter name first |
| Scoring.GetSubmission | oiajudge/pkg/cmsbridge/submission.go:20-103 | status and message from the nullable columns, a result exactly when scored; each subtask earns its testcase's outcome times the multiplier, or its group's fraction of its maximum, and the totals add these up; testcases sorted or, when a row cannot be scanned, the unsorted prefix; a missing row is both deleted and an error |
| Scoring.MaxScore | oiajudge/pkg/cmsbridge/task.go:48-79 | multiplier times cases, or the sum of the groups' points exactly when every group starts with a number; a panic exactly when the first group that cannot be read is empty, an error otherwise |
| Scoring.GetTask | oiajudge/pkg/cmsbridge/task.go:19-79 | a task whose maximum is the multiplier times the cases or the sum of the points the groups start with, and the multiplier of its description: 1 for text, 0 for JSON without one; or an error or, exactly when the first unreadable group is empty, a panic |
| ScoreBound.BuiltRowIsSumRow | oiajudge/pkg/cmsbridge/submission.go:114-127 | at most one evaluation per testcase, each in [0,1], gives a row of at most that many entries within [0, multiplier] |
| ScoreBound.GetSumSubmission | oiajudge/pkg/cmsbridge/submission.go:20-103 | what is read for a "Sum" task from at most one evaluation per testcase, each in [0,1], meets the premise of the bounds over runs |
| ScoreBound.SavedScoreWithinMaximum | oiajudge/pkg/oiajudge/store.go:183-203 | the score saved by an attempt is between 0 and the task's multiplier times its maximum when the stored rows are those of a "Sum" task |
| ScoreBound.SavedScoreOverRuns | oiajudge/pkg/oiajudge/store.go:183-203 | after any run whose results were read from evaluations in [0,1], at most one per testcase, an attempt that takes effect saves a score between 0 and the maximum times the multiplier of now |
| ScoreBound.ScoresWithinOverRuns | oiajudge/pkg/oiajudge/store.go:183-203 | with fixed multipliers every score stored over such a run keeps to that bound |
| ScoreBound.FirstSumSubmission | oiajudge/pkg/oiajudge/updater.go:12-64 | a user's first submission to a "Sum" task scores the sum of the outcomes times the points of a testcase times the task's multiplier |
| ScoreBound.BasesWithinOverRuns | oiajudge/pkg/cmsbridge/task.go:49-61 | over whole runs every base score of a "Sum" task is between 0 and the task's maximum |
| PipelineSafety.PushedAtMostOnce | oiajudge/pkg/cmsbridge/store.go:52-105 | no queue row is handed to the consumer twice, over poll failures, lost commits, interleaved inserts, crashes and restarts |
| PipelineSafety.OneEffectPerRow | oiajudge/pkg/cmsbridge/impl.go:38-49 | at most one attempt per queue row changes the judge's tables, over the row's whole life |
| PipelineSafety.LedgerFollowsTrace | oiajudge/pkg/cmsbridge/impl.go:28-57 | the tables behind the pipeline are those of the handler attempts and sign-ups of the schedule |
| PipelineSafety.TotalsBehindPipeline | oiajudge/pkg/oiajudge/updater.go:30-41 | user totals equal sums in every state the whole system can reach |
| PipelineSafety.BasesBehindPipeline | oiajudge/pkg/oiajudge/updater.go:13-37 | base scores are the best results per subtask, summed, in every state the whole system can reach while submissions keep user and task |
| PipelineSafety.ScoresBehindPipeline | oiajudge/pkg/oiajudge/store.go:183-203 | scores are base scores times multipliers in every state the whole system can reach while multipliers are fixed |
| PipelineSafety.SortKeepsEvents | oiajudge/pkg/cmsbridge/store.go:89-95 | a priority sort neither drops, adds nor duplicates events |
| PipelineOrder.SortedIsOrdered | oiajudge/pkg/cmsbridge/store.go:87-95 | after the sort each submission of a batch has its task saved, on its way, or ahead of it in the batch |
| PipelineOrder.NoPanicInCalm | oiajudge/pkg/oiajudge/store.go:187-190 | a submission at the head of the line finds its task saved |
| PipelineOrder.StepKeepsCalm | oiajudge/pkg/cmsbridge/impl.go:28-57 | every step of a calm run keeps tasks ahead of their submissions |
| PipelineOrder.CalmRunsNeverPanic | oiajudge/pkg/oiajudge/store.go:187-190 | calm runs never reach the unknown-task panic |
| PipelineOrder.CalmRunsConserve | oiajudge/pkg/cmsbridge/store.go:78-115 | no row is lost in a calm run, and unseen rows have a wakeup or a poll coming exactly when no poll since the last insert failed without a further wakeup |
| PipelineOrder.DeliveredExactlyOnce | oiajudge/pkg/cmsbridge/store.go:78-115 | when a calm run has gone quiet no row was handed over twice, and every row ever committed was handed over exactly when no poll since the last insert failed without a further wakeup |
| PipelineProgress.OwnStepWorks | oiajudge/pkg/cmsbridge/impl.go:28-57 | every step the server takes by itself and survives lowers a measure of the work left |
| PipelineProgress.QuietIff | oiajudge/pkg/cmsbridge/store.go:78-115 | a server can take no step by itself exactly when it is quiet, so it never gets stuck |
| PipelineProgress.OwnRunsEnd | oiajudge/pkg/cmsbridge/store.go:78-115 | without new rows the server takes at most as many steps as it has work |
| EndToEnd.QuietMeansConsistent | oiajudge/pkg/oiajudge/updater.go:12-64 | whenever a faithful run of CMS, pipeline and judge has gone quiet, with no poll left stranded, the judge stores exactly CMS's submissions in their latest state; the scores are, for exactly the users and tasks with submissions, the best CMS results per subtask summed and times the task's multiplier; and each user's total is the sum of these |
| EndToEnd.Converges | oiajudge/pkg/cmsbridge/impl.go:28-57 | once CMS pauses, the server takes at most a number of steps fixed by its state; when it can take no more, with no poll left stranded, its tables are those of CMS |
| EndToEnd.StepKeepsJoint | oiajudge/pkg/cmsbridge/impl.go:28-57 | every step keeps each CMS submission current in the judge or on its way there, and what an attempt has read current or followed by another event, although CMS may commit between the read and the store |
| EndToEnd.TryStores | oiajudge/pkg/oiajudge/updater.go:45-64 | a submission's last attempt stores the snapshot it read; every other attempt leaves stored submissions alone |
| EndToEnd.CommitPollOnTheRoad | oiajudge/pkg/cmsbridge/store.go:52-105 | a committed poll moves the rows it marked to the channel and leaves the others unseen |
| PipelineLimits.LostByStepIff | oiajudge/pkg/cmsbridge/store.go:52-105 | a step loses a row exactly when it is a committing poll that marks it unread, a COMMIT that takes effect and reports an error, or the end of a server with the row in its batch |
| PipelineLimits.LostInRunIff | oiajudge/pkg/cmsbridge/store.go:52-105 | over any schedule a row is lost exactly when one of the steps lost it in that way |
| PipelineLimits.LostForever | oiajudge/pkg/cmsbridge/store.go:52-70 | a row marked without being read stays lost, restarts included |
| PipelineLimits.PollLosesExactly | oiajudge/pkg/cmsbridge/store.go:53-65 | whatever steps are interleaved with a poll that commits, the rows it loses are exactly those committed between its SELECT and its UPDATE |
| PipelineLimits.LostCommitLosesExactly | oiajudge/pkg/cmsbridge/store.go:97-105 | a poll whose COMMIT takes effect but reports an error loses those rows and all it had read |
| PipelineLimits.SplitPollLosesExactly | oiajudge/pkg/cmsbridge/store.go:53-65 | with one transaction in the gap and nothing else, exactly that transaction's rows are lost |
| PipelineLimits.AbsentTaskPanicsIff | oiajudge/pkg/oiajudge/store.go:187-190 | once no event is left that would save a task, an attempt at a submission of it, however much later, takes the server down exactly when it reaches the multiplier without a failure |
| PipelineLimits.SplitPollPanics | oiajudge/pkg/oiajudge/store.go:187-190 | a concrete fault-free schedule in which a lost task row leads to the panic |
| PipelineLimits.FailedPollStrands | oiajudge/pkg/cmsbridge/store.go:97-113 | after a poll fails with no further wakeup nothing is read or handed over in any schedule without a new row or a new start |
| PipelineLimits.FailedPollStrandsIff | oiajudge/pkg/cmsbridge/store.go:97-113 | a failed poll leaves unseen rows unseen in all such schedules exactly when there was no further wakeup, or no row |
| EventSource.EventQueue.SelectUnseen | oiajudge/pkg/cmsbridge/store.go:53-64 | the unseen rows, each once |
| EventSource.EventQueue.GetNotifications | oiajudge/pkg/cmsbridge/store.go:52-70 | reads the unseen rows and marks every row, or fails with the queue as it was |
| EventSource.EventQueue.PollOnce | oiajudge/pkg/cmsbridge/store.go:78-105 | an uninterrupted poll pushes every unseen row once, with its object and type, submissions last, after committing that every row is seen; or pushes nothing and marks nothing; it is the SELECT, UPDATE and COMMIT steps of the machine, or its failing poll |
| EventSource.SortByPriority | oiajudge/pkg/cmsbridge/store.go:89-95 | a permutation with tasks before submissions |
| EventSource.Consumer.Consume | oiajudge/pkg/cmsbridge/impl.go:28-57 | at most ten attempts: all but the last fail without a trace, the last leaves what it leaves, and only a tenth may fail; then the row is deleted unless that fails |
| EventSource.OneAttemptCounts | oiajudge/pkg/cmsbridge/impl.go:38-49 | failed attempts leave no trace and only the last attempt can have an effect |
| EventSource.ConsumedTaskSavedIff | oiajudge/pkg/oiajudge/updater.go:66-81 | attempts at a new task leave it saved exactly when COMMIT works in the first of them that fetches the task and meets no failure before COMMIT |
| EventSource.ConsumedSubmissionStoredIff | oiajudge/pkg/oiajudge/updater.go:45-64 | attempts at a submission of a known user and task leave its new snapshot stored exactly when COMMIT works in the first of them that reads it and meets no failure before COMMIT |
| EventSource.RetryIsTries | oiajudge/pkg/cmsbridge/impl.go:38-49 | the attempt loop is a run of attempt steps of the machine |
| CmsTriggers.NoticesCoverTasks | oiajudge/pkg/cmsbridge/migrations/001.sql:18-79 | in a transaction that respects CMS's foreign keys, each submission notice is for a task known before or noticed too |
| CmsTriggers.NoticesAreWrites | oiajudge/pkg/cmsbridge/migrations/001.sql:18-79 | the triggers notice exactly the tasks, submissions and results that were written |
| CmsTriggers.CommitAnnouncesTasks | oiajudge/pkg/cmsbridge/migrations/001.sql:10-79 | the triggers announce no submission before its task, which is the premise of calm runs about inserts |
| CmsTriggers.PermittedRunsAreCalm | oiajudge/pkg/cmsbridge/migrations/001.sql:10-79 | over whole runs from the migration on, CMS's transactions with their triggers meet what calm runs ask of inserts |
| CmsTriggers.PermittedRunsNeverPanic | oiajudge/pkg/cmsbridge/migrations/001.sql:10-79 | so behind them the judge never meets an unknown task |
| Cooldown.Account.CanUserSubmit | oiajudge/pkg/oiajudge/api.go:41-64 | accepts exactly when nothing fails and the stored time plus the cooldown is not after now; stores the time in milliseconds only then |
| Cooldown.Account.MakeSubmission | oiajudge/pkg/oiajudge/api.go:29-39 | fails exactly when a statement fails, the request is too soon or CMS refuses it; a request that CMS refuses after the check still uses up the cooldown |
| Cooldown.AcceptedSpan | oiajudge/pkg/oiajudge/api.go:48-62 | n accepted requests span at least (n-1)(C-999999) nanoseconds |
| Cooldown.SpanIsTight | oiajudge/pkg/oiajudge/store.go:105-122 | that bound is attained for every n when C ends just short of a whole millisecond |
| Cooldown.AcceptedSpanWhole | oiajudge/pkg/oiajudge/sever.go:252 | for C of whole milliseconds, as configured, they span at least (n-1)C-999999 nanoseconds: the loss does not add up |
| Cooldown.SuccessSpan | oiajudge/pkg/oiajudge/api.go:29-39 | n requests answered without an error, whatever others are refused in between, span at least (n-1)(C-999999) nanoseconds |
| Cooldown.NoMonotoneClockNeededIff | oiajudge/pkg/oiajudge/api.go:48-62 | accepted times increase whatever the clock does exactly when C is at least a millisecond |
| Migrations.Database.MakeClientWithInitScript | oiajudge/pkg/store/store.go:136-183 | a start runs the missing versions in order, all or nothing, and fails exactly when its begin, its commit, a lookup in the version table or another of its statements does |
| Migrations.UpgradeInWords | oiajudge/pkg/store/store.go:148-180 | a successful start records exactly the missing versions, sorted by name, and runs their scripts, cut at ";;" |
| Migrations.CommittedAtMostOnce | oiajudge/pkg/store/store.go:158-180 | over any starts each version is committed at most once and the version table is the committed set |
| Migrations.StagedOrderIff | oiajudge/pkg/store/store.go:148-154 | an upgrade runs versions in the order of a fresh install exactly when the new versions sort after the old |
| Migrations.StagedUpgrades | oiajudge/pkg/store/store.go:148-180 | over releases that extend each other, any history of starts leaves the database of one fresh install |
| Strings.SplitJoins | oiajudge/pkg/store/store.go:164 | splitting a script loses nothing |
| Strings.PartsAreClean | oiajudge/pkg/store/store.go:164 | no part holds the separator |
| Tokens.TokenRoundTrip | oiajudge/pkg/oiajudge/store.go:42-74 | a printed token splits and decodes to its id and bytes, for every 64-bit id and every byte string |
| Tokens.MintedTokenPassesIff | oiajudge/pkg/oiajudge/store.go:56-89 | a minted token passes for a user exactly while its row exists, is that user's and holds the secret |
| Tokens.MintIsInjective | oiajudge/pkg/oiajudge/store.go:42 | different rows or secrets never print the same token |
| Tokens.TokenTable.CreateUserToken | oiajudge/pkg/oiajudge/store.go:29-44 | inserts the row and returns a token that its user can use |
| Tokens.TokenTable.CheckUserToken | oiajudge/pkg/oiajudge/store.go:56-89 | malformed exactly when there are not two parts or one cannot be decoded, unknown exactly when no row has the id for the user, forbidden exactly when the secret differs, valid otherwise |
| Base64.RoundTrip | oiajudge/pkg/oiajudge/store.go:42-71 | decoding an encoding of section 4 of RFC 4648 gives back every byte string |
| Base64.DecodableIff | oiajudge/pkg/oiajudge/store.go:71 | what can be decoded: groups of four, at most two padding characters, all at the end |
| Base64.AlphabetOfTheRfc | oiajudge/pkg/oiajudge/store.go:42 | the alphabet of table 1 of RFC 4648 |
| Base64.FullGroupIsNumber | oiajudge/pkg/oiajudge/store.go:42 | the digits of three bytes spell their 24-bit number |
| Base64.ShortGroupsAreNumbers | oiajudge/pkg/oiajudge/store.go:42 | shorter groups are filled up with zero bits and padding |
| Decimal.RoundTrip | oiajudge/pkg/oiajudge/store.go:42-67 | every 64-bit id is read back as printed, and holds no colon |
| Decimal.TooLarge | oiajudge/pkg/oiajudge/store.go:67 | a number is read exactly when it fits 64 bits |
| Strings.SplitAtOnly | oiajudge/pkg/oiajudge/store.go:57-66 | a colon between two strings without one splits them apart |
| Patterns.FindSubtasks | cms/argentina_loader.py:301-308 | the subtask numbers named by the testcases, with a spelling each; fails exactly when a name has none |
| Patterns.DetectFormat | cms/argentina_loader.py:281-284 | the old format is chosen exactly when some name matches S, 0, a digit from 1 to 9, E and anything |
| Patterns.ScoreParameters | cms/argentina_loader.py:280-332 | parameters given in the configuration as they are; otherwise one for each subtask that some name has, with its configured score and its pattern, or the exception, exactly when a name has no subtask, there are no scores, or a named subtask lacks a score or depends on one that no name has |
| Patterns.OldStyleIff | cms/argentina_loader.py:283 | the test for the old format is that match |
| Patterns.ZeroPadded | cms/argentina_loader.py:280-331 | S01E1 alone means the old format and one subtask 1 with the pattern S(01)E.* |
| Patterns.NamesInWords | cms/argentina_loader.py:301-308 | the subtasks of a name: each digit of its first match in the new format, the whole number in the old |
| Patterns.NewPatternOnAnyName | cms/argentina_loader.py:317-319 | a new-format pattern matches exactly the names that start with S and hold its digit and later an E, both on the first line |
| Patterns.OldPatternOnAnyName | cms/argentina_loader.py:323-331 | an old-format pattern matches exactly the names that start with S, one of its alternatives and E |
| Patterns.AllPatternOnAnyName | cms/argentina_loader.py:326-327 | the pattern for "all" matches exactly the names that start with S and hold an E on the first line |
| Patterns.HasPartsIff | cms/argentina_loader.py:303 | the names the loader accepts are those that split into a prefix, S, the digits of the first match, E and a rest |
| Patterns.NewPatternIff | cms/argentina_loader.py:317-319 | on these, a new-format pattern matches when the match is at the start and holds its digit, or when the digit and then an E stray elsewhere |
| Patterns.NewPatternFindsIff | cms/argentina_loader.py:317-319 | it finds a name of its digit exactly when it gets from the start to the match, or to the digit and an E before |
| Patterns.AllPatternIff | cms/argentina_loader.py:326-327 | the pattern for "all" matches exactly when it gets from the start to the match, or to an E before |
| Patterns.OldPatternIff | cms/argentina_loader.py:323-331 | an old-format pattern matches exactly the names that start with their match and whose digits are one of its alternatives |
| Patterns.PatternMeaning | cms/argentina_loader.py:301-331 | what the emitted pattern of a subtask matches, for every name the loader accepts: which of the testcases that count for it, and which others |
| Patterns.PatternRightIff | cms/argentina_loader.py:301-331 | exactly when a pattern is right about a testcase, by a condition on the parts of its name, in either format and for every name the loader accepts |
| Patterns.AllSpelledAsStoredIff | cms/argentina_loader.py:301-308 | every testcase's number is spelled as stored exactly when no number is spelled in two ways |
| Patterns.SecondSpellingMisleads | cms/argentina_loader.py:301-331 | with S01E and S1E, both of subtask 1, its pattern misses S01E |
| Patterns.SecondEMisleads | cms/argentina_loader.py:317-319 | S1Ex2E is a testcase of subtask 1 alone, and the pattern of subtask 2 matches it |
| Patterns.PrefixMisleads | cms/argentina_loader.py:303-331 | xS1E is a testcase of subtask 1 that none of its patterns matches |
| TokenReader.Grader.ReadToken | testdata/tasks/envido/graders/grader.java:10-23 | returns the first remaining token and leaves the others, or fails at the end of the input |
| TokenReader.Grader.ReadTokens | testdata/tasks/envido/graders/grader.java:25-40 | successive calls return the tokens in order |
| TokenReader.TokensAreRuns | testdata/tasks/envido/graders/grader.java:10-23 | the tokens of a line are exactly its maximal runs of non-blanks, in order |

## Left out

- Floating point: scores are 64-bit floats stored in REAL columns; the model uses real numbers, so rounding is not covered.
- HTTP routing, request decoding, password hashing, logging, file and large-object storage, Docker, CMS itself and the Python service scripts.
- A connection that cannot be acquired (the code then dereferences a nil transaction) and rows that stop arriving in the middle of a result without an error; a read either fails or is complete.
- Several servers at once and concurrent cooldown requests of one user: the code takes no row lock and the outcome depends on the database.
- The listener goroutine: wakeups are counted, and a listener that dies is covered only by a crash of the whole server.
- Recomputing stored scores after a multiplier change: the program does not do it, so `ScoresOverRuns` and `QuietMeansConsistent` fix the multipliers, and `TaskEventKeepsScoresIff` says exactly which task events keep scores in line.
- EndToEnd.QuietMeansConsistent: assumes calm runs, fixed multipliers, and that each event succeeds within its ten attempts with a COMMIT that works. When single events take effect is said by `ConsumedTaskSavedIff` and `ConsumedSubmissionStoredIff`, and what happens outside calm runs by `PipelineLimits`.
- Reading a submission from CMS is one step; that its queries see one state of the database is assumed.
- Changes that no trigger announces: end to end, what CMS holds about a submission is assumed to change only together with a queue row. Evaluations, testcases and datasets have no trigger, and no deletion fires one, so a change to these alone, or a deletion, reaches the judge only with the next row for the submission.
- Multiple datasets of one task: the program takes whichever row comes first; the model is given one.
- Attachments, statements, languages and timestamps: copied without logic.
- Ledger.Ledger.CreateSubmission: a deletion is modelled, but the bridge never reports one without an error, so the invariants on base scores assume none arrives.
- Regular expressions beyond literals, `.*` and one group of literal alternatives; that CMS matches from the start of a name is taken from CMS.
- Cooldown.Account.CanUserSubmit: clock overflow of 64-bit nanoseconds is not modelled.
- Scheduling: the theorems bound how many steps the server can take; that it takes those it can is left to the runtime.
- Greenhouse.Solve: boards without a row or column are not covered, because the program then prints uninitialised variables; coordinates are assumed to lie on the board, as the program does not check them.
- Migrations.Database.MakeClientWithInitScript: the SQL inside a script is not interpreted; a statement either fails or is recorded as run.
- envido.cpp, flag parsing and the converter: finite or easy cases.
