# NEX Studio service layer: a verified model

NEX Studio drives AI coding agents: it keeps terminals to them open, dispatches their work, deploys what they build,
accounts for what they cost, and keeps the plans, tickets and documents around all that. This project models the
parts of that service layer where state, order or text handling is subtle, and proves what they promise for every
input, every run and every interleaving.

| file | what it models |
|---|---|
| `TerminalLog.dfy` | the size-capped disk log of an agent terminal, with its rotation and replay |
| `TerminalFanout.dfy` | one reader task feeding the log and many bounded listener queues |
| `TerminalSessions.dfy` | session rows, live runtimes and processes across crashes and backend restarts |
| `DeployLedger.dfy` | the per-customer deploy log, its acceptance gate, and graduation to v1.0.0 |
| `DispatchRunner.dfy` | single-flight scheduling with late callbacks, and one bounded dispatch run |
| `Usage.dfy`, `Metrics.dfy` | token usage roll-ups and the agent-versus-human cost built on them |
| `TicketPage.dfy`, `TicketRecheck.dfy`, `TicketBlocks.dfy`, `TicketMeasure.dfy`, `TicketPlaceholder.dfy`, `TicketRead.dfy` | rendering a ticket with its measurement, and reading it back |
| `Chunker.dfy` | the markdown chunker of the retrieval index |
| `TaskTree.dfy` | task, feat and epic statuses, and the walk over the plan |
| `LiveDocument.dfy` | the deduplicating append to a live document |
| `SettingsCache.dfy` | system settings behind a cache with a time to live |
| `TokenEpochs.dfy` | token versions that end sessions |
| `Ports.dfy` | the two port allocators |
| `Prelude.dfy`, `Text.dfy` | shared values, and Python's string functions |

## How it is built

Where the source changes objects in place, a class holds the same fields and its methods are proved against a function
of the old state; where it computes, there are functions; loops are loops. Concurrency is modelled as a machine whose
steps are the stretches of code between two suspension points of the event loop, so a statement about every run is a
statement about every interleaving. Class methods and machine steps share the functions that say what a step does.

Times are numbers passed in. Database rows are maps, queries are functions of them. Everything foreign (the PTY, the
deploy runner, the orchestrator, the commands a measurement runs, password hashing) is an arbitrary value or an
arbitrary outcome. Money, seconds and averages are `real`; rounding is not modelled. Tokens are counted with unbounded
integers, as Python does.

## What came out

- The terminal log stays within its limit after every append exactly when the marker is no longer than the part of
  the limit that is not kept. The marker that is written names the limit and always fits for limits of 256 bytes or
  more. No rotation ever leaves an old marker inside the data.
- `attach` says in a comment that a viewer may see duplicate bytes. In the code there is no suspension point between
  reading the log and registering the queue, so there are none, and the model follows the code.
- The acceptance gate holds even when deploys overlap while their runners work and versions are created meanwhile.
- Labels of successful events resolve to a version row throughout a run exactly when every successful record that
  graduates nothing still finds its label among the project's versions. Only a UAT deploy can miss it: one that is
  still running during a graduation records the old label afterwards, and a concrete run shows it. Deploys one at a
  time never do.
- However deploys overlap, a project has one version row that graduates, and it is renamed once. That row may graduate
  twice, as two first PROD deploys at the same time show: a project graduates at most once, and never after an ok PROD
  deploy, exactly when every graduation still finds no PROD deploy of the project at the moment it is recorded.
- A process outlives its session exactly when its reader gave up before it, or the signal that should have killed it
  after the grace period failed, and it has not stopped since.
- A ticket's measurement comes back unchanged exactly when the command is one line, the output is at most 4000
  characters, and no later line of it starts with a code fence. Under the same condition on the output, re-running the
  command with the same result is never reported as a change; otherwise it always is.
- The placeholder that stands for a fenced block while a ticket is rendered can be forged by a description with NUL
  characters. The page is the intended one exactly when none is forged, and a lookup raises exactly when a forged one
  has a number that no block has. A description without NUL forges none.
- Creating a task recomputes nothing. The tree stays consistent exactly when the feat's status takes the new task's (a
  done feat only done, a failed one anything but in progress, one in progress anything, one that is todo also done),
  or equals it if the feat had no tasks yet.
- After the whole plan was completed, an epic is done exactly when all its feats without tasks were marked done by
  somebody: completing tasks never does that for them.
- A project without versions has no cost headline, although its empty table adds up to zero; with at least one version
  and all of them covered, the headline is what the cumulative rows add up to.
- Rendering is lossless where no placeholder is forged: reading every tag of a page as the markdown it stands for gives
  the paragraphs of the description again, in order. Three things are lost, as in the code: the separator line of a table, the length and
  character of a horizontal rule, and the lines that stand below a heading in its own paragraph.
- Appending an entry to a live document twice does the same as once exactly when the entry shows a line, or is empty
  and finds some content without carriage returns. Any other entry without a visible line is added every time.
- Logins, logouts and password changes end every earlier token, as promised, as long as nobody writes to the session
  rows directly. The endpoints for these rows can: dropping a row, or setting its version back, makes a revoked token
  accepted again, and a second row for a user refuses all tokens and logins until it is dropped. The exact condition
  for acceptance over runs with such writes is the version they left behind plus the endings since.
- Two blocks that the port registry hands out are the same or disjoint, and the same only if meanwhile every port of
  the earlier one was given up.
- With no task stuck in progress or failed, completing the todo tasks completes the version; otherwise it never does.
- The slug pattern of the test deployments lets one trailing line break through, because `$` does.

## Model

| member | source | states |
|---|---|---|
| TerminalLog.MarkedTailGrows | backend/services/agent_terminal.py:264-291 | a log that is the marker and a tail of the stream is so again after an append and a rotation; no stale marker stays in the data |
| TerminalLog.LogShape | backend/services/agent_terminal.py:239-291 | after any chunks the log is the whole stream, or the marker and a suffix of the stream at least half the limit long |
| TerminalLog.LogBounded | backend/services/agent_terminal.py:264-291 | the log is within the limit after every append, for all inputs, if and only if the marker fits beside the kept half |
| TerminalLog.MarkerFits | backend/services/agent_terminal.py:282-286 | the marker that is written fits for the configured limit of 100 MB and every limit from 256 bytes up |
| TerminalLog.MarkerNames | backend/services/agent_terminal.py:282-286 | the marker is a line of its own, and the number it names is the limit |
| TerminalLog.ConfiguredLogBounded | backend/services/agent_terminal.py:239-291 | with that marker the log of any chunks never exceeds the configured limit, nor any limit from 256 bytes up |
| TerminalLog.LogFile.Append | backend/services/agent_terminal.py:239-261 | the file holds exactly what the rotation rule makes of all chunks fed so far |
| TerminalLog.LogFile.RotateIfNeeded | backend/services/agent_terminal.py:264-291 | a file over the limit becomes the marker and its newest half limit; any other file is untouched |
| TerminalLog.LogFile.Replay | backend/services/agent_terminal.py:294-313 | the pieces, none empty and none too long, concatenate to exactly the file |
| TerminalFanout.RunKeepsInv | backend/services/agent_terminal.py:779-797 | over every interleaving of pump, attach, consume, detach and cleanup each chunk offered to a listener is delivered, evicted or pending, once and in order |
| TerminalFanout.FedFromSnapshot | backend/services/agent_terminal.py:544-565 | after every run a listener was fed the log as of its attach, then the later chunks in order; gap-free if and only if nothing was evicted |
| TerminalFanout.GaplessIffNothingEvicted | backend/services/agent_terminal.py:784-797 | delivered plus pending chunks are all chunks offered, if and only if no eviction happened |
| TerminalFanout.EvictionOnlyWhenFull | backend/services/agent_terminal.py:787-797 | a chunk is lost only to an arriving chunk, only with 256 pending, and it is the oldest one |
| TerminalFanout.ViewerSeesStream | backend/services/agent_terminal.py:552-560 | an attached viewer that lost nothing sees the stream from its first byte, or the marker and an unbroken tail of it |
| TerminalFanout.ListenerQueue.PutNowait | backend/services/agent_terminal.py:789-792 | a put is refused exactly with 256 items pending, and then changes nothing |
| TerminalFanout.Runtime.PumpChunk | backend/services/agent_terminal.py:780-797 | one chunk goes to the log, to the ring buffer, and to every listener's queue, dropping the oldest item of a full one; the object stays what its run of steps made of it, with this step at the end |
| TerminalFanout.Runtime.Register | backend/services/agent_terminal.py:544-554 | the replay pieces are the log as of the very moment an empty queue is registered, an attach step of the run |
| TerminalFanout.Runtime.Advance | backend/services/agent_terminal.py:556-562 | the generator yields the next piece of the log, and behind it the first item of its queue, a consume step of the run |
| TerminalFanout.Runtime.Unregister | backend/services/agent_terminal.py:563-565 | the queue is registered no more and keeps what it holds, a detach step of the run |
| TerminalFanout.Runtime.SendSentinels | backend/services/agent_terminal.py:831-837 | every listener is dropped, and gets the sentinel if its queue has room, a cleanup step of the run |
| TerminalFanout.Runtime.AttachedSeesStream | backend/services/agent_terminal.py:552-562 | whatever was called on the object, an attached viewer that lost nothing sees the stream from its first byte, or the marker and an unbroken tail of it |
| TerminalSessions.StepKeepsInv | backend/services/agent_terminal.py:362-869 | every atomic step of spawn, attach, process exit, reader end, the two halves of ending, and restart keeps the lifecycle invariant |
| TerminalSessions.LifecycleSafe | backend/services/agent_terminal.py:456-513 | in every run, restarts included: one open row per user and role, one live process per session, and every registered runtime has an open row that records its process |
| TerminalSessions.RowKeepsIdentity | backend/services/agent_terminal.py:412-504 | in every run a row keeps the user, the role and the conversation it was spawned with, resumptions included |
| TerminalSessions.EndedForever | backend/services/agent_terminal.py:850-869 | an ended row never changes, is never registered again, and never gains a process |
| TerminalSessions.StepLingersIff | backend/services/agent_terminal.py:617-642 | an ended session has a live process after a step if and only if it had one that the step did not stop, or the step was a reader giving up before the process, or an ending whose kill failed |
| TerminalSessions.LingersOnlyAbandoned | backend/services/agent_terminal.py:798-809 | in every run, restarts included, an ended session has a live process only if one of those two left it |
| TerminalSessions.RestartThenAttach | backend/services/agent_terminal.py:526-542 | after a restart exactly the sessions that were open can be resumed, each under one new process |
| TerminalSessions.RestartKeepsInv | backend/services/agent_terminal.py:661-711 | startup finalizes nothing that a running service could have left open, and keeps the invariant |
| TerminalSessions.TerminalService.constructor | backend/services/agent_terminal.py:661-689 | startup on any table that satisfies the unique index ends exactly the open rows that cannot be resumed |
| TerminalSessions.TerminalService.Spawn | backend/services/agent_terminal.py:385-442 | refused exactly when the spec is missing or the role is taken, and then without any change; otherwise one new open row with its user, role, conversation and process, registered, and all other rows as they were |
| TerminalSessions.TerminalService.Attach | backend/services/agent_terminal.py:456-542 | the live runtime if there is one, without change; else a respawn of an open resumable row under its own id, of which only the process is new; else an error without change |
| TerminalSessions.TerminalService.FinalizeDbRow | backend/services/agent_terminal.py:850-869 | only an open row is ended, so the first ending stands |
| TerminalSessions.TerminalService.CleanupAfterExit | backend/services/agent_terminal.py:824-847 | the row is ended and the registry entry dropped together |
| TerminalSessions.TerminalService.ReaderDone | backend/services/agent_terminal.py:800-809 | however late the reader notices, its own session ends up closed and no other is touched |
| TerminalSessions.TerminalService.EndStart | backend/services/agent_terminal.py:617-630 | a session without a runtime is finalized at once; otherwise the ending takes hold of the current runtime |
| TerminalSessions.TerminalService.EndFinish | backend/services/agent_terminal.py:632-642 | after the grace period the session is closed, whatever happened during it |
| DeployLedger.GateOnEvents | backend/services/deploy.py:117-129 | in every run, deploys overlapping arbitrarily: in front of each ok PROD deploy event stands an accept event of the same customer and version, in front of each accept event an ok UAT deploy event of theirs, and an ok PROD deploy event with none of its project in front of it is labelled v1.0.0 |
| DeployLedger.GateNeverBypassed | backend/services/deploy.py:525-607 | the invariant behind it: every run keeps the gate, unique numbers, and tickets in flight that still satisfy it |
| DeployLedger.RelabelKeepsGate | backend/services/deploy.py:732-737 | relabelling a project's history keeps the gate for every event of the log |
| DeployLedger.GraduateKeepsCoherent | backend/services/deploy.py:714-738 | graduation keeps numbers unique, events with their customers' projects, and the gate |
| DeployLedger.AcceptedForever | backend/services/deploy.py:117-129 | an acceptance follows its version row through every later run, renames included |
| DeployLedger.FinishResolvesIff | backend/services/deploy.py:591-607 | whatever happened since its checks, a record keeps labels resolving if and only if it is no success, or graduates, or finds its label among the versions |
| DeployLedger.LabelsResolveIff | backend/services/deploy.py:525-607 | in every run, deploys overlapping arbitrarily, the labels resolve throughout if and only if every record passes that check |
| DeployLedger.OnlyUatCanDangle | backend/services/deploy.py:532-607 | in every run only a UAT deploy can fail the check |
| DeployLedger.LabelsAlwaysResolve | backend/services/deploy.py:532-607 | deploys one at a time are one case in which all labels resolve |
| DeployLedger.OverlapLeavesDanglingLabel | backend/services/deploy.py:578-607 | two overlapping deploys can leave a label that names no row |
| DeployLedger.RenamedAtMostOnce | backend/services/deploy.py:714-738 | in every run, deploys overlapping arbitrarily, at most one renaming per project, and none once it has a v1.0.0 |
| DeployLedger.OneRowGraduates | backend/services/deploy.py:591-597 | in every such run, after a first graduation of a project every later one is of the same version row |
| DeployLedger.GraduatesOnceIff | backend/services/deploy.py:591-607 | in every run, deploys overlapping arbitrarily, a project graduates at most once and never after an ok PROD deploy, if and only if every graduation finds no PROD deploy of it when it is recorded |
| DeployLedger.OverlapGraduatesTwice | backend/services/deploy.py:532-607 | two overlapping first PROD deploys of one version are both recorded as graduations |
| DeployLedger.GraduatesAtMostOnce | backend/services/deploy.py:189-201 | deploys one at a time are one case in which there is at most one |
| DeployLedger.GraduateSubstitutes | backend/services/deploy.py:714-738 | graduation changes what a customer currently runs only by putting v1.0.0 in the place of the renamed number |
| DeployLedger.CurrentVersionIsLatest | backend/services/deploy.py:148-165 | what a customer currently runs is the version of the latest ok deploy event of that environment |
| DeployLedger.EmptyLedger | backend/services/deploy.py:148-206 | the empty ledger satisfies the invariant, so the run statements hold from the beginning |
| DeployLedger.DeployService.Accept | backend/services/deploy.py:412-456 | recorded, as an accept event of that customer and version, exactly when both exist and the log holds an ok UAT deploy event of theirs; otherwise which error, and no change |
| DeployLedger.DeployService.BeginDeploy | backend/services/deploy.py:501-576 | which check refuses, in order, a PROD deploy without an accept event of that customer and version among them; if none does, the version row, the label, and whether it is the project's first PROD deploy |
| DeployLedger.DeployService.GraduateInPlace | backend/services/deploy.py:714-738 | that row is named v1.0.0 and released, the project's events of the old number are relabelled, and nothing else changes; or an existing v1.0.0 row stops it without change |
| DeployLedger.DeployService.FinishDeploy | backend/services/deploy.py:591-613 | graduation on a successful first PROD deploy, then the event with the ticket's customer, label and environment and the runner's outcome; an error leaves the ledger as it was |
| DeployLedger.DeployService.Deploy | backend/services/deploy.py:464-613 | no PROD event without an accept event of that customer and version in the log; the event recorded, field by field; on success it is the customer's current version, and the bump is reported only on the first PROD deploy |
| DispatchRunner.SingleFlight | backend/services/pipeline_runner.py:68-98 | after any order of schedule, finish and callback steps at most one unfinished task per version exists, it is the one on record, and nothing is left behind in the end |
| DispatchRunner.LateCallback | backend/services/pipeline_runner.py:94-98 | a late callback of an older task leaves a newer task's entry alone |
| DispatchRunner.Scheduler.ScheduleDispatch | backend/services/pipeline_runner.py:85-98 | a task starts exactly when no unfinished task of the version exists |
| DispatchRunner.Scheduler.ClearActiveOf | backend/services/pipeline_runner.py:94-96 | the entry goes only if it is this task's own |
| DispatchRunner.DispatchRun.AutoChain | backend/services/pipeline_runner.py:224-237 | a chain ends settled, gone, raised, be it in the query of its limit, or with exactly its limit of dispatches spent |
| DispatchRunner.DispatchRun.TurnThenChain | backend/services/pipeline_runner.py:246-262 | a drained relay adds one drain and at most one bounded chain |
| DispatchRunner.DispatchRun.Drive | backend/services/pipeline_runner.py:203-262 | it stops with the row gone, with an error from any call or query, or with no relay pending or twenty relays drained |
| DispatchRunner.DispatchRun.MarkBlocked | backend/services/pipeline_runner.py:406-426 | a row that exists ends blocked with reason `system_error`, never with an older reason |
| DispatchRunner.DispatchRun.ClearDispatchFlags | backend/services/pipeline_runner.py:289-302 | no in-flight flag and no baseline remain, and nothing else changes |
| DispatchRunner.DispatchRun.Run | backend/services/pipeline_runner.py:176-286 | the first call is the consultation for a finished version, the conversation for one in that mode that is not being built, the dispatch for any other or none; then for every behaviour of the orchestrator, its limit and relay queries included, at most 1 + L + 20 (1 + L) calls, one of four endings, a crash always blocked with its own reason, flags always cleared |
| DispatchRunner.TurnCount | backend/services/pipeline_runner.py:223-262 | bounded chains and bounded drains bound the number of calls |
| Usage.BucketsFoot | backend/services/pipeline_metrics.py:134-171 | the phase buckets add up to the version's grand total in every counter, each model's tokens included |
| Usage.OneBucket | backend/services/pipeline_metrics.py:158-170 | a message adds to the bucket of its own phase, once, and to no other |
| Usage.OneMessage | backend/services/pipeline_metrics.py:103-171 | one message by its fields: what it adds to the version, to the phase of its stamp or else its stage, and to the model it names or else `_unknown` |
| Usage.SumAppend | backend/services/pipeline_metrics.py:77-87 | rolling up two message lists together adds their roll-ups |
| Usage.UsageTotals.Add | backend/services/pipeline_metrics.py:57-75 | every counter, each model's included, grows by what the message carries |
| Usage.UsageTotals.Merge | backend/services/pipeline_metrics.py:77-87 | every counter, each model's included, grows by the other's, even when merged with itself |
| Usage.AggregatePipelineUsage | backend/services/pipeline_metrics.py:98-131 | the total reads, in every counter, as the sum over the metered messages |
| Usage.AggregateUsageByPhase | backend/services/pipeline_metrics.py:134-171 | exactly the phases that have metered messages get a bucket, no two share one, and each reads as the sum over its messages |
| Metrics.PricingCommutes | backend/services/metrics.py:107-131 | pricing each model's total is pricing each message by itself |
| Metrics.AgentCostSplit | backend/services/metrics.py:107-131 | the cost of a split, in all and per side, is that of its messages priced one by one; absent exactly when a token-bearing model is unpriced, and exactly those models are reported |
| Metrics.FamilyPriced | backend/services/metrics.py:96-104 | a message of a family with both prices set costs its tokens at these prices |
| Metrics.FlatPriced | backend/services/metrics.py:96-104 | any other message costs its tokens at the flat pair, and has no cost exactly when that is not set and it has tokens |
| Metrics.UncountedFree | backend/services/metrics.py:107-131 | a message outside the scope costs nothing |
| Metrics.MillionTokens | backend/services/metrics.py:137-147 | a million tokens of a phase take a human the configured minutes and cost these at the configured hourly wage; absent exactly when that is not set |
| Metrics.EveryModelListed | backend/services/metrics.py:121-128 | the models of a split cover every message with tokens, and the unpriced ones are exactly those of the messages |
| Metrics.AgentCostAppend | backend/services/metrics.py:462-465 | the agent cost of merged usage is the sum of the parts' costs, absent exactly when one part's is |
| Metrics.HumanCostAppend | backend/services/metrics.py:137-147 | so is the human cost |
| Metrics.NoTokensNoCost | backend/services/metrics.py:115-120 | a scope without tokens costs zero, whatever is unpriced |
| Metrics.TotalOfRows | backend/services/metrics.py:297-316 | the headline total over the kept rows is the total over all phases, dropped ones included |
| Metrics.VersionCostAppend | backend/services/metrics.py:477-483 | the total recomputed from merged histories is the sum of the two totals |
| Metrics.Recomputed | backend/services/metrics.py:462-483 | the recomputed cumulative totals are known exactly when every version is covered, and are then the sums |
| Metrics.HeadlineNext | backend/services/metrics.py:467-483 | a version whose two costs are known adds them to the headline, any other leaves it as it is |
| Metrics.CumulativeFoots | backend/services/metrics.py:477-483 | with at least one version and all covered, the cumulative headline is what the cumulative rows add up to |
| Metrics.NoVersionsNoHeadline | backend/services/metrics.py:477-483 | without versions there is no headline, although the empty table adds up to zero |
| Metrics.KeptRowsFoot | backend/services/metrics.py:266-273 | dropping rows without activity loses no tokens, time or parse attempts |
| Metrics.RowsKept | backend/services/metrics.py:266-273 | a phase has a row if and only if it is compared and has tokens, time or parse attempts |
| Metrics.RowsInOrder | backend/services/metrics.py:266-273 | the rows stand in the canonical order |
| Metrics.TableFoots | backend/services/metrics.py:247-284 | kept rows plus the overhead bucket foot to the grand total, for one version and for many |
| Metrics.OverheadTotals | backend/services/metrics.py:276-284 | the overhead bucket holds every phase that is not compared, each once |
| Metrics.PhaseMetric | backend/services/metrics.py:211-244 | a phase's row shows counters, costs per side, unpriced models, human minutes and cost as its messages one by one give them, and both ratios and what was saved as these figures give them |
| Metrics.BuildPhases | backend/services/metrics.py:247-273 | the rows are those of the phases with activity, in canonical order |
| Metrics.CostTotals | backend/services/metrics.py:297-316 | each total is absent exactly when a row with tokens has no cost on that side |
| Metrics.MergeBuckets | backend/services/metrics.py:463-464 | the cumulative buckets read as the merged histories, phase by phase, and the merged version's own buckets are untouched |
| Metrics.BuildTable | backend/services/metrics.py:430-460 | the rows and totals are those of the messages, and rows plus overhead foot to the usage shown |
| Metrics.NextVersion | backend/services/metrics.py:424-470 | one turn of the version loop: a faithful table, and accumulators that hold the longer history |
| Metrics.ComputeProjectMetrics | backend/services/metrics.py:403-483 | every version's table and the cumulative one are those of the messages and foot; with every version covered the headline is the cumulative total |
| Text.UnescapeEscape | scripts/icc_ticket.py:230-237 | unescaping what was escaped gives back any text |
| Text.EscapeTable | scripts/icc_ticket.py:236-236 | the five characters that are escaped, what is written for each, and that no other is |
| Text.SplitPairsJoined | scripts/icc_ticket.py:246-246 | splitting at blank lines loses nothing and leaves none in a part |
| TicketPage.EmphasiseSafe | scripts/icc_ticket.py:293-298 | no emphasis rule ever cuts a tag or makes up a code block |
| TicketPage.EmphasisedUndone | scripts/icc_ticket.py:293-298 | emphasis loses nothing: with its tags put back to the delimiters they stand for, any escaped text is as it was |
| TicketPage.TableSafe | scripts/icc_ticket.py:284-290 | a rendered table opens no code block |
| TicketPage.ParagraphSafe | scripts/icc_ticket.py:248-268 | whatever an escaped paragraph renders to opens no code block |
| TicketRead.UndelimitedKept | scripts/icc_ticket.py:293-298 | text without stars and ticks is not changed by emphasis |
| TicketRead.StrongShown | scripts/icc_ticket.py:296-296 | two stars on each side make strong emphasis |
| TicketRead.EmShown | scripts/icc_ticket.py:297-297 | one star on each side makes emphasis, between words and with no white space inside |
| TicketRead.CodeShown | scripts/icc_ticket.py:298-298 | a tick on each side of text without a line break makes code |
| TicketRead.EmKept | scripts/icc_ticket.py:297-297 | two stars change nothing when white space is next to one inside, or a word next to one outside |
| TicketRead.CodeKept | scripts/icc_ticket.py:298-298 | two ticks change nothing when a line break is between them |
| TicketRead.LoneKept | scripts/icc_ticket.py:293-298 | a single star or tick changes nothing |
| TicketRead.ParagraphRead | scripts/icc_ticket.py:254-268 | read back, the HTML of an escaped paragraph is the paragraph; of a heading its title, of a rule a rule, of a table its cells |
| TicketRead.HeadingReadBack | scripts/icc_ticket.py:264-267 | one to four hashes, spaces and a title are read back as the title; lines below it are not shown |
| TicketRead.TableReadBack | scripts/icc_ticket.py:272-290 | a table as it is written is read back with the stripped cells of its header and of every row behind the separator, in order |
| TicketRead.CellsOfRow | scripts/icc_ticket.py:280-281 | the cells of a row as it is written, each stripped |
| TicketRead.PageRead | scripts/icc_ticket.py:230-269 | the page of any description that forges no placeholder, read back, is its paragraphs in order, each as it was written, fenced blocks as fenced blocks |
| TicketRead.DocumentRead | scripts/icc_ticket.py:397-397 | the page of a whole ticket that forges no placeholder, read back, is the description and behind it the heading, the record as a block and the emphasised note |
| TicketRecheck.PiecesFaithful | scripts/icc_ticket.py:238-268 | with placeholders that nothing else can be mistaken for, no lookup of a set-aside block fails, and all markup is safe |
| TicketRecheck.SetAsideAppend | scripts/icc_ticket.py:238-244 | setting blocks aside goes piece by piece, and the numbers of the blocks go on |
| TicketRecheck.SetAsideOne | scripts/icc_ticket.py:238-244 | a letter stays, and a block leaves its number between blank lines |
| TicketPlaceholder.PageFaithfulIff | scripts/icc_ticket.py:240-255 | with placeholders spelled out, the page is made of the same pieces if and only if no paragraph of the description forges one |
| TicketPlaceholder.LookupRaisesIff | scripts/icc_ticket.py:250-252 | a lookup raises if and only if a forged placeholder has a number that no block has |
| TicketPlaceholder.NulFreeForgesNone | scripts/icc_ticket.py:246-250 | a description without NUL forges no placeholder |
| TicketPlaceholder.ForgedRaises | scripts/icc_ticket.py:250-252 | the description NUL, `0`, NUL makes the lookup raise |
| TicketPlaceholder.ParagraphsSpelled | scripts/icc_ticket.py:244-246 | splitting the text with its placeholders spelled out gives the paragraphs spelled out |
| TicketPlaceholder.RenderHtml | scripts/icc_ticket.py:230-269 | the loop over the paragraphs produces the specified page, or raises where that has a failed lookup |
| TicketRecheck.SafeSkipped | scripts/icc_ticket.py:417-417 | the block pattern finds nothing in safe text and nothing that starts in it |
| TicketRecheck.BlockFound | scripts/icc_ticket.py:417-417 | a block with bracket-free content is found with exactly that content |
| TicketRecheck.BlockFoundAnyForm | scripts/icc_ticket.py:417-417 | with attributes on its tags and white space between them a block is found too, with everything up to its first closing tag |
| TicketRecheck.PiecesAreBlocks | scripts/icc_ticket.py:238-255 | the code pieces of a page are the fenced blocks of the escaped description: set aside, split and looked up, none is lost, doubled or moved |
| TicketRecheck.PageFound | scripts/icc_ticket.py:230-269 | on the page of any description that forges no placeholder the parser finds its fenced blocks, escaped, in order, and nothing made up |
| TicketBlocks.BlocksEscaped | scripts/icc_ticket.py:235-246 | looking for fences in the escaped text finds the escaped blocks of the text itself |
| TicketBlocks.FenceIsBlock | scripts/icc_ticket.py:240-244 | a fence, whatever language it names, is a block with what stands between it and the next ticks |
| TicketBlocks.LettersFirst | scripts/icc_ticket.py:240-244 | text without ticks is no block, in front of anything |
| TicketBlocks.DescriptionFound | scripts/icc_ticket.py:230-269 | read back from such a page and unescaped, the blocks are exactly those of the description |
| TicketMeasure.Gate | scripts/icc_ticket.py:127-153 | a measurement passes exactly when there is a command that is no sentence, it ends with code 0 and it prints something; both sides are then stripped; each refusal has its own cause |
| TicketMeasure.MeasurementFound | scripts/icc_ticket.py:417-419 | on the page of a ticket whose description forges no placeholder the description's fenced blocks are found, and the last block found is the measurement |
| TicketMeasure.RecordTaken | scripts/icc_ticket.py:417-420 | from such a page the recorded text is searched, and nothing else |
| TicketMeasure.LastPromptSearched | scripts/icc_ticket.py:417-420 | the last block that shows a prompt is searched, and no other |
| TicketMeasure.PageSearched | scripts/icc_ticket.py:418-420 | without such a block the whole page is searched |
| TicketMeasure.TagBreaks | scripts/icc_ticket.py:420-420 | a tag becomes one line feed, and the text in front of it stays |
| TicketMeasure.LoneBracket | scripts/icc_ticket.py:420-420 | a bracket that begins no tag stays |
| TicketMeasure.SearchFound | scripts/icc_ticket.py:422-422 | a prompt's first line is the command, and the output runs to its first later fence |
| TicketMeasure.RoundTrip | scripts/icc_ticket.py:411-425 | for every such description a one-line command comes back as it was, with its output up to 4000 characters and the first later fence, stripped |
| TicketMeasure.RoundTripIff | scripts/icc_ticket.py:341-352 | command and output come back unchanged if and only if the command is one line and the output is short enough and has no later fence |
| TicketPlaceholder.WrittenRoundTrip | scripts/icc_ticket.py:393-397 | this holds of the ticket as it is written, placeholders spelled out, for every description that forges none, so for every one without NUL |
| TicketMeasure.MultiLineCut | scripts/icc_ticket.py:422-425 | of a command of several lines only the first comes back |
| TicketMeasure.Compare | scripts/icc_ticket.py:167-180 | a failed re-measurement is unknown, never agreement; otherwise changed exactly when the stripped outputs differ |
| TicketMeasure.NoFalseAlarm | scripts/icc_ticket.py:428-445 | the command re-run is the one measured, and the same result is "unchanged" if and only if the output was stored whole |
| Chunker.PackParagraphs | backend/rag/indexer.py:91-111 | the paragraph loop with its own buffer is the greedy packing of the section's paragraphs |
| Chunker.PackSections | backend/rag/indexer.py:86-122 | the nested loops are one greedy packing of sections and paragraphs |
| Chunker.SectionsStartAtHeadings | backend/rag/indexer.py:78-80 | the sections are the stripped pieces that are not blank, cut in front of every heading line and nowhere else |
| Chunker.ChunkMarkdown | backend/rag/indexer.py:67-138 | the chunks are the greedy packing, each later one behind its predecessor's tail; blank content has none |
| Chunker.NothingLost | backend/rag/indexer.py:82-122 | before overlap the chunks hold all characters other than white space, once and in order |
| Chunker.ChunksSized | backend/rag/indexer.py:89-122 | no chunk is blank, and each is within the limit unless it is a single paragraph |
| Chunker.ChunksAreGreedy | backend/rag/indexer.py:86-122 | each chunk is a run of whole units, and its first unit did not fit behind the chunk before it or opens an oversized section |
| Chunker.TailStart | backend/rag/indexer.py:128-134 | what is repeated is a suffix of the previous chunk, at most the overlap long, that starts behind the first line break in reach, or else behind the first space |
| Chunker.OverlapShape | backend/rag/indexer.py:125-136 | after overlap each later chunk is its predecessor's tail, a blank line, and its own raw chunk |
| TaskTree.OrderIsTotal | backend/services/task.py:123-141 | within a version the plan order is total |
| TaskTree.UpdatedConsistent | backend/services/task.py:275-358 | every update keeps every feat that has tasks, and every epic that has feats, equal to the aggregate of its children |
| TaskTree.FeatMeans | backend/services/task.py:326-358 | what that says of a feat, task by task: done if all are, in progress if one is, failed if one is and none is in progress |
| TaskTree.EpicMeans | backend/services/task.py:361-387 | and of an epic, feat by feat |
| TaskTree.FeatRecomputedConsistent | backend/services/task.py:326-358 | recomputing one feat restores consistency although its epic is left alone when the feat does not change |
| TaskTree.RunConsistent | backend/services/task.py:275-387 | so does every run of updates |
| TaskTree.CreateConsistentIff | backend/services/task.py:252-272 | creating a task of any status keeps the tree consistent if and only if the feat's status takes it, or equals it if the feat had no tasks |
| TaskTree.TaskService.RecomputeEpicStatus | backend/services/task.py:361-387 | the epic takes the aggregate of its feats, if it has any |
| TaskTree.TaskService.RecomputeFeatStatus | backend/services/task.py:326-358 | the feat takes the aggregate of its tasks, and the epic follows when that changed it |
| TaskTree.TaskService.Update | backend/services/task.py:275-323 | an unknown task changes nothing; otherwise the status is set and propagated |
| TaskTree.TaskService.NextTaskNumber | backend/services/task.py:194-205 | the number is above all numbers of the feat, by one or from one |
| TaskTree.TaskService.Create | backend/services/task.py:221-272 | one new task with a number new in its feat, or no change when the feat does not exist |
| TaskTree.TaskService.GetNextTodo | backend/services/task.py:123-141 | the todo task of the version that is lower than all others by epic number, then feat number, then task number; none if and only if there is none |
| TaskTree.TaskService.CompleteAll | backend/services/task.py:123-141 | completing the next task until there is none terminates, visits each todo task of the version once in strictly increasing plan order, and completes nothing else; all tasks are done in the end if and only if none was in progress or failed, and then feats and epics are as the next row says |
| TaskTree.EverythingDone | backend/services/task.py:326-387 | then every feat that has tasks is done, and an epic is done if and only if its feats without tasks are |
| LiveDocument.Document.Append | backend/services/knowledge_base_writer.py:91-129 | an entry whose marker occurs changes nothing; any other is written behind a blank line, after the header if the file is new |
| LiveDocument.AppendWrites | backend/services/knowledge_base_writer.py:114-129 | what is written: the content that was read, or else the header, then the joiner, the entry and its end; nothing if the marker is there |
| LiveDocument.NewlinesRead | backend/services/knowledge_base_writer.py:114-114 | a carriage return, with the line feed behind it if there is one, is read as one line feed, anything else as it is |
| LiveDocument.MarkerOfLines | backend/services/knowledge_base_writer.py:207-214 | the marker is the first line that is not blank, stripped |
| LiveDocument.OccursWhere | backend/services/knowledge_base_writer.py:119-121 | where a marker occurs, the content is something, the marker, and something |
| LiveDocument.JoinerIs | backend/services/knowledge_base_writer.py:123-123 | the joiner for content that is empty, ends with a blank line, ends with a line, or does not |
| LiveDocument.EndingIs | backend/services/knowledge_base_writer.py:124-126 | a line feed is added exactly where there is none |
| LiveDocument.JoinerLeavesBlankLine | backend/services/knowledge_base_writer.py:123-123 | what goes in front of an entry makes a blank line of what is there, and is empty when one is there already |
| LiveDocument.EntryEndsItsLine | backend/services/knowledge_base_writer.py:124-126 | the written content ends its line, and a line that is ended stays as it is |
| LiveDocument.MarkerSurvives | backend/services/knowledge_base_writer.py:115-121 | a marker that was written is read back whole, whatever carriage returns stand around it |
| LiveDocument.ReplayTwice | backend/services/knowledge_base_writer.py:109-129 | replaying any list of non-blank entries twice leaves the document as replaying it once |
| LiveDocument.RepeatedIff | backend/services/knowledge_base_writer.py:109-129 | appending any entry twice is appending it once if and only if it shows a line, or is empty and finds content without carriage returns |
| LiveDocument.ContentGrows | backend/services/knowledge_base_writer.py:114-129 | the content read at one time is a prefix of the content read later |
| SettingsCache.SettingsService.ReadCached | backend/services/system_setting.py:434-456 | an unexpired cached entry; else the stored row, or the default if there is none, which is then cached for thirty seconds; nothing for an unknown key |
| SettingsCache.LowerLetters | backend/services/system_setting.py:459-460 | case is ignored letter by letter |
| SettingsCache.InvalidatedIsExact | backend/services/system_setting.py:423-456 | whatever was written behind the service's back, once a key or all were dropped its reads are exact again for as long as writes go through the service |
| SettingsCache.SettingsService.Upsert | backend/services/system_setting.py:617-661 | refused without change for an unknown key or a value that does not parse; otherwise stored at the registered type and dropped from the cache |
| SettingsCache.ReadIsExact | backend/services/system_setting.py:449-456 | with all writes through `upsert`, every read of every run equals the uncached effective value and parses at the registered type |
| SettingsCache.ReadIsRecent | backend/services/system_setting.py:418-456 | with any writes behind its back, a value read was in force at some instant of the last thirty seconds |
| TokenEpochs.VersionCounts | backend/services/auth.py:57-76 | after any run, direct writes to session rows included, the stored version is the one the last such write left plus the logins, logouts and password changes since; a deleted user never comes back |
| TokenEpochs.IssuedAtMostStored | backend/services/auth.py:114-173 | after any run an issued token is not ahead of the stored version if and only if it is not ahead of that sum; without direct writes it never is |
| TokenEpochs.AcceptedIff | backend/core/security.py:78-89 | after any run a token is accepted if and only if it is unexpired, its user active, at most one session row left by the last direct write, and that sum not above its version; without direct writes: no login, logout or password change since it was issued |
| TokenEpochs.RevokedTokenRevived | backend/services/user_session.py:177-237 | dropping the row, or setting it back, makes every revoked token of an active user accepted again |
| TokenEpochs.SecondRowLocksOut | backend/services/user_session.py:136-174 | with a second row no versioned token and no login of the user goes through in any run that drops none |
| TokenEpochs.RefreshPreserves | backend/services/auth.py:130-153 | a refreshed token is never above the one it replaces and accepted only when that would be with the later expiry; without direct writes in between both agree for ever |
| TokenEpochs.AuthService.BumpTokenVersion | backend/services/auth.py:57-76 | the version grows by one, or starts at one without a session row; with several it raises, without change |
| TokenEpochs.AuthService.DoLogin | backend/services/auth.py:114-127 | a token of the new version exactly for an active user with the right password and at most one session row |
| TokenEpochs.AuthService.RefreshSession | backend/services/auth.py:130-153 | a token of the unchanged version, refused unless there is one session row |
| TokenEpochs.AuthService.DoLogout | backend/services/auth.py:156-173 | the version grows by one, refused unless there is one session row |
| TokenEpochs.AuthService.DoChangePassword | backend/services/user.py:323-342 | allowed to seniors and for oneself; the hash changes and the version grows |
| TokenEpochs.AuthService.CreateUser | backend/services/user.py:169-187 | the session row starts at version zero |
| TokenEpochs.UserUpdated | backend/services/user.py:190-241 | an update sets the flags of a known user and keeps the password, the rows and everyone else |
| TokenEpochs.UserDeleted | backend/services/user.py:267-287 | only a known user that nothing refers to is deleted, with all rows, and no one else |
| TokenEpochs.AuthService.CreateSession | backend/services/user_session.py:136-174 | one more row for an existing user, whatever its version |
| TokenEpochs.AuthService.UpdateSession | backend/services/user_session.py:177-219 | the version of an existing row is set, up or down |
| TokenEpochs.AuthService.DeleteSession | backend/services/user_session.py:222-237 | an existing row is gone, the user's others stay |
| TokenEpochs.AuthService.GetCurrentUser | backend/core/security.py:44-89 | the user exactly when the token is accepted |
| Ports.PortRegistry.UsedPorts | backend/services/port_registry.py:192-209 | exactly the backend, frontend and database ports of the projects |
| Ports.PortRegistry.ReservedPorts | backend/services/port_registry.py:212-240 | exactly the ports of the ranges that the comma-separated setting spells out; blank and malformed entries reserve nothing |
| Ports.SplitJoined | backend/services/port_registry.py:226-226 | splitting the setting at commas loses nothing, and leaves no comma in an entry |
| Ports.SettingRead | backend/services/port_registry.py:223-239 | a setting written as a list of ranges reads as these ranges |
| Ports.PortRegistry.SuggestBlock | backend/services/port_registry.py:243-292 | the least aligned base whose whole block is in range and free; an error exactly when there is none |
| Ports.SuggestedInRange | backend/services/port_registry.py:278-290 | a suggested base lies whole blocks above the minimum and its block ends within the maximum |
| Ports.SuggestedPort | backend/services/port_registry.py:278-290 | no port of a suggested block is a backend, frontend or database port of a project, nor in a reserved range |
| Ports.LowerIsBlocked | backend/services/port_registry.py:283-290 | every lower block has a port that is |
| Ports.SameOrDisjoint | backend/services/port_registry.py:283-290 | in any run from any registry, whatever else is added, edited or deleted, two blocks taken are the same or disjoint |
| Ports.HeldBlockApart | backend/services/port_registry.py:278-290 | in any such run a block is disjoint from every earlier one that still has a port in use |
| Ports.BlocksDisjoint | backend/services/port_registry.py:278-290 | as long as no port is given up all blocks taken in a run are pairwise disjoint, whatever the registry and the reserved ranges |
| Ports.PortRegistry.TakeBlock | backend/services/port_registry.py:243-292 | a project placed into the suggested block is such a step: the first free block, one more project, nothing else changed |
| Ports.PortState.AllocatePort | scripts/_uat_lib.py:171-191 | the slug's own port if it is in range, else the least port nobody has; an error exactly when there is none or the slug is invalid; in the default range a step of the runs below |
| Ports.SlugForm | scripts/_uat_lib.py:53-53 | a lower-case letter or digit, then any number of these and hyphens, is a slug, with one line feed behind it too |
| Ports.SlugRefused | scripts/_uat_lib.py:53-53 | nothing with another character, nor with a hyphen in front, nor empty, is one |
| Ports.PortState.ReleasePort | scripts/_uat_lib.py:194-199 | the slug's entry is gone, all others stay |
| Ports.RunsStayInjective | scripts/_uat_lib.py:171-199 | in every run no two slugs share a port, and all ports are in the default range |
| Ports.AllocationStable | scripts/_uat_lib.py:180-183 | a slug keeps its port until it is released |
| Ports.TriplesMeetIff | scripts/uat-deploy.py:69-72 | two port triples meet if and only if their ports are 0, 100 or 200 apart |
| Ports.TriplesNeverMeet | scripts/uat-deploy.py:69-72 | in every run the three ports of one deployment never collide with another's |

## Left out

- Terminal: subprocess and PTY calls, keystrokes and window size, log retention, roles and spec files; failures of the
  operating system or the database inside an operation; which of two endings supplies the recorded reason is
  not claimed.
- Terminal: processes are assumed to die with the backend that started them, so a restart clears them.
- Terminal: a conversation that a spawn continues under a given identifier; it changes the arguments of the process only.
- DeployLedger.LabelsAlwaysResolve: covers deploys one at a time, because for overlapping ones the claim is false; the exact condition for them is LabelsResolveIff, and the counterexample is a lemma.
- DeployLedger.GraduatesAtMostOnce: covers deploys one at a time, because for overlapping ones the claim is false; the exact condition for them is GraduatesOnceIff, and the counterexample is OverlapGraduatesTwice.
- Deploy: the runner's own work, instance names and addresses, release notes, the version-by-customer matrix, and
  renaming or deleting versions elsewhere in the service.
- Dispatch: the orchestrator's internals, message and activity broadcasts, and the notification after a run; changes
  to the same row by other requests while a broadcast is awaited; a failure while the flags are being cleared.
- Metrics: the ratios of the headline, idle and waiting time, configuration flags, the copy of the split by model in a
  row, the order in which unpriced models are listed, and floating-point rounding.
- Ticket: Python's decimal digits are a parameter, and its limit on the digits of `int` is not modelled; named
  character references other than the five that escaping writes; the evidence service itself, assumed to return
  a description as it was stored; the list of risky sentence shapes.
- TicketMeasure.Gate: the pattern that recognises a sentence about a measurement is a parameter, because it is prose.
- Chunker: embedding and upload.
- TaskTree: direct edits of feat and epic statuses, deletion of tasks, and all fields other than feat, number and status.
- TaskTree: epic numbers are unique per project in the database; the model uses that they are unique per version.
- LiveDocument: path checks, the temporary file of the atomic write, and the deletion of a project's folder.
- SettingsCache: labels and descriptions, user names, and the uncached getter; Python's `int` and `float` grammars are parameters.
- TokenEpochs: signatures, password hashing, and the websocket check; the time a session was last seen; and who may call the endpoints for session rows.
- Ports: Python's `int` grammar is a parameter; the state file of the test deployments, of which an unreadable one counts as empty.
- Plain create, read, update and delete services, schemas, and the scripts around them: they would add easy members only.
