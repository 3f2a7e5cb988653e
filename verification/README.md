# MessyDesk: what its backend keeps, as Dafny proofs

MessyDesk hands file-processing jobs to remote consumers and keeps a lineage graph of what they
produce. This project models the parts of the backend whose correctness spans many functions or many
requests at once, and proves what they keep:

* **The job queue** (`QueueTable`, `QueueRuns`, `QueueRows`, `QueueStatus`, `QueueOutcomes`, `QueueClaims`,
  `QueueBatches`, and the class in `JobQueue.dfy`). The two SQLite tables are a class whose methods do what
  `JobQueue`'s methods do. Each method is proved equal to one step of a table model and, row by row in the
  words of `QueueRows`, to do what it is for; the theorems are about every run of such steps, with any
  adapters and any (also repeated or late) calls.
* **The batch protocol** (`BatchCounting`, `BatchProtocol`, `BatchLaws`, `BatchLimits`). Dispatchers, claims,
  result callbacks, pause, budget stop, cancel and resume interleave at every `await`; the model is a step
  relation with one action between two waits. `BatchLaws` says what each step may change, with the statuses
  written out, and that a stopped batch takes nothing more.
* **Cascade delete** (`Graph`): the level-by-level walk, the chunked deletes, and the closure they equal.
* **Root-source grouping and grouped dispatch** (`Grouping`, `Dispatch`): the batched ancestor search
  against the walk per file, the partition into groups, and the messages of a many-to-one run.
* **Tags** (`TagTable`, `TagRows`, `TagStore`, `DeskDeletes`, `MachineTags`, `TagQueries`): entities, desk
  vocabularies and links under every operation of the tag service and under deletes in the graph, the
  shared creation of machine tags, and the query for files that have all tags.
* **The tag filter** (`Filters`) and **the record reader** (`ArcadeClient`, `Ids`).

`Collections` holds options, distinct sequences, permutations and the stable sort. SQL statements are
single steps; times, access answers and the record ids a database gives are parameters. Where the
database may return rows in any order, the model takes the order as given by a window (`first`,
`second`, `recent`, `listed`) that has to satisfy the query.

What turned out not to hold is stated with a run or an input that shows it, beside the condition under
which the code does meet the property:

* A budget stop that overlaps a resume loses inputs: resume ends by writing `running` over it
  (`BatchLimits.LostWhenStoppedInsideResume`, `LostWhenStopEndsInsideResume`), and while a stop is half done
  the batch runs without its input (`LostWhileStopping`).
* An input that is counted twice can hide another one and mark the batch done early
  (`BatchLimits.LostWhenCountedTwice`, `DoneWhenCountedTwice`). `BatchProtocol.NoInputLost` holds without
  these, and needs no more than `processed_files < total_files` for the second.
* A callback that stored its output and is turned away at its second stop check leaves the count short for
  good, so the batch is never done (`BatchLimits.NeverDoneAfterTurnedAway`, `Dispatch.ResumeContinues`).
* A rename looks for clashes on live desks only, so a desk whose delete fails comes back with two human tags
  of one label (`TagTable.RenamedWhileDeleting`). `TagTable.StepKeepsGood` says exactly which operations keep
  the vocabularies of all desks.
* Deleting a file alone leaves the references that a search made of it (`Graph.SearchReferenceDangles`);
  `Graph.NoDanglingReference` says exactly when no delete leaves one.
* A job whose own process is paused goes back to the queue although its batch was aborted, in exactly the
  case `QueueBatches.RequeuedDespiteAbort` names.
* A claim can come back empty while a job is due, only when 50 held jobs are in front of it
  (`QueueClaims.ClaimTakesOldest`).
* The map that shares the creation of machine tags has the desk in its key, so two desks can each create
  the tag (`MachineTags.TwoDesksTwoTags`); calls for one desk cannot (`MachineTags.AtMostOneMachineTag`). Their callers
  share it unless a human tag comes to the desk or the tag is pruned in between (`MachineTags.CallersShare`,
  `HumanBetweenCalls`, `PrunedBetweenCalls`).
* Grouping loses the repeats of a listed file, and only those (`Dispatch.GroupingConserves`).
* A region key reads back to its parts only when they contain no bar (`Filters.RoiKeyRoundTrip`).

## Model

| member | source | states |
|---|---|---|
| Queue.JobQueue.Claim | src/modules/queue/queue.ts:181-227 | among the 50 oldest candidates of the topic, then of its batch twin, the first one that is not held is handed out, due before and leased after; of the other rows only active ones of aborted batches change, to cancelled |
| Queue.JobQueue.Complete | src/modules/queue/queue.ts:236-251 | only the holder of a running job completes it: the row ends as done with its finish time, or is gone when it has no batch or the batch has no active job left, whose finished rows then go too; while another job of the batch is active no other row changes |
| Queue.JobQueue.Fail | src/modules/queue/queue.ts:253-285 | only the holder fails a job: cancelled when its batch is, else queued again after its wait while tries remain, else failed; an abort also drains the batch, and otherwise no other row and no state row changes |
| Queue.JobQueue.CheckBatchAutoAbort | src/modules/queue/queue.ts:287-315 | aborts exactly when too large a share failed or the newest outcomes are all failures, and then cancels the batch |
| Queue.JobQueue.CleanupIfIdle | src/modules/queue/queue.ts:317-337 | exactly the finished rows of the batch past their time go, and only when the batch has no active job |
| Queue.JobQueue.CancelBatch | src/modules/queue/queue.ts:354-363 | the state row, the removal of exactly the queued rows of the batch, running ones staying, and the cleaning when that leaves it idle, as one step |
| Queue.JobQueue.SweepOnce | src/modules/queue/queue.ts:461-476 | exactly the finished rows past their time, and then the week-old state rows that no row refers to |
| Queue.JobQueue.ActiveJobs | src/modules/queue/queue.ts:389-430 | the panel's counters are the numbers of shown queued and running rows per entry; the listed rows of aborted batches end as cancelled and no other row changes |
| QueueRuns.RunKeepsValid | src/modules/queue/queue.ts:160-476 | over every run: ids grow, and each row's status agrees with its holder, lease and finish time |
| QueueRuns.StepRows | src/modules/queue/queue.ts:160-476 | one operation changes at most one job beyond finalising or cancelling rows; all others stay or go, and none comes but by publish |
| QueueStatus.StepExplained | src/modules/queue/queue.ts:160-476 | every change of a row has its operation: done only by a successful complete of it, failed only by a failure of it with no try left, cancelled only by what cancels, running only by a claim, queued again only by a failure with tries left; and a row goes only when it is over, drained while queued, cleaned up by its status and age, flushed, or completed itself |
| QueueStatus.FinishedHasReason | src/modules/queue/queue.ts:236-285 | over every run, a row that reads done, failed or cancelled has in the run the step that ended it so: the complete of its holder, its holder's failure with no try left, or a cancel |
| QueueStatus.RetryWaits | src/modules/queue/queue.ts:265-270 | over every run, after a failure with tries left no claim hands the job out before its wait is over |
| QueueRows.ClaimMeans | src/modules/queue/queue.ts:181-227 | a claim, row by row: the job handed out and its new terms, and the rows cancelled on the way |
| QueueRows.FailMeans | src/modules/queue/queue.ts:253-285 | a failure, row by row and state row by state row, for each of its five answers |
| QueueOutcomes.EndedForGood | src/modules/queue/queue.ts:181-285 | over every run a done, failed or cancelled row never becomes queued or running again, and its id is not used again |
| QueueOutcomes.OneOutcome | src/modules/queue/queue.ts:236-285 | for each job at most one complete or permanent fail succeeds in any run, never one of each |
| QueueOutcomes.LostJobStaysLost | src/modules/queue/queue.ts:229-285 | an adapter that lost a job can no longer complete, fail or extend it until it claims it again |
| QueueOutcomes.LeaseIsExclusive | src/modules/queue/queue.ts:181-234 | a job with an unexpired lease is handed to nobody |
| QueueOutcomes.ClaimLeases | src/modules/queue/queue.ts:181-227 | what a claim hands out was due, belongs to no held batch, counts one more try and is leased from then on |
| QueueOutcomes.RetryBound | src/modules/queue/queue.ts:253-285 | fail grants at most max(0, max_attempts - 1) retries per job in any run |
| QueueOutcomes.RetriesOfKnownJob | src/modules/queue/queue.ts:253-285 | the retries still to come are bounded by the tries left |
| QueueOutcomes.BackoffGrows | src/modules/queue/queue.ts:253-285 | the wait is half a second after the first try, never shrinks with the attempts, doubles up to the sixth and is capped at 30000 ms |
| QueueOutcomes.ClaimBound | src/modules/queue/queue.ts:181-285 | without lease expiry all claims of a run are at most the sum of max(1, max_attempts) |
| QueueClaims.ClaimTakesOldest | src/modules/queue/queue.ts:181-227 | while a job of the topic is due and not held, a claim hands out one at least as old, unless the 50 oldest candidates, all held, are in front of it |
| QueueClaims.ClaimTakesOldestOfBatch | src/modules/queue/queue.ts:181-227 | the same of the batch twin, once all candidates of the topic are held |
| QueueClaims.TopicBeforeBatch | src/modules/queue/queue.ts:185-185 | a job of another queue is handed out only when every candidate of the topic is held |
| QueueBatches.BlockedUntilResume | src/modules/queue/queue.ts:123-138 | after a pause or cancel no claim returns a job of the batch until its resume, unless the job was published after a sweep that found no row of the batch left |
| QueueBatches.HoldStep | src/modules/queue/queue.ts:461-476 | every operation but resume keeps the state row while a row of the batch exists |
| QueueBatches.AbortExactly | src/modules/queue/queue.ts:253-315 | fail reports an abort exactly when the job is held and out of tries, its batch not cancelled, and over the retained rows failed*100 >= percent*finished or the newest k outcomes all failed, with k and percent the job's, else the configured, else 5 and 50 |
| QueueBatches.RecentMeansConsecutive | src/modules/queue/queue.ts:300-313 | the consecutive-failure query is all failures exactly when every success is older than k failures |
| QueueBatches.AbortDrains | src/modules/queue/queue.ts:271-283 | after an abort no row of the batch is queued and the batch is held as cancelled, whichever process its jobs name |
| QueueBatches.AbortedBatchDrains | src/modules/queue/queue.ts:181-363 | after an abort nothing of the batch is queued again and its active rows only decrease, without new publishes, pause or resume |
| BatchCounting.EveryIncrementCounts | src/modules/batches/batch-state.ts:54-85 | processed_files equals the increments made, in every interleaving and whatever status is written meanwhile |
| BatchCounting.DoneOnlyAfterTheLast | src/modules/results/results.ts:369-411 | done only once all n inputs are counted, and at most one callback announces the end |
| BatchCounting.DoneOnceAllFinish | src/modules/results/results.ts:369-411 | when all callbacks have ended the batch is done, the count is n and exactly one sent process_finished |
| BatchCounting.NothingCountsWhileStopped | src/modules/results/results.ts:32-32 | in every interleaving, while the status reads paused, cancelling, cancelled or done, a callback that arrives is dropped or waits and one that stored its output is not counted |
| BatchCounting.GoesThrough | src/modules/results/results.ts:369-411 | while it reads running or resuming, an arrived callback can go through both checks, is counted, and marks the batch done when its count is the total |
| BatchCounting.FailuresCount | src/modules/batches/batch-state.ts:87-95 | failed_files grows by the failures, in every interleaving |
| BatchProtocol.NoInputLost | src/modules/processing/routes.ts:138-166 | every run, with pause and resume serialised, that ends running and not cancelled, with no budget stop half done (short of the sweeper: with no row in batch_state), none half done at any time of the last resume, and the count below the total or no input counted twice, has for each input an output, an active job, a live dispatcher ahead of it, or a recorded excuse |
| BatchProtocol.LossHasACause | src/modules/processing/routes.ts:43-53 | with nothing assumed about stops, an input of a running batch is lost only if queued rows were removed since resume listed the inputs, a stop wrote its status after the dispatcher was spawned, the batch was cancelled, or an input counted twice filled the count |
| BatchProtocol.RunKeepsApart | src/modules/processing/routes.ts:43-53 | without overlap what disturbed a running batch is a stop half done now, and that shows in the queue's state row until the sweeper removes it |
| BatchProtocol.DoneMeansAllStored | src/modules/results/results.ts:246-253 | done implies that every input has an output, when no input is counted twice |
| BatchProtocol.FullCountIffOnce | src/modules/batches/batch-state.ts:71-80 | a count as high as the total means that every input was counted exactly when none was counted twice |
| BatchProtocol.RunKeepsInv | src/modules/processing/processing.ts:224-257 | the rows are consistent, done is written only with every output stored unless it was early, and what each stage of resume has secured holds over every run |
| BatchLaws.StepObeys | src/modules/processing/processing.ts:224-257 | every action of the batch: which dispatchers, jobs, callbacks, outputs, counts, excuses, status, state row and resume stage it changes, statuses written out, and that nothing else changes |
| BatchLaws.NothingSentWhileStopped | src/modules/processing/processing.ts:250-252 | over every run in which the status stays paused, cancelling, cancelled or done, only dispatchers cleared before still publish, at most the one file each was about to send |
| BatchLaws.NothingAcceptedWhileStopped | src/modules/results/results.ts:246-253 | over every such run an output is stored only for a callback accepted before, and counted only for one past its second check |
| BatchLaws.CancelledTakesNothing | src/modules/results/results.ts:246-253 | after a cancel, while the batch stays stopped, an input without an accepted callback gets no output, one without a callback past the second check is not counted, and nothing is published but by dispatchers cleared before |
| BatchLaws.DispatcherSends | src/modules/processing/processing.ts:224-257 | while the status is running or resuming, a dispatcher that looks can publish the next file ahead of it |
| BatchLaws.DeliveryIsCounted | src/modules/results/results.ts:369-411 | while the status is running or resuming, a delivery of any job handed out can store its output and be counted |
| BatchLaws.BlockedHandsNothing | src/modules/queue/queue.ts:123-138 | from a stop until a resume or the sweeper removes the state row, no job of the batch is handed out |
| BatchLaws.AdvanceIsNext | src/modules/results/results.ts:369-411 | a callback takes the same step in the batch as in the counting model, with the same count and status |
| BatchLimits.LostWhenCountedTwice | src/modules/results/results.ts:386-386 | a run without any stop that counts one input twice ends running and undisturbed, with another input lost |
| BatchLimits.DoneWhenCountedTwice | src/modules/batches/batch-state.ts:79-83 | such a run marks the batch done while an input has no output |
| BatchLimits.LostWhenStoppedInsideResume | src/modules/processing/routes.ts:159-163 | a budget stop within a resume: the batch ends running, its input lost, and after a sweep nothing shows it |
| BatchLimits.LostWhenStopEndsInsideResume | src/modules/processing/routes.ts:43-53 | a stop whose status is written after resume spawned its dispatcher: the batch ends running without a state row, its input lost |
| BatchLimits.LostWhileStopping | src/modules/processing/routes.ts:43-53 | between the halves of a stop the batch runs without its input, and the state row shows it |
| BatchLimits.NeverDoneAfterTurnedAway | src/modules/results/results.ts:385-386 | a run in which every output is stored and nothing is under way, yet no continuation without another delivery marks the batch done |
| BatchLimits.NothingCounts | src/modules/results/results.ts:385-386 | without a delivery nothing is counted and a batch that is not done never gets done |
| Graph.GraphStore.Walk | src/modules/graph/graph.ts:131-188 | the walk ends on every graph, cyclic or not, other requests deleting nodes before each level: it collects nothing outside the least closed set around the root in the graph as it was, and all of that set but what some node that went away takes along |
| Graph.GraphStore.DeleteNode | src/modules/graph/graph.ts:113-217 | whatever nodes other requests delete before each level and each delete statement, only nodes of the cascade are deleted, and all but what went away takes along; afterwards exactly what was deleted is missing, every other node is as it was, and an edge or membership row stays, as often as it was there, exactly when both its ends do; if what went away took everything along, the whole cascade is gone, and undisturbed exactly the cascade is, its size being the number reported |
| Graph.GraphStore.DeleteChunk | src/modules/graph/graph.ts:203-212 | with a missing record or without: exactly the nodes of the chunk go, and just the rows at them |
| Graph.UpstreamIsKept | src/modules/graph/graph.ts:131-188 | for every root but a desk, given a stage function: nothing the root was made from, and nothing a process or set process read, however far up, is deleted |
| Graph.NoDanglingReference | src/modules/graph/graph.ts:131-188 | no delete of any node leaves a reference to a deleted file exactly when every reference goes with its own file |
| Graph.DerivedReferenceGoes | src/modules/nodes/nodes.ts:354-356 | a reference derived from its file goes with it |
| Graph.SearchReferenceDangles | src/modules/nodes/nodes.ts:295-301 | a search's reference, derived from the searched set, stays when its file alone is deleted |
| Graph.WithoutTwice | src/modules/graph/graph.ts:203-212 | deleting in chunks is deleting at once |
| Grouping.GroupByRootSource | src/modules/processing/grouping.ts:39-96 | the batched search and the walk give the groups of the reference definition, on every lineage |
| Grouping.Search | src/modules/processing/grouping.ts:50-71 | after at most 40 levels every input's first 40 ancestors are read, with first parents and types |
| Grouping.FindRoot | src/modules/processing/grouping.ts:75-86 | the guarded walk ends with the file's root |
| Grouping.RootIsTheRoot | src/modules/processing/grouping.ts:35-38 | the root is the topmost PDF, else the topmost non-ZIP node, among the first 40 of the file's own first-parent chain, and there is exactly one |
| Grouping.GroupsPartition | src/modules/processing/grouping.ts:73-95 | one group a root, none empty, each file with its own root, and all distinct inputs in some group |
| Grouping.GroupsLoad | src/modules/processing/grouping.ts:73-95 | for any set of roots their groups hold exactly the files with those roots |
| Grouping.GroupsMean | src/modules/processing/grouping.ts:73-95 | each group holds exactly the entries with its root, has the type and title of the root where these are known and of its first entry otherwise, and groups and the files in them are in the order of their titles |
| Grouping.LastFileCounts | src/modules/processing/grouping.ts:41-45 | of several listed files with one rid the last counts |
| Grouping.FirstOccursFirst | src/modules/processing/grouping.ts:41-45 | the entries keep the order in which their rids first occur |
| Dispatch.SortedByPage | src/modules/processing/grouping.ts:24-33 | the order of pages and names is total, and sorting keeps every file |
| Dispatch.ManyToOneGroups | src/modules/processing/grouping.ts:108-125 | the groups of the run in all its branches, and in each of them page before no page, by page number, then by name |
| Dispatch.SortFilesOrders | src/modules/processing/grouping.ts:24-33 | the sort puts pages first, by number, then names, keeps every file, and leaves files that tie in their order |
| Dispatch.DecisionMeans | src/modules/processing/grouping.ts:98-106 | a run is grouped unless a setting says no, and without a setting unless it is a search; it was asked for exactly when some setting says so |
| Dispatch.SplitExactly | src/modules/processing/grouping.ts:108-125 | a run is split exactly when that is enabled, some group's source is an input, and it was asked for or one of these groups is that of a PDF |
| Dispatch.GroupsAre | src/modules/processing/grouping.ts:108-125 | a split run is exactly the groups whose source is an input, in the order of their titles, and last the files whose root is no input, if any; another run is one group of all files without a source |
| Dispatch.GroupsInPageOrder | src/modules/processing/grouping.ts:122-122 | every group of every run is in page order |
| Dispatch.GroupingConserves | src/modules/processing/grouping.ts:108-125 | the groups are a permutation of the input exactly when the run is not split or no grouped file is listed twice |
| Dispatch.DistinctFilesAreKept | src/modules/processing/grouping.ts:108-125 | files with distinct rids are all kept |
| Dispatch.DispatchGroups | src/modules/processing/processing.ts:286-330 | what was published is a first part of the whole dispatch, cut exactly at the first stopped status |
| Dispatch.GroupedRunConserves | src/modules/processing/processing.ts:286-330 | one message a file, counted 1..n of n, and exactly one message per group that ends it |
| Dispatch.MessageAt | src/modules/processing/processing.ts:286-330 | the message of each file of each group: its place in the group and the group's size, the group's source, and its place in the batch |
| Dispatch.GroupSentInPageOrder | src/modules/processing/processing.ts:286-330 | of two messages of one group the one with the lower number is of the file that comes first |
| Dispatch.NoGroupEmpty | src/modules/processing/grouping.ts:108-125 | a run over files has no empty group |
| Dispatch.DispatchBatchFiles | src/modules/processing/processing.ts:224-257 | what was published is a first part of the whole dispatch, cut exactly at the first stopped status, and the count is its length |
| Dispatch.BatchSendsFile | src/modules/processing/processing.ts:224-257 | every file that still exists is sent under the number of its place |
| Dispatch.BatchSendsOnly | src/modules/processing/processing.ts:224-257 | nothing else is sent, and the numbers only grow |
| Dispatch.ResumeContinues | src/modules/processing/processing.ts:511-520 | a resumed dispatch sends exactly the existing inputs without an output, numbered on from the count, files that are gone using up a number; the numbers reach the total exactly when the count equals the number of inputs with an output |
| Dispatch.PendingInOrder | src/modules/processing/processing.ts:511-520 | the files a resume sends keep the order of the listing |
| TagTable.RunKeepsGood | src/modules/tags/tags.ts:276-379 | over every run, desks marked and unmarked at any time, whose renames and drops of desks are safe: one human tag per owner, type and label on every desk, whole tables, and no machine tag without links but those made and not linked yet |
| TagTable.RunKeepsLive | src/modules/tags/tags.ts:794-815 | over every run that unmarks no desk, any rename allowed, the live desks keep one human tag per owner, type and label |
| TagTable.StepKeepsDesk | src/modules/tags/tags.ts:276-890 | desk by desk, an operation keeps one tag of each label exactly when it is not a rename that clashes on that desk |
| TagTable.StepKeepsGood | src/modules/tags/tags.ts:549-890 | an operation keeps the vocabularies of all desks, link integrity and a desk for every human tag exactly when it is safe: a rename that finds the label on no desk of the tag, deleting or not, or a drop of desks that leaves no human tag's link behind; all others always are |
| TagTable.DropDesksWhole | src/modules/tags/tags.ts:879-890 | dropping vocabularies leaves the tables whole exactly when no human tag that stays is linked on those desks |
| TagTable.StepOrphans | src/modules/tags/tags.ts:549-609 | linking, unlinking and every kind of removal leave no new machine tag without links |
| TagRows.StepChanges | src/modules/tags/tags.ts:276-890 | for every operation, exactly which tags, places, links and marks are there afterwards, and that the others are as they were |
| TagTable.DeskDeletion | src/modules/graph/graph.ts:190-201 | dropping a desk's links and then its vocabulary removes the vocabulary and just the human tags that were only there, and leaves all good exactly when no human tag that stays is linked on the desk to a node that was not deleted |
| DeskDeletes.DeletionKeepsTags | src/modules/graph/graph.ts:190-201 | the graph's cascade composed with the tag tables: when every link on a deleted desk is of a node stored on it, deleting any node leaves the tags good, no link to what was deleted, and no machine tag without links |
| DeskDeletes.DeskTakesItsNodes | src/modules/graph/graph.ts:170-188 | everything stored on a desk of the cascade is in the cascade |
| TagTable.RenamedWhileDeleting | src/modules/graph/deletes.ts:66-71 | a run of mark, rename and unmark that ends with two equal tags on a live desk |
| TagStore.TagStore.CreateEntity | src/modules/tags/tags.ts:276-302 | refuses nameless tags, returns the desk's human tag if there is one, else makes one and adds it to the vocabulary; nothing else changes |
| TagStore.TagStore.FindEntityForDesk | src/modules/tags/tags.ts:327-341 | the desk's human tag, else a machine tag of the user, else nothing, exactly when there is none |
| TagStore.TagStore.AttachToDesk | src/modules/tags/tags.ts:183-190 | adds the vocabulary row exactly when the desk does not list the tag |
| TagStore.TagStore.Link | src/modules/tags/tags.ts:549-562 | links exactly when the tag and the target are the user's and a human tag is on the target's desk; the link is new exactly when none has its key, and nothing else changes |
| TagStore.TagStore.CreateTagLink | src/modules/tags/tags.ts:510-546 | inserts exactly when there is no link of that tag, target, region and maker |
| TagStore.TagStore.Unlink | src/modules/tags/tags.ts:564-574 | a link stays exactly when it is not of this tag and this target without a region; the tag goes exactly when it is a machine tag left without links, and no other tag and no vocabulary changes |
| TagStore.TagStore.RemoveLinksOf | src/modules/tags/tags.ts:588-598 | in chunks and tag by tag, exactly the links of the targets go, and the machine tags that lose their last link with them |
| TagStore.TagStore.RemoveMachineLinksOfRun | src/modules/tags/tags.ts:600-609 | exactly the machine links of the target with the given service, task and model go, parts not given fitting any, and the machine tags that lose their last link with them |
| TagStore.TagStore.Rename | src/modules/tags/tags.ts:794-815 | renames the user's human tag, and nothing else, unless another one of its type on a live desk of it has the label; keeps the live vocabularies, and those of all desks exactly when the label is free on every desk of the tag |
| TagStore.TagStore.CreateInDesk | src/modules/tags/tags.ts:818-825 | afterwards the desk has the tag; an existing one is not made again |
| TagStore.TagStore.ImportIntoDesk | src/modules/tags/tags.ts:828-849 | every chosen human tag ends on the desk or the desk has another of that label; only attaches chosen tags |
| TagStore.TagStore.ImportTags | src/modules/tags/tags.ts:841-848 | each row is imported, skipped or in conflict, each check seeing the ones before |
| TagStore.TagStore.RemoveFromDesk | src/modules/tags/tags.ts:852-866 | the tag leaves the desk with its links there, and goes exactly when it was its last desk |
| TagStore.TagStore.DeleteEverywhere | src/modules/tags/tags.ts:869-876 | the tag, its links and its places are gone |
| TagStore.TagStore.RemoveDeskTags | src/modules/tags/tags.ts:879-890 | tag by tag, the same as dropping the vocabularies and the tags only those desks had, with the exact condition under which the tables stay whole |
| TagStore.TagStore.CreateEntitiesAndLink | src/modules/tags/tags.ts:362-379 | afterwards the target has every named tag of the list whose type the user has; all that happens is creations of listed tags on the desk and links by hand of the target |
| MachineTags.AtMostOneMachineTag | src/modules/tags/tags.ts:343-359 | from a service just started, in every interleaving with failures, prunes and any changes of human tags, calls for the name being for one desk and for other names on any: at most one machine tag of the owner, type and label |
| MachineTags.StepMeans | src/modules/tags/tags.ts:327-359 | every step: a piece of work ends with a tag it found or made, or with none after a failure, for good; machine tags come by creation and go by pruning; a caller joins the running work of its key or starts new |
| MachineTags.CallersShare | src/modules/tags/tags.ts:327-359 | in any stretch of the service's life in which the callers' desk has no human tag of the name and no machine tag of the name is pruned, all callers served by work of that stretch get the same tag, the only machine tag of the name |
| MachineTags.CallersShareUnlessSeen | src/modules/tags/tags.ts:334-359 | the same asking only that no lookup for the name finds a human tag |
| MachineTags.HumanBetweenCalls | src/modules/tags/tags.ts:335-338 | a run in which a human tag is put on the desk between two calls and the callers get different tags |
| MachineTags.PrunedBetweenCalls | src/modules/tags/tags.ts:577-585 | a run in which the tag is pruned between two calls and the callers get different tags |
| MachineTags.TwoDesksTwoTags | src/modules/tags/tags.ts:349-349 | two desks can each create the same machine tag |
| TagQueries.FilesWithAll | src/modules/tags/tags.ts:412-430 | from the tag with the fewest rows, in chunks and with early exits, exactly the targets with a link to every tag, each once |
| TagQueries.Narrow | src/modules/tags/tags.ts:420-426 | the chunked question keeps exactly the targets that have the tag |
| TagQueries.FileRidsWithEntities | src/modules/tags/tags.ts:434-445 | all or any of the tags, each file once and sorted |
| Filters.TagFilter | src/modules/filters/filters.ts:63-114 | the matched files are exactly the set's files that mean the mode: all, any, none of the criteria, or untagged; the refusals and why |
| Filters.Pick | src/modules/filters/filters.ts:113-113 | comparing the number of criteria picks exactly the files that have all |
| Filters.CriteriaCount | src/modules/filters/filters.ts:86-86 | the number compared with is the number of different criteria |
| Filters.ModesFit | src/modules/filters/filters.ts:112-113 | exclude is the complement of or, and implies or, and one criterion makes them equal |
| Filters.RoiCriteria | src/modules/filters/filters.ts:157-167 | the complete items, one a key |
| Filters.RoiSources | src/platform/solr/solr.ts:302-324 | the answer is about the asked files and keys only |
| Filters.RoiKeyRoundTrip | src/platform/solr/solr.ts:89-96 | a key reads back exactly when service, task and model have no bar |
| ArcadeClient.ReadByRids | src/platform/arcade/client.ts:233-262 | the rows of the existing distinct rids in first-occurrence order, whichever chunks fell back; fails exactly when a statement it sends is refused |
| ArcadeClient.ReadChunk | src/platform/arcade/client.ts:246-259 | a chunk and its records one by one give the same rows |
| ArcadeClient.FailsMeans | src/platform/arcade/client.ts:246-259 | a read fails exactly when one of its statements over 500 records is refused, or, where a record of these is missing, one over a single record |
| ArcadeClient.CleanMeans | src/platform/arcade/client.ts:234-244 | each valid rid once, nothing else, in the order of first occurrence |
| Ids.HashIsOptional | src/platform/ids.ts:11-26 | a rid reads the same with and without the hash |
| Ids.TryRidMeans | src/platform/ids.ts:11-26 | a text is a rid exactly when it is a digit pair with or without the hash, blanks around it aside, and its normal form is the pair with the hash |
| Queue.JobQueue.Publish | src/modules/queue/queue.ts:160-174 | a new queued row with the next id, the requested, configured or default number of tries, and nothing else changed |
| Queue.JobQueue.Heartbeat | src/modules/queue/queue.ts:229-234 | extends the lease of a running job its adapter holds, and changes nothing else; anyone else's call changes nothing |
| Queue.JobQueue.Drain | src/modules/queue/queue.ts:339-342 | removes exactly the queued rows of a process or batch and counts them; running rows stay |
| Queue.JobQueue.PauseBatch | src/modules/queue/queue.ts:344-347 | the state row and the removal of exactly the queued rows, running ones staying, as one step |
| Queue.JobQueue.ResumeBatch | src/modules/queue/queue.ts:349-352 | exactly the state row of the batch goes and no job changes |
| Queue.JobQueue.CancelJob | src/modules/queue/queue.ts:365-370 | an active job becomes cancelled, keeping who held it; any other is left as it is |
| Queue.JobQueue.Dismiss | src/modules/queue/queue.ts:442-449 | all active rows of a process or batch become cancelled, and no other row changes |
| Queue.JobQueue.Flush | src/modules/queue/queue.ts:380-387 | removes exactly the rows of a topic and of its batch twin, whatever their status, and counts them |
| Queue.JobQueue.CleanupOlderThan | src/modules/queue/queue.ts:453-459 | removes exactly the rows of these statuses, running aside, older than the limit, and counts them |

## Left out

- SQLite, ArcadeDB, Solr, HTTP, SSE, files and directories: each statement is one step on maps, sets and sequences, and a storage error in the middle of an operation is not modelled.
- Payload JSON, message shapes, thumbnails, metadata, `claimed_at` and `last_error`: fields that decide nothing here.
- The auto-abort percentage is compared as an exact fraction, where the code divides in floating point.
- Ties in ORDER BY: the database may break them either way; the windows of claim, auto-abort and the panel are any that fit the query.
- The order in which the jobs panel lists its entries.
- `total_time_sec`, averages and ETA: floating point, and written back from a snapshot, so they are not kept under interleaving.
- BatchProtocol.NoInputLost: takes pause and resume requests of one batch as not overlapping, because resume ends by writing `running` unconditionally; its other conditions are each needed (BatchLimits) and concern budget stops, cancels and double counts.
- BatchProtocol.DoneMeansAllStored: asks that no input is counted twice (BatchLimits.DoneWhenCountedTwice); a batch that is done has a full count, so the count alone cannot tell.
- Cancelling a batch is one step of the batch protocol, where the code writes `cancelling`, drains the queue and then writes `cancelled`; the results about inputs exempt a batch from the moment its cancel begins.
- The sweeper of the batch protocol has no clock: it may remove a state row at any time when no job of the batch is active.
- QueueOutcomes.ClaimBound: only for runs in which no lease expires; a reclaim after expiry is not checked against `max_attempts`.
- QueueBatches.AbortedBatchDrains: for batches whose jobs name the batch as their own process, the form in which set runs are published (see RequeuedDespiteAbort for the others).
- A publisher or dispatcher that throws: the error is logged and the rest of its files wait for a resume.
- `handleDone`, jobs that make no output, callbacks with several outputs, and the retry guard of finished groups.
- Incremental counters and the `creating` map are modelled as step relations on values, because requests interleave between their statements; the other stateful parts are classes.
- Two tag requests that interleave between their own statements: tag operations are one step each, except the creation of machine tags; two simultaneous creations of one human tag can both pass the check.
- Machine tags made by the link request (`created_by: machine`) at the same time as autotag.
- Graph.UpstreamIsKept: assumes the stage function, as processes sit between what they read and what they write; the database does not check it.
- The queue of the delete walk is a set per level, as the code makes it before use; the directories and search documents that go with the nodes are not modelled.
- Graph.GraphStore.DeleteNode: other requests delete before each level of the walk and before each delete statement, not between the reads of one level.
- The lookup of a desk's human tag is one step in `MachineTags`, where the code reads the tags of the name and then asks for each whether the desk has it.
- TagStore.TagStore.CreateEntity: a human tag is created with a desk, as all routes do; the service itself would make one without.
- Names and labels are ranks in the language's order where only the order matters (`localeCompare`); record ids compare as text.
- TagQueries.FileRidsWithEntities: the list of tags is taken without repeats, as `ridList` makes it, and pages are not modelled.
- Paging inside one search-index query, and the set, process and reference files the filter makes from its matches.
- Token budgets, settings, prompts, semantic search, service matching, authentication and the other routes.
