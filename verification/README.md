# xaytune control plane: a verified model

A Dafny model of the parts of xaytune that the rest of its control plane trusts, with proofs of what they
promise. Each module follows one component and reads like it: loops that update state are methods with
invariants, proved against a specification; expressions and recursions are functions; the protocols, where
several processes and crashes interleave, are state machines over their atomic steps, and what is proved
about them is proved of every reachable state and every run.

| File | Component |
|---|---|
| `Encoding.dfy` | the canonical typed encoding behind every fingerprint |
| `Freezing.dfy` | deep freezing and thawing, and their agreement with the encoding |
| `CheckpointStore.dfy` | staging and publishing checkpoint bundles, with racing writers and crashes |
| `CheckpointInvariant.dfy`, `CheckpointSafety.dfy` | what each of its steps keeps, and what every run guarantees |
| `CheckpointProgress.dfy` | what staging and committing achieve when nothing disturbs them |
| `Mailbox.dfy` | the daemon's mailbox, lease and rest protocol |
| `MailboxInvariant.dfy`, `MailboxSafety.dfy` | what each of its steps keeps, and what every run guarantees of requests and the lease |
| `MailboxRest.dfy`, `MailboxFailure.dfy` | when a rest is recorded, dropped and answered; what a FAILED request may have recorded |
| `MailboxProgress.dfy` | what taking and giving up the lease, listing requests and waiting come to |
| `Server.dfy` | one uninterrupted pass of the daemon over its mailbox, as code |
| `Heartbeat.dfy` | renewing the lease against a clock |
| `Trajectory.dfy`, `Chunks.dfy` | the evidence of an agent run: its causal structure, its counts, its chained chunks and manifest |
| `Schema.dfy`, `SchemaCheck.dfy` | the closed response-schema subset: what a schema means, the checker of answers and the checker of schemas |
| `SchemaMeaning.dfy`, `SchemaReasons.dfy`, `SchemaReports.dfy` | what both come to on the keywords themselves; for which reasons a schema is refused, and what is reported of an answer |
| `Packing.dfy` | next-fit sequence packing |
| `Pipeline.dfy`, `PipelineMeaning.dfy` | the stage runner and resuming it; which stages run, on which models |
| `Ids.dfy` | sortable typed identifiers |
| `Lineage.dfy`, `LineageMeaning.dfy` | resolving a training attempt from its recorded overrides; what is accepted and what the plan carries |
| `Disclosure.dfy`, `DisclosureMeaning.dfy` | aggregating a harness run and what its released report reveals; what it says |
| `Summaries.dfy` | the replicates of a candidate, and summarizing them |
| `Comparability.dfy`, `Comparison.dfy` | whether two candidates may be compared, and comparing them |
| `ComparabilityMeaning.dfy`, `ComparisonMeaning.dfy` | the conditions and the verdicts on the runs and the numbers themselves |
| `Util.dfy` | `Option` and `Result` |

`dafny verify dfyconfig.toml` checks everything.

## What is taken as given

- A digest is a function, injective where a result says so (`CollisionFree`, `Faithful`, the hypothesis of
  `FingerprintIdentifies`). JSON rendering is a function that parsing inverts and that writes no newline;
  the `repr` of a float is an injective token over `0-9 . e + -`. A schema's number comparisons get a
  float's number from a parameter.
- Integers have at most as many digits as the interpreter converts to text (4300 by default) and strings hold
  no lone surrogate: `deep_freeze` accepts both, and encoding them raises.
- The file system of the checkpoint store: a rename is atomic; syncing a directory makes what is in it, and
  what left it, durable; a crash returns a directory to where it was last synced or leaves it where it is,
  keeps what was synced of its contents and may change anything else. `mkdtemp` returns a fresh directory.
- The daemon's storage, by the contracts `daemon/server.py` states: admission is one transaction, a request
  changes by compare-and-set on its revision, a write by a controller whose lease is not current and live
  is refused whole, and a new lease owner is the next epoch and never takes a live lease. Recording an
  intent under an identity already recorded for the same experiment and content finds it and is not refused;
  a proposal is first put to the experiment's runtime, and is refused before the record is asked if the
  session's configuration cannot judge it. Which proposals it can judge is fixed for a session. A rest that
  is on record already is not written again by the storage; the model's log names each time one is recorded.
  What the controller, a runtime or a plugin answers, when the lease expires, when observers record events
  and when a session crashes are free choices of the model. Code between two awaits is one step; a
  compare-and-set is separated from the read before it, since another process may write in between.
- Storing a stage's metrics as JSON with `default=str` gives back what JSON holds and another value for the
  rest, always the same one: a list for a tuple, string keys for others, its text for what JSON cannot hold.
- What an evaluation's configuration parses to; that `assign_tasks` lists members of the suite in manifest order.
- Means and deviations are over `real`. The square root is any function that is positive on positive numbers
  and nowhere negative.

## Where the code and what it promises differ

- **A recorded proposal can be FAILED.** `daemon/server.py:29` says nothing fails a request once its intent is
  recorded. Recording a proposal again asks the experiment's runtime before it finds the one recorded
  (`experiment/host.py:759-761`), so a daemon restarted with a configuration that lacks this runtime refuses
  it, and fails a request whose intent is on record: `MailboxFailure.FailedRecordedRun` is such a run.
  `MailboxFailure.FailedRecordsNothingExactly`: over all runs of daemons started with given configurations, no
  FAILED proposal has recorded anything if and only if the configurations agree on whether they can judge it.
  Cancellations, approvals and rejections are not affected (`MailboxFailure.FailedOnRecord`).
- **A rest can be dropped.** `_rest_when_settled` says something will record the next rest, and `_rest` that
  the end of the work under way starts the next wait (`daemon/server.py:611-640`). A wait that fails is logged
  and not repeated (`daemon/server.py:645-648`), and a sweep that fails starts none
  (`daemon/server.py:447-454`), so an experiment whose request has completed can be left with no recorded
  rest and nothing waiting for one: `MailboxRest.FailedWaitDropsRest` and `MailboxRest.FailedSweepDropsRest`
  are such runs. `MailboxRest.RestNotLost` is exact: after a session's work on an experiment, and until it
  takes it up again, the rest is awaited or recorded if and only if the work was not a sweep that failed with
  no wait pending, and no wait has failed since.
- **Ids before the epoch.** An id minted while the clock reads before the epoch encodes its negative
  millisecond as the largest one, and sorts last: `Ids.OutOfOrder` is a pair out of order. `Ids.OrderExactly`:
  string order is creation order if and only if the first reading is not before the epoch, or all readings are
  and there are fewer than 2^80.
- **One evaluated task.** With a single task `aggregate` withholds the score, but what it withholds tells it:
  the successful-tasks slice is named only after a success (`Disclosure.OneTaskTold`). By
  `Disclosure.ReportRevealsExactly` the reports of a success and a failure are equal if and only if no
  requested execution metric has a value on that task.
- **Resumed metrics.** A resumed run holds the metrics of the stages it did not run as the state file gives
  them back. `Pipeline.ResumeRefinesUninterruptedRun`: its results are those of the uninterrupted run if and
  only if these metrics are values JSON gives back; its state file is that run's in any case.

## Model

| member | source | states |
|---|---|---|
| Encoding.EncodesExactly | xaytune/core/fingerprint.py:64-138 | encoding raises exactly on values outside the declared domain, at any depth |
| Encoding.Unambiguous | xaytune/core/fingerprint.py:64-123 | an encoding followed by anything that may follow a value determines the value and the rest of the text, though encodings are not prefix-free |
| Encoding.ItemsUnambiguous | xaytune/core/fingerprint.py:97-123 | the same for the elements of a sequence: their number and each of them can be read back |
| Encoding.NamedUnambiguous | xaytune/core/fingerprint.py:97-123 | the same for the sorted entries of a mapping |
| Encoding.AscendingUnique | xaytune/core/fingerprint.py:97-123 | a set of keys has exactly one ascending order, so insertion order cannot show |
| Encoding.StrUnambiguous | xaytune/core/fingerprint.py:64-96 | a length-prefixed string can be read back whatever characters it holds and whatever follows |
| Encoding.SameEncodesEqually | xaytune/core/fingerprint.py:64-138 | the same typed value encodes equally, whatever the container classes and the order of insertion |
| Encoding.EncodingIdentifies | xaytune/core/fingerprint.py:47-138 | two encodable values encode equally if and only if they are the same typed value (`True`, `1` and `1.0` are three values) |
| Encoding.FingerprintIdentifies | xaytune/core/fingerprint.py:37-61 | with a collision-free digest, fingerprints are equal if and only if the typed values are the same |
| Encoding.TextIs | xaytune/core/fingerprint.py:64-78 | the stored text of every scalar: its tag, and numbers and lengths in decimal without leading zeros |
| Encoding.SequenceText | xaytune/core/fingerprint.py:118-119 | a sequence of any class is the texts of its items in order, joined by commas, in brackets |
| Encoding.MappingText | xaytune/core/fingerprint.py:93-104 | a mapping is its keys and values in order of the keys, joined by commas, in braces |
| Freezing.FreezeFreezes | xaytune/core/immutable.py:153-193 | freezing succeeds exactly on encodable values, returns something frozen all the way down, and changes container classes only |
| Freezing.FreezeIdempotent | xaytune/core/immutable.py:153-193 | freezing what was frozen returns it unchanged |
| Freezing.FreezingKeepsIdentity | xaytune/core/immutable.py:153-193 | freezing and encoding accept the same values, and freezing leaves the encoding as it was |
| Freezing.ThawInvertsFreeze | xaytune/core/immutable.py:196-204 | thawing after freezing gives back the value up to container classes, and exactly the value if it was plain |
| Freezing.ThawIsPlain | xaytune/core/immutable.py:196-204 | thawing leaves nothing but dicts and lists if and only if there is no sequence of another class inside |
| CheckpointSafety.CommittedIsComplete | xaytune/checkpoints/store.py:86-143 | in every run of racing writers with crashes between any two steps, whatever is in the committed directory is a durable, complete bundle matching its own manifest, under its own id, once per id |
| CheckpointSafety.AcknowledgedSurvives | xaytune/checkpoints/store.py:114-176 | a reference `commit` returned stays durably committed and unchanged in every later state, crashes included, and `get` finds it |
| CheckpointSafety.OneDigestPerId | xaytune/checkpoints/store.py:114-164 | all acknowledgements of one id, by any writer in any session, name one manifest digest: nothing published is ever replaced |
| CheckpointSafety.RetryAcknowledged | xaytune/checkpoints/store.py:118-121 | repeating an identical commit whose answer was lost after the rename is acknowledged |
| CheckpointSafety.ConflictRefused | xaytune/checkpoints/store.py:156-164 | committing another manifest under a published id is refused and changes nothing |
| CheckpointProgress.PutStages | xaytune/checkpoints/store.py:86-112 | staging content that its manifest describes, undisturbed, hands out a reference to a durable bundle of exactly this content, and changes nothing else |
| CheckpointProgress.MismatchCleared | xaytune/checkpoints/store.py:86-111 | what was staged and does not verify is cleared away, and no reference is handed out |
| CheckpointProgress.CommitPublishes | xaytune/checkpoints/store.py:114-143 | from any state, committing a whole staged bundle under a free id, undisturbed, checks, inspects, renames and syncs it: it ends durably committed, unchanged and acknowledged |
| CheckpointProgress.CommitRefuses | xaytune/checkpoints/store.py:122-133 | staging that is gone, incomplete, under another id or of another digest is refused, and nothing changes |
| CheckpointProgress.ReplayDiscarded | xaytune/checkpoints/store.py:118-154 | a bundle staged again under an id that has the same one is discarded, and the commit is acknowledged |
| CheckpointProgress.LostRename | xaytune/checkpoints/store.py:134-140 | a writer that loses the rename to another moves nothing, and compares with the winner |
| CheckpointProgress.CompleteExactly | xaytune/checkpoints/_files.py:46-52 | a bundle verifies exactly if its manifest reads, names the id and describes what is there: no file more or less, each by size and digest |
| CheckpointProgress.UnsyncedLost | xaytune/checkpoints/store.py:72-74 | until every file, the manifest and every directory is synced, a crash may leave anything of a bundle |
| CheckpointProgress.AnythingPublished | xaytune/checkpoints/store.py:86-143 | from the empty store, any content and manifest that describes it can be published: some run ends with it durably committed and acknowledged |
| CheckpointInvariant.NextKeepsInv | xaytune/checkpoints/store.py:86-164 | every step of every writer, and a crash at any point, keeps the store's invariant and everything durably committed |
| CheckpointInvariant.BuildOk | xaytune/checkpoints/store.py:86-108 | each step of staging extends what is already copied, flushed, verified and synced, so that the bundle is stable when staging returns |
| CheckpointInvariant.RenameKeepsInv | xaytune/checkpoints/store.py:131-140 | the rename of a complete synced bundle under an id nothing was published under keeps the invariant; what it publishes is `CheckpointProgress.CommitPublishes` |
| CheckpointInvariant.DoomKeepsInv | xaytune/checkpoints/store.py:145-154 | a replay's staging is discarded only while the same manifest is durably published |
| CheckpointInvariant.DoomedRenaming | xaytune/checkpoints/store.py:131-154 | whatever has been removed of a discarded staging directory, a writer that had already verified it can no longer publish it |
| MailboxSafety.AdmittedOnce | xaytune/daemon/server.py:492-517 | over any number of sessions a submit request admits at most one experiment, an experiment is admitted once, and an intent is recorded once |
| MailboxSafety.StateTellsEffect | xaytune/daemon/server.py:492-556 | a submission is ACCEPTED or COMPLETED if and only if its experiment was admitted; a FAILED request admitted nothing, and recorded an intent only if it is a proposal; a COMPLETED action's intent is on record with its own content; and a COMPLETED request of any kind, an attach too, has its experiment |
| MailboxFailure.FailedRecordsNothingExactly | xaytune/daemon/server.py:534-590 | over all runs of daemons started with any of the given configurations, a FAILED proposal has recorded nothing if and only if these configurations agree on whether they can judge it |
| MailboxFailure.FailedOnRecord | xaytune/daemon/server.py:534-609 | a FAILED request has its intent on record if and only if one session that could judge it recorded it and another that could not failed it; it is then a proposal |
| MailboxFailure.FailedRecordedRun | xaytune/experiment/host.py:738-775 | the run: recorded, a crash before completion, and a restart whose configuration cannot judge the proposal, for any two such configurations |
| MailboxSafety.TerminalStays | xaytune/daemon/server.py:492-556 | FAILED and COMPLETED requests never change again, and ACCEPTED becomes nothing but COMPLETED |
| MailboxSafety.PassFinishes | xaytune/daemon/server.py:459-490 | at the end of a pass every request it looked at is finished or was left for a later pass, whatever other sessions, clients and crashes did meanwhile |
| MailboxSafety.LeftOnlyByError | xaytune/daemon/server.py:471-490 | while the lease is held, a step leaves a request only by a transient error, or by a refusal where a refusal can no longer fail it |
| MailboxSafety.PassLooksAtAll | xaytune/daemon/server.py:459-469 | a pass looks at exactly the unfinished requests, each once |
| Server.Daemon.Process | xaytune/daemon/server.py:471-609 | carrying out a request without a transient error ends it with the status, the controller calls in their order, and the admissions and records that its kind, what is on record and the refusals determine: an attach is COMPLETED if and only if its experiment exists and is adopted, and else FAILED; other requests are left alone, and a wait for its experiment's rest is pending |
| Server.Daemon.ProcessRequests | xaytune/daemon/server.py:459-469 | one pass with no transient error leaves no unfinished request, and a rest is awaited for every experiment it touched |
| Server.StepForward | xaytune/daemon/server.py:471-556 | every step without a transient error brings a request nearer to its end, and the end finishes it |
| MailboxSafety.EpochsNeverGoBack | xaytune/daemon/server.py:304-369 | committed controller writes carry epochs that never go back, and one epoch's writes are all one session's |
| MailboxSafety.NoWriteAfterLoss | xaytune/daemon/server.py:304-369 | once a session's lease is lost, expired or released, no later write in any run is its own |
| MailboxSafety.ReleasedOnlyWhenClosed | xaytune/daemon/server.py:350-369 | the lease is released only by its holder, with its rest tasks gone and its controller closed, and never by one that knows it lost it |
| MailboxSafety.ReleasedMeansStopped | xaytune/daemon/server.py:350-369 | while the lease is released its last holder has stopped and had not lost it |
| MailboxSafety.LiveLeaseIsWaitedOut | xaytune/daemon/server.py:371-399 | the epoch changes only when a new session takes a lease that is not live, by one, and no other session is affected |
| MailboxProgress.AcquireExactly | xaytune/daemon/server.py:371-399 | a new session can take the lease if and only if it is not live; then it alone may write, under its own configuration |
| MailboxProgress.RenewalTells | xaytune/daemon/server.py:405-423 | a renewal tells a session that its lease has gone if and only if it has |
| MailboxProgress.Shutdown | xaytune/daemon/server.py:350-369 | a session told to halt cancels its rests, closes its controller and stops, in this order, and gives the lease up if and only if it holds it and never knew it lost |
| MailboxProgress.CrashWritesNothing | xaytune/daemon/server.py:304-369 | a crash stops a session at any moment and writes nothing |
| MailboxProgress.SendExactly | xaytune/daemon/client.py:96-102 | a request is sent once, pending, and sending it touches nothing else |
| MailboxProgress.LookExactly | xaytune/daemon/server.py:459-469 | a pass lists, between requests, exactly the unfinished ones, each once, as they then are |
| MailboxProgress.TakesNext | xaytune/daemon/server.py:459-490 | the next request of the list is taken up, and its experiment is busy from then on |
| Heartbeat.Renewer.Run | xaytune/daemon/server.py:405-423 | the heartbeat stops at the first renewal that comes after expiry, and otherwise holds the lease until a TTL after the last renewal |
| Heartbeat.SurvivesOneFailure | xaytune/daemon/server.py:401-423 | renewing every TTL/3, two turns in a row late by less than TTL/3 together, the lease has expired at a turn if and only if the two renewals before it both failed |
| Heartbeat.LiveThroughout | xaytune/daemon/server.py:401-423 | with no two failed renewals in a row the lease is live at every moment up to the last turn |
| MailboxRest.RestNotWhileBusy | xaytune/daemon/server.py:628-653 | a rest is recorded only by the lease's holder, at the latest event, and never while it is carrying out a request for the experiment or sweeping it |
| MailboxRest.EndLeavesRestPending | xaytune/daemon/server.py:471-490 | when a request ends other than by the daemon stopping, a wait for the rest of its experiment is pending |
| MailboxRest.RestNotLost | xaytune/daemon/server.py:611-653 | over runs, after a session's work on an experiment and until it takes it up again: the rest is awaited or recorded since, never both, if and only if the work was not a sweep that failed with no wait pending and no wait has failed since |
| MailboxRest.WorkEndsPending | xaytune/daemon/server.py:425-490 | work on an experiment, a request or a sweep, ends with a wait pending if and only if it is not a sweep that failed with none pending |
| MailboxRest.FailedWaitDropsRest | xaytune/daemon/server.py:628-653 | a run in which a completed request's experiment is left with no recorded rest and no pending wait, because the wait failed |
| MailboxRest.FailedSweepDropsRest | xaytune/daemon/server.py:425-457 | a run in which a completed request's experiment is left with no recorded rest and no pending wait, because a sweep failed |
| MailboxRest.WaitIsSound | xaytune/daemon/host.py:390-415 | in every reachable state, a non-terminal answer of `wait()` means no request for the experiment is unfinished, no daemon that could still write is carrying one out, and a daemon recorded this rest with no event of the experiment since |
| MailboxRest.RestIsAnswered | xaytune/daemon/host.py:390-415 | once the holder records a rest with no request waiting, the next look returns it, or raises its escalation |
| MailboxProgress.AnswersExactly | xaytune/daemon/host.py:390-415 | `wait()` answers with the result, or raises the escalation, exactly under the stated conditions |
| MailboxProgress.RestGoesStale | xaytune/daemon/host.py:390-415 | a new event of the experiment, or a new request for it, makes a recorded rest out of date: the wait goes on |
| MailboxProgress.SweepRests | xaytune/daemon/server.py:425-457 | a sweep keeps its experiment busy while it lasts, and one that succeeds leaves a wait for its rest |
| MailboxInvariant.WorkOk | xaytune/daemon/server.py:471-609 | every step of carrying out a request keeps the protocol's invariant, wherever it may be interrupted |
| MailboxInvariant.FinishOk | xaytune/daemon/server.py:655-666 | only a request for which nothing was admitted is failed, and one whose intent is on record only if it is a proposal the session cannot judge; only one whose effect is on record is completed |
| Trajectory.StructuralRefusals | xaytune/core/trajectory.py:709-751 | no refusal is found if and only if the events are one causal history, and whatever is found is so |
| Trajectory.AcceptedIsATree | xaytune/core/trajectory.py:709-751 | in an accepted history every event reaches `run-started` through its parents, and only `run-started` has none |
| Trajectory.TerminationIsLast | xaytune/core/trajectory.py:709-751 | `run-terminated` occurs at most once, and last |
| Trajectory.FinishesAreInjective | xaytune/core/trajectory.py:709-751 | finishes map one-to-one into earlier starts of their own kind |
| Trajectory.CountsAgree | xaytune/core/trajectory.py:754-773 | for every accepted history: refused plus failed tool calls are at most the tool calls, a tool call implies a turn, turns are at most the model calls, and no turn implies no tokens |
| Trajectory.CountsNext | xaytune/core/trajectory.py:754-773 | the counts are what the events add up to, one by one: each counts as what it is, under its own name |
| Trajectory.HistoryAccepted | xaytune/core/trajectory.py:709-751 | a history with a turn, a served and a refused tool call is accepted |
| Trajectory.HistoryCounts | xaytune/core/trajectory.py:754-773 | and counts as such |
| Trajectory.MayFollowExactly | xaytune/core/trajectory.py:694-706 | which kinds of event may follow which, by their names |
| Chunks.ParseInvertsChunkBytes | xaytune/core/trajectory.py:476-496 | parsing a chunk's bytes gives back its header and its events |
| Chunks.LoadEvents | xaytune/trajectory/verify.py:65-96 | loading finds no problem if and only if every chunk verifies, and then returns exactly their events; whatever it finds is so of some chunk |
| Chunks.ChainIsGapless | xaytune/core/trajectory.py:612-645 | the ranges of a verified chain partition the sequences: its events are numbered 0, 1, 2, ... |
| Chunks.LastDigestCommits | xaytune/core/trajectory.py:612-645 | with a collision-free digest, two verified chains in any two stores with the same last digest have the same number of chunks and the same events |
| Chunks.RollThenLoad | xaytune/trajectory/sealing.py:37-67 | rolling keeps the chain linked and verified, and loading then returns the earlier events followed by the new ones |
| Chunks.RollAdds | xaytune/trajectory/sealing.py:37-67 | in a store whose files are named by their digests, rolling never conflicts; it adds one chunk of exactly the new events after the last, and one file, or without events nothing |
| Chunks.TamperingFound | xaytune/core/trajectory.py:612-645 | with a collision-free digest, text other than what was rolled, or of another length than recorded, never verifies |
| Chunks.MisplacedFound | xaytune/trajectory/verify.py:65-96 | a chunk of another place, chain or trajectory, or with other events than its reference counts, does not verify |
| Chunks.ManifestProblems | xaytune/core/trajectory.py:612-645 | no problem is found if and only if the manifest's chain, table and attestation are consistent, and whatever is found is so |
| Chunks.TableSorted | xaytune/core/trajectory.py:612-645 | a content table equals the sorted set of its keys if and only if it is strictly in order |
| Chunks.ContentReferences | xaytune/core/trajectory.py:543-551 | the loop lists every slot the events name, by event and field |
| Chunks.TableExactly | xaytune/core/trajectory.py:543-551 | the table lists every slot of every event under its own field and its event's number, and nothing else |
| Chunks.TableOfHistory | xaytune/core/trajectory.py:543-551 | the content table of a causal history is always in order, names each slot once, and stays within the recorded events |
| SchemaCheck.SchemaCheckExact | xaytune/agent/schema.py:68-190 | a schema is accepted if and only if it is in the supported subset: an object at the root, structured throughout, every literal satisfying the node it sits on |
| SchemaCheck.NodeExact | xaytune/agent/schema.py:92-98 | checking a node finds no reason if and only if the node is well formed |
| SchemaCheck.ShapeExact | xaytune/agent/schema.py:101-178 | the shape check accepts a node if and only if it is structured and its parts are accepted |
| SchemaCheck.LiteralsExact | xaytune/agent/schema.py:181-190 | the literal check finds nothing if and only if every enum and const value conforms to the node without its own literals |
| Schema.CheckDecides | xaytune/agent/schema.py:193-225 | checking a value finds no violation if and only if it conforms, by recursion over the schema |
| Schema.ExplanationExplains | xaytune/agent/schema.py:228-256 | an answer that matches no alternative is always told of at least one violation |
| SchemaCheck.CheckerSoundAndComplete | xaytune/agent/schema.py:82-256 | for every accepted schema and every answer, there are no violations if and only if the answer conforms to the schema's declarative meaning |
| SchemaMeaning.TypeAlone | xaytune/agent/schema.py:285-298 | what `{"type": name}` alone accepts, type by type: an integer is a number, `1.0` is no integer, a boolean is neither, an object is closed |
| SchemaMeaning.NumberMeans | xaytune/agent/schema.py:274-282 | a number node passes a number within its bounds that its literals allow, and nothing else; an integer node only integers |
| SchemaMeaning.StringMeans | xaytune/agent/schema.py:259-271 | a string node passes a string within its sizes that its literals allow, and nothing else |
| SchemaMeaning.PlainMeans | xaytune/agent/schema.py:193-225 | a boolean or null node passes a boolean or null that its literals allow, and nothing else |
| SchemaMeaning.ArrayMeans | xaytune/agent/schema.py:215-221 | an array node passes a list within its sizes every item of which passes its item schema, and nothing else |
| SchemaMeaning.ObjectMeans | xaytune/agent/schema.py:206-214 | an object node passes a mapping every key of which is declared with a schema its value passes, and that has every required name |
| SchemaMeaning.AnyOfMeans | xaytune/agent/schema.py:193-205 | a node with alternatives passes what its literals allow and one of them passes |
| SchemaMeaning.CouldBeMeans | xaytune/agent/schema.py:245-256 | an answer could be meant as an alternative by its type, and as an object by its `const` properties |
| SchemaMeaning.ExplainsTheMeant | xaytune/agent/schema.py:228-242 | an answer that could be meant as exactly one alternative is told what it violates of that one |
| SchemaMeaning.ExplainsNone | xaytune/agent/schema.py:228-242 | one that could be meant as none is told only that it matches none |
| SchemaMeaning.ExplainsTwo | xaytune/agent/schema.py:228-242 | and so is one that could be meant as two |
| SchemaMeaning.TypedSupported | xaytune/agent/schema.py:92-190 | what the schema check accepts of a node with a type, keyword by keyword |
| SchemaMeaning.AnyOfSupported | xaytune/agent/schema.py:92-190 | what it accepts of a node with alternatives: no type beside them, and each of them accepted |
| SchemaMeaning.UntypedRefused | xaytune/agent/schema.py:101-138 | whatever has neither a type nor alternatives is refused |
| SchemaMeaning.RootSupported | xaytune/agent/schema.py:68-79 | the root is an object |
| SchemaReasons.TypedReasons | xaytune/agent/schema.py:101-178 | for which reasons a node with a type is refused, exactly: its annotations, each keyword it may not have, and what is wrong by its type, in its parts too |
| SchemaReasons.AnyOfReasons | xaytune/agent/schema.py:101-138 | for which reasons a node with alternatives is refused, exactly |
| SchemaReasons.UntypedReasons | xaytune/agent/schema.py:101-122 | for which reasons a node without either is refused, exactly |
| SchemaReasons.LiteralsReasons | xaytune/agent/schema.py:92-98 | a node that is otherwise in order is refused for an `enum` that lists nothing, or for each literal that violates the node without them |
| SchemaMeaning.WithoutLiterals | xaytune/agent/schema.py:181-190 | the node literals are checked against has all its other keywords |
| SchemaMeaning.KeywordIs | xaytune/agent/schema.py:101-138 | a keyword has a value if and only if the node has that entry |
| SchemaReports.OtherTypeReports | xaytune/agent/schema.py:193-200 | an answer of another type is told the type that was expected, and nothing else |
| SchemaReports.ScalarReports | xaytune/agent/schema.py:201-225 | what is reported of a scalar of the right type, exactly: its literals, its size or its bounds |
| SchemaReports.ObjectReports | xaytune/agent/schema.py:206-214 | what is reported of an object, exactly: its literals, each missing required name, each undeclared key, and what the value of each declared one violates |
| SchemaReports.ArrayReports | xaytune/agent/schema.py:215-221 | what is reported of a list, exactly: its literals, its size, and what each item violates |
| SchemaReports.AnyOfReports | xaytune/agent/schema.py:193-205 | what is reported where there are alternatives: the literals if one matches, and else the explanation |
| Packing.PackSequences | xaytune/data/packing.py:6-50 | each block is exactly the whole truncated samples between two cuts, with its tokens first and the padding token after them, and is closed only because the next sample does not fit |
| Packing.FinalizeFinishes | xaytune/data/packing.py:53-70 | a block's mask marks exactly its tokens, its three lists have the block length, and labels are ids where the mask is 1 and ignored elsewhere |
| Packing.TruncateKeepsFront | xaytune/data/packing.py:34 | truncation keeps the front of a sample, as many tokens as a block has |
| Packing.PackingConservesTokens | xaytune/data/packing.py:6-50 | the masked tokens of the blocks, end to end, are exactly the truncated samples in order |
| Packing.NeighboursOverflow | xaytune/data/packing.py:33-48 | two consecutive blocks together hold more than one block's length |
| Packing.NextFitBound | xaytune/data/packing.py:33-48 | if any arrangement of the same samples uses m bins of the block length, next-fit uses at most 2m - 1 blocks |
| Pipeline.RunPipeline | xaytune/pipeline.py:38-116 | the runner, loading and rewriting its state file, computes the specified attempt |
| Pipeline.RunsOn | xaytune/pipeline.py:73-116 | from a stage reached with the results and output of an uninterrupted run, the loop follows that run |
| Pipeline.Skips | xaytune/pipeline.py:73-84 | skipping the recorded stages finds the output the uninterrupted run hands on, even when the last of them recorded none |
| Pipeline.ResumeRefinesUninterruptedRun | xaytune/pipeline.py:38-116 | after any sequence of failures and resumes from the failed stage or an earlier one, every stage gets the model path of an uninterrupted run; a completed try leaves that run's state file and its results, those it read back as JSON gives them, equal if and only if JSON gives their metrics back |
| Pipeline.RereadPlain | xaytune/pipeline.py:260-265 | reading results back from the state file changes nothing if and only if every metric is a value JSON gives back |
| PipelineMeaning.StageRuns | xaytune/pipeline.py:119-227 | a stage runs exactly if it has a model and names a known recipe or export, or evaluates; and where it puts its output |
| PipelineMeaning.RunsAsFar | xaytune/pipeline.py:73-116 | the uninterrupted run gets exactly as far as each stage can run on its model: the one it names, or else what the last stage before it that puts a model anywhere produced |
| PipelineMeaning.HandedIsTheLast | xaytune/pipeline.py:86-100 | what is handed on is what the last stage that produces anything produces |
| PipelineMeaning.Recorded | xaytune/pipeline.py:73-116 | what the uninterrupted run records: every stage, in order, with its kind, output and metrics on its model |
| PipelineMeaning.TryRuns | xaytune/pipeline.py:38-116 | after any failures and resumes, an attempt runs the stages from the one it starts at, in order and each once, on these models, up to the first that fails or cannot run, and completes if there is none |
| Ids.Encode32 | xaytune/core/ids.py:75-80 | the loop writes the last base-32 digits of the value, of a negative one too |
| Ids.DecodeEncode | xaytune/core/ids.py:75-80 | decoding inverts encoding on every value that fits |
| Ids.EncodeDecode | xaytune/core/ids.py:143-150 | encoding inverts decoding on every base-32 text |
| Ids.EncodingOrdered | xaytune/core/ids.py:75-80 | fixed-length base 32 keeps numeric order as string order |
| Ids.AfterRises | xaytune/core/ids.py:83-103 | the generator's state strictly rises, whatever the clock and the draws, across the borrow at random overflow |
| Ids.NeverBehind | xaytune/core/ids.py:83-103 | the stamped millisecond never falls behind a clock reading seen before |
| Ids.StampedExactly | xaytune/core/ids.py:83-103 | an id is stamped with the clock and a drawn number once the clock has moved on, and else counts on from the id before it |
| Ids.IdsSortInCreationOrder | xaytune/core/ids.py:83-103 | over any sequence of clock readings and draws from the epoch on, ids sort in the order they were minted |
| Ids.OrderExactly | xaytune/core/ids.py:83-103 | ids sort in creation order if and only if the first reading is not before the epoch, or all are and there are fewer than 2^80 of them |
| Ids.OutOfOrder | xaytune/core/ids.py:83-103 | a reading before the epoch and one after it mint a pair out of order, whatever is drawn |
| Ids.Generator.NextBody | xaytune/core/ids.py:83-103 | minting moves the module's state by one tick of the specification and returns the body that encodes it |
| Ids.MintedIdIsValid | xaytune/core/ids.py:117-150 | a minted id validates as its own type, and its timestamp is the millisecond encoded |
| Ids.CreatedAtMs | xaytune/core/ids.py:143-150 | the loop decodes the base-32 number in the first ten characters of the body |
| Ids.ValidIdIsMintable | xaytune/core/ids.py:122-141 | a valid id is the one minted for some millisecond and random number: nothing else validates |
| Lineage.ResolveTrainingAttempt | xaytune/compilation/attempt_resolution.py:44-170 | resolution, override by override, computes the specified plan or refusal |
| Lineage.LineageIsTheLanguage | xaytune/compilation/attempt_resolution.py:75-148 | the loop accepts exactly lists of resize pairs, each from the values reached so far, followed by at most one restore |
| Lineage.PairsKeepBatch | xaytune/compilation/attempt_resolution.py:75-148 | the effective batch of the compiled spec survives a lineage of any length |
| Lineage.ResolvedPlanKeepsEffectiveBatch | xaytune/compilation/attempt_resolution.py:44-170 | a resolved plan keeps everything of the compiled spec but the split of the batch, and the effective batch; without a resize it keeps everything |
| LineageMeaning.ResizeTakesEffect | xaytune/compilation/attempt_resolution.py:75-150 | an accepted resize takes effect: the plan has the micro-batch of the last resize and the accumulation of the last adjustment, and is otherwise the compiled one |
| LineageMeaning.NothingResized | xaytune/compilation/attempt_resolution.py:75-150 | without one, the plan has the compiled spec |
| LineageMeaning.ResolvedExactly | xaytune/compilation/attempt_resolution.py:75-156 | resolution succeeds if and only if the overrides are, position by position, resize pairs each moving on from where the last ended and keeping the effective batch, then a restore if and only if the attempt has a checkpoint, of that checkpoint, under no other Action; and the directives are the attempt's own, in order, and go with a restore |
| LineageMeaning.PairsByPosition | xaytune/compilation/attempt_resolution.py:75-122 | the recursive reading of resize pairs and the one by position are the same |
| LineageMeaning.PlanCarries | xaytune/compilation/attempt_resolution.py:150-170 | the plan is for the given runtime and this attempt, and carries the checkpoint, the directives in order and the numerical control under their own names, each exactly if given, and nothing else |
| Lineage.IdentityIgnoresRestoreTarget | xaytune/compilation/attempt_resolution.py:21-41 | the execution identity does not depend on the attempt, the restore target or the directives |
| Lineage.IdentityTellsPlansApart | xaytune/compilation/attempt_resolution.py:21-41 | the execution identity differs whenever the spec, the runtime, the capabilities or a remaining option does |
| LineageMeaning.IdentityExactly | xaytune/compilation/attempt_resolution.py:21-41 | two resolved plans have one execution identity if and only if they agree on the resolved configuration, the runtime, the capabilities and the numerical control |
| Disclosure.AggregateRun | xaytune/core/harness_evaluation.py:713-763 | the loop computes the run values and absence counts: a metric absent on any task has no value, and the successful-tasks slice needs every task scored and one success |
| Disclosure.Disclose | xaytune/evaluation/harness.py:656-677 | every run value is released or withheld, none both, and no slice and no single-task score is released |
| Disclosure.OnlyAggregatesRevealed | xaytune/evaluation/harness.py:616-697 | under `aggregate` the report is the same for any two tables with the same execution observations, as many absences for each reason, and, all scored, as many successes |
| Disclosure.PermutationUnseen | xaytune/evaluation/harness.py:616-697 | permuting which tasks succeeded changes nothing in the report |
| Disclosure.ReportRevealsExactly | xaytune/evaluation/harness.py:616-697 | for any number of tasks, the reports are equal if and only if those counts are, or there is one task, scored in both, on which no requested execution metric has a value |
| Disclosure.OneTaskTold | xaytune/evaluation/harness.py:656-677 | a witness: over one task with a measured metric the released values are the same for a success and a failure, and the withheld names are not |
| DisclosureMeaning.ReleasedExactly | xaytune/core/harness_evaluation.py:713-763 | a value is released if and only if it is the mean, over all tasks, of a metric with a value on every task, and not one computed from the reference over a single task |
| DisclosureMeaning.WithheldExactly | xaytune/evaluation/harness.py:656-677 | what is withheld is exactly a reference-derived value over a single task, and the slice of every other metric that has one |
| DisclosureMeaning.AbsencesExactly | xaytune/core/harness_evaluation.py:729-738 | the absences reported are each metric and reason there is, with the number of tasks |
| DisclosureMeaning.TasksExactly | xaytune/evaluation/harness.py:680-694 | the tasks reported are the tasks, each with its execution observations in order and no other |
| DisclosureMeaning.FailsExactly | xaytune/evaluation/harness.py:617-629 | a report fails exactly when nothing was scored, no metric has a value everywhere, or only values that are withheld do |
| Summaries.SummaryIgnoresOrder | xaytune/core/harness_comparison.py:159-253 | a summary, or its refusal with every reason, does not depend on the order of the replicates |
| Summaries.Collect | xaytune/core/harness_comparison.py:207-221 | the loops find a metric missing if and only if some run lacks it, and otherwise every replicate's values and the units |
| ComparisonMeaning.RefusedExactly | xaytune/core/harness_comparison.py:177-194 | a design is refused if and only if a seed repeats, a replicate was not evaluated, or some were judged more often than others |
| ComparisonMeaning.RefusedFor | xaytune/core/harness_comparison.py:182-194 | and it is told each of these that holds, and no other |
| ComparisonMeaning.SummarizedIs | xaytune/core/harness_comparison.py:175-203 | otherwise every metric some run has is summarized, over the replicates in order of seed |
| ComparisonMeaning.SummaryIs | xaytune/core/harness_comparison.py:204-253 | a metric that every run has, in one unit, over as many tasks each, is the mean over the replicates of the mean over each one's runs, with the standard error of these; and no other is present |
| ComparisonMeaning.SpreadIs | xaytune/core/harness_comparison.py:234-239 | the spread pooled over replicates judged twice or more: its square is the mean of their variances |
| ComparisonMeaning.NoSpread | xaytune/core/harness_comparison.py:234-235 | there is none when a replicate was judged once |
| ComparisonMeaning.VarianceIs | xaytune/core/harness_comparison.py:233-239 | a variance is the sum of squares less n times the squared mean, by n - 1 |
| ComparisonMeaning.ErrorIs | xaytune/core/harness_comparison.py:233 | a standard error, squared, times the number of values is their variance |
| ComparisonMeaning.MeanBalances | xaytune/core/harness_comparison.py:232 | a mean times the number of values is their sum |
| ComparisonMeaning.RunsAre | xaytune/core/harness_comparison.py:177-180 | a replicate is summarized over exactly its runs of the evaluation |
| ComparisonMeaning.FoundFirst | xaytune/core/harness_comparison.py:217 | of a run that lists a metric more than once the first value counts |
| Comparison.VerdictMirrors | xaytune/core/harness_comparison.py:503-564 | exchanging the candidates exchanges the favored side and negates every difference, and changes neither error nor threshold nor reason |
| Comparison.ComparisonMirrors | xaytune/core/harness_comparison.py:608-662 | comparing B with A is the mirror image of comparing A with B in comparability and its reasons, verdicts, relation and task outcomes, or both are refused |
| Comparison.SelfComparison | xaytune/core/harness_comparison.py:608-662 | a candidate compared with itself is never favored, by any verdict, the relation or the outcomes by task |
| ComparisonMeaning.VerdictIs | xaytune/core/harness_comparison.py:503-564 | of comparable candidates measured on three seeds or more, one is favored if and only if its mean is better, higher when maximizing and lower when minimizing, by more than the larger of the least effect and k standard errors of the differences seed by seed; on fewer the verdict is inconclusive |
| ComparisonMeaning.NoVerdictExactly | xaytune/core/harness_comparison.py:503-536 | there is no verdict if and only if the candidates are not comparable, a side has no value, the units differ, or a time has no shared clock |
| ComparisonMeaning.JudgedIs | xaytune/core/harness_comparison.py:503-536 | each side's summary is reported as it is, with why there is no verdict if there is none, and then no numbers |
| ComparisonMeaning.MeasuredIs | xaytune/core/harness_comparison.py:537-564 | where there is one, the differences seed by seed are reported, and whether the seeds were too few |
| ComparisonMeaning.RelationIs | xaytune/core/harness_comparison.py:567-577 | what the verdicts come to together, exactly |
| ComparisonMeaning.ReportIs | xaytune/core/harness_comparison.py:608-662 | there is a report if and only if both designs can be summarized under every evaluation |
| ComparisonMeaning.JudgesEach | xaytune/core/harness_comparison.py:608-662 | it has one verdict an objective, in order, on each side's summary of its metric |
| ComparisonMeaning.FirstFound | xaytune/core/harness_comparison.py:488-495 | a metric is looked for in the evaluations in order, and the first that has it is used |
| ComparisonMeaning.NoneFound | xaytune/core/harness_comparison.py:488-495 | a metric that no evaluation has is found in none |
| ComparisonMeaning.SummariesAre | xaytune/core/harness_comparison.py:480-485 | a candidate has one summary an evaluation, in order |
| ComparisonMeaning.NoSummaries | xaytune/core/harness_comparison.py:480-485 | or none, if one of them is refused |
| ComparisonMeaning.OutcomesAre | xaytune/core/harness_comparison.py:580-605 | wins, losses, ties and unscored are the keys where the first scores higher, lower, the same, or where one has no score |
| ComparisonMeaning.ScoreIs | xaytune/core/harness_comparison.py:581-590 | a task has the score observed last for it at its seed |
| Summaries.SeedsAgree | xaytune/core/harness_comparison.py:498-500 | candidates whose distinct seeds match pair their values by the same seeds in the same order |
| Comparability.ComparableExactly | xaytune/core/harness_comparison.py:283-386 | no condition of C1 to C4 fails if and only if all runs and evaluations are of one cohort, the seeds pair, every assignment is what the suite assigns and agrees at each seed, each evaluator scores in one way, every result is declared and of its own evidence, and the facets are equal |
| ComparabilityMeaning.ComparableMeans | xaytune/core/harness_comparison.py:283-386 | the same on the runs and evaluations themselves: one benchmark, matched seed by seed as the suite assigns, scored alike, under the same declared conditions |
| ComparabilityMeaning.KeyIs | xaytune/core/harness_comparison.py:363-382 | the key of comparable candidates is what all their runs have in common: cohort, evaluations, facets, timing environment and seeds in order |
| ComparabilityMeaning.TimingIs | xaytune/core/harness_comparison.py:363-364 | they share a timing environment if and only if every run declares it |
| ComparabilityMeaning.FaultIs | xaytune/core/harness_comparison.py:300-356 | which faults are found of one side, one by one |
| ComparabilityMeaning.ReasonIs | xaytune/core/harness_comparison.py:298-362 | which reasons are found of the two together, one by one |
| Comparability.ComparableMirrors | xaytune/core/harness_comparison.py:283-386 | whether two candidates are comparable, the comparison key and the timing environment do not depend on which is named first |
| Comparability.ReasonsMirror | xaytune/core/harness_comparison.py:283-386 | every failed condition is found from either side, with the sides exchanged; a mismatched assignment, if no seed repeats |
| Comparison.TaskOutcomes | xaytune/core/harness_comparison.py:580-605 | wins, losses, ties and unscored count every (seed, task) key either side has exactly once |

## Left out

- The command line, the Studio client, the HTTP routes and the release scripts.
- Training, model loading, tokenizers, tensors and calls to model hubs and evaluation libraries.
- The inside of `xaytune/storage`, of the experiment controller and of runtimes: only the contracts listed above.
- Pydantic models as values of the encoding and of freezing: a model encodes as its dump.
- Message texts, logging, timestamps and latency: refusals and problems are tags, or the condition itself.
- The first verification of the source directory in `put_staging`, whose copy is verified again; symbolic links and special files in `files_in`; `list`; the rules of `checkpoint_path`.
- `checkpoints/store.py` and `daemon/server.py` as classes with fields: their steps interleave with other processes and crashes, so the store and the protocol are state machines over values, one step per atomic action; `Server.Daemon` is the part of the daemon that is a loop over its own fields.
- The order in which a pass takes requests: any order that lists each unfinished request once is allowed, oldest first among them.
- The file lock of the daemon, which keeps a second one off the same machine; the lease alone is relied on here.
- `daemon/host.py` beyond `_at_rest`: joining another cancellation, hand-off polling and timeouts, and the identities a caller mints.
- What the controller starts for an experiment after a request ends is known only by the events it records: a wait answered from a rest says nothing was recorded since, not that nothing runs.
- The appending of reasons and violations to lists in `agent/schema.py`: the lists are concatenated as values, and each reason is a tag.
- SchemaCheck.SchemaCheckExact: a schema with a non-finite bound or a property name that is no string is outside it; the check reads such a schema too, which no JSON text gives.
- SchemaCheck.CheckerSoundAndComplete: the same schemas are outside it, and answers that are no JSON data.
- The replay projection and `first_divergence` of `core/trajectory.py`, `result_disagreements`, and the tail of unrolled events.
- The labels a sample comes with: packing builds labels from ids, and no claim is made that prompt masks survive it.
- Pipelines with repeated stage names, an unknown stage to resume from, or no state file to resume with.
- How `success_observation` and `execution_observations` read a task's evidence: that a score is 0, 1 or absent and that the rest are execution metrics is what is used of them; `_provider_values` and `provider_feedback`, which read the released report alone.
- The judge's metric, the evaluation of a run's evidence before it is aggregated, and the spend bound of a report.
- The order in which failed comparability conditions and a summary's metrics are listed, which are a set and a mapping here; the digest of the comparison key, which is its fields.
- Comparability.ReasonsMirror: with a repeated seed, mismatched assignments are looked for in one of its runs alone, on the side named second, so they may differ between the two orders; `compare` refuses such a design.
- The rounding of floating-point sums and square roots.
