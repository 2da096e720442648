# Verified models of the orchestrator's control plane

This project models the parts of the orchestrator whose correctness rests on state machines, event logs and
tree algebra, and proves what they promise. Every module follows one component; methods carry the loops and
the updates in place that the component has, functions say what they compute, and lemmas prove what follows.

- **Workspace publication** (`WorkspaceTree`, `PublishRecords`, `WorkspacePublish`, `PublishJournal`). A batch of
  additions, changes and removals is captured, journalled, applied entry by entry through temporaries and committed;
  recovery rolls an interrupted batch back in reverse. Every durable action takes one step of a budget, so a process
  may stop between any two of them; running out of steps also stands for a lost lease or revoked authority. The tree
  is a map from paths to nodes with the states the code has to recognise: a new file whose temporary name is still
  linked, a directory at its private mode, a temporary left by an earlier recovery.
- **Write leases** (`WorkspaceLease`). A byte log of fencing generations whose last line may be torn.
- **Run lifecycle** (`Graph`, `Lifecycle`, `LifecycleController`, `LifecycleRuns`, `AgentRegistry`). Append-only dependency graphs
  checked by a memoised depth-first walk, a fold over lifecycle events, the commands that append to the stream,
  snapshots, and the registry of Agent instances.
- **Budgets and approvals** (`Budget`, `Pricing`, `Approvals`). A reservation ledger replayed from events, cost
  estimates, and one-shot approvals over two streams of one store.
- **Workspace views** (`ViewLinks`, `WorkspaceView`, `ViewCandidates`). The symbolic-link resolver, Merkle preimages,
  and the algebra of exporting, validating and composing a diff. The resolver follows pathname resolution
  (section 4.13 of the POSIX.1-2017 Base Definitions). `ViewPublication` joins the two ends: what a publication of an
  exported diff makes of a workspace that holds its baseline.
- **Artifacts** (`Artifacts`). Intent, bytes and publication, for any number of publishers.
- **Configuration** (`ConfigEnvelope`, `ConfigRules`). Tightening of policy envelopes, rule merging, selector overlap,
  and the escaping of source keys (section 3 of RFC 6901).

Digests are injective, so a digest is modelled by what it was computed from. `append_checked` is one atomic step on
the whole stream. Clocks, credentials, policy versions, attempt authority and the outcome of system calls are
parameters of each call.

## What the code does not promise

Some expectations turn out false. The model keeps the code as it is and gives the exact condition.

- A publication that does not retain its outcome removes its committed directory entry by entry. If that stops after
  the state file and the schema marker are gone, recovery reports `not_started` for a diff that was applied. No stop
  can do that exactly when the outcome is retained (`PublishJournal.CleanupReportIffRetained`). The theorems
  about reported outcomes over whole runs are for retained outcomes.
- A stop between making the staging directory and writing its first state file leaves a directory every recovery
  refuses; the code says so, and `PublishJournal.Publisher.OpenTransaction` gives the exact steps.
- Initialising a Run whose node limit is below one appends an event that no replay accepts
  (`LifecycleController.InitializedReplaysIff`).
- A Run resumes once in its life and pauses once for each reason, because the keys carry no version
  (`LifecycleController.PausesOrResumesIffNew`); `LifecycleRuns.StaysPaused` is a Run that can no longer be resumed.
- Marking a reservation unknown a second time is refused once it has been reconciled
  (`Budget.UnknownAnsweredIff`, and `Budget.UnknownIsRefused` from the first command).
- A settlement prices usage at the recorded rates without the exchange rate, so usage equal to an estimate's own counts
  may exceed its reservation (`Pricing.OwnUsageFitsIff`, with `Pricing.HalfRateRefused` for a concrete rate). Where the
  conversion does not shrink the cost by a whole unit, such usage fits in every ledger (`Pricing.OwnUsageAccepted`).
- The registry does not check the cause it is given for a completion, but its replay does
  (`AgentRegistry.MoveAppliesIff`, and `AgentRegistry.OtherCauseBreaks` from the first command).
- Exporting a view may be refused by its own validation although every link of the view resolves, because the stored
  payloads are resolved without the unchanged links (`ViewCandidates.ExportAcceptedIff`,
  `ViewCandidates.LegitimateExportRefused`).
- A preimage does not tell a file from a link of the same bytes (`WorkspaceView.KindIsNotInDigest`); every comparison of
  preimages in the code compares the kinds first, and then it does tell (`WorkspaceView.PreimageTells`).
- A file's preimage does not cover its own mode, so a live file whose mode changed is no conflict
  (`ViewCandidates.NoConflictIff`).

## Model

| member | source | states |
|---|---|---|
| WorkspacePublish.Host.ApplyRecord | src/orchestrator/isolation/workspace_publish.py:1157-1245 | applies one record; wherever it stops, only that record is in progress and the tree is one the rollback recognises; with its parent directory there and its contents in the candidate it can only be stopped, within its cost |
| WorkspacePublish.Host.ApplyAll | src/orchestrator/isolation/workspace_publish.py:303-315 | applies a plan in order; success gives exactly the tree with all records applied, every stop a recognisable one; when every record is ready in its turn it can only run out of steps, and success shows that every record was |
| WorkspacePublish.Host.InstallTemporary | src/orchestrator/isolation/workspace_publish.py:1254-1268 | a new entry appears by a link and its temporary goes; a changed one by a rename; each stop in between is recognisable |
| WorkspacePublish.Host.RemoveTemporaryIfSafe | src/orchestrator/isolation/workspace_publish.py:1388-1420 | removes a leftover temporary only if it is of the transaction's own making, and touches no target |
| WorkspacePublish.Host.RollbackRecords | src/orchestrator/isolation/workspace_publish.py:1109-1154 | started in any tree a publication or an earlier rollback left, it can only be stopped, completes with the steps its cost allows, and then the tree is the one before; in any other tree unrecognised targets and all other entries stay as they are |
| WorkspacePublish.Host.RecoverRepeatedly | src/orchestrator/isolation/workspace_publish.py:1109-1154 | any number of recoveries, each stopped anywhere: the first that completes has restored every path, and one with enough steps does complete |
| WorkspacePublish.Host.PublishThenRecover | src/orchestrator/isolation/workspace_publish.py:297-315 | a publication stopped anywhere after its plan is durable, then any recoveries: applied in full, or exactly as before once one completes; with enough steps it is applied exactly when the result is a tree and the candidate holds what the records say |
| WorkspacePublish.AllReadyIff | src/orchestrator/isolation/workspace_publish.py:1157-1245 | every record finds its parent directory and its contents in its turn exactly when the result of the whole plan is a tree and the candidate holds what the records say |
| PublishRecords.RolledBackIsBefore | src/orchestrator/isolation/workspace_publish.py:1133-1154 | with every record back and no temporary left, the whole tree is the one before the publication |
| PublishRecords.TemporaryRemovable | src/orchestrator/isolation/workspace_publish.py:1116-1124 | in every tree an interrupted run can leave, a leftover temporary passes the safety test and can be removed |
| PublishRecords.ParentRestored | src/orchestrator/isolation/workspace_publish.py:767-771 | in reverse record order a directory to be created again finds its parent |
| PublishRecords.NewDirectoryEmpty | src/orchestrator/isolation/workspace_publish.py:767-771 | in reverse record order a new directory is empty when it is removed |
| PublishRecords.ChildrenRecognised | src/orchestrator/isolation/workspace_publish.py:1132-1139 | a directory to be removed holds only children recorded before the publication |
| PublishRecords.TargetSeen | src/orchestrator/isolation/workspace_publish.py:1423-1497 | an inspected target is absent, old, new or a private new directory, and nothing else |
| PublishRecords.SwapFits | src/orchestrator/isolation/workspace_publish.py:1335-1385 | old contents staged beside their target can be renamed over it, which restores exactly that target |
| PublishRecords.TurnIsLive | src/orchestrator/isolation/workspace_publish.py:303-311 | when a record's turn comes its path is still in the state it was captured in |
| PublishRecords.TurnIsOpen | src/orchestrator/isolation/workspace_publish.py:767-771 | in record order a new entry finds its parent directory, if the result is a tree |
| PublishRecords.TurnIsEmpty | src/orchestrator/isolation/workspace_publish.py:767-771 | in record order a directory to be removed is empty when its turn comes |
| PublishJournal.SortedInOrder | src/orchestrator/isolation/workspace_publish.py:767-771 | records are captured with new directories first and removed directories last, none lost |
| PublishJournal.CapturedIsPlan | src/orchestrator/isolation/workspace_publish.py:687-764 | captured records that pass the journal validation are a plan the rollback can trust |
| PublishJournal.AppliedIsPublished | src/orchestrator/isolation/workspace_publish.py:303-311 | applying all records gives the old tree with the whole diff in place and nothing else changed |
| PublishJournal.CleanupReportIffRetained | src/orchestrator/isolation/workspace_publish.py:326-333 | no stop of the cleanup makes recovery report that nothing started, exactly when the outcome is retained |
| PublishJournal.Publisher.OpenTransaction | src/orchestrator/isolation/workspace_publish.py:225-262 | keeps the journal truthful, and leaves a directory recovery refuses exactly when it stops after one or two steps |
| PublishJournal.Publisher.CaptureOriginals | src/orchestrator/isolation/workspace_publish.py:687-764 | every record holds the live state of its path and every live file is backed up; refused exactly when an entry does not fit its path or the backups exceed their bound |
| PublishJournal.Publisher.Prepare | src/orchestrator/isolation/workspace_publish.py:288-299 | nothing is journalled as prepared before the records are a validated plan of the live tree for the whole diff; refused exactly when a check of the capture, the bound on backups or the journal validation refuses |
| PublishJournal.Publisher.Publish | src/orchestrator/isolation/workspace_publish.py:157-349 | success means the starting tree with the whole diff applied, journalled as committed when retained, every changed or removed entry having been the one the diff was made against; unless stopped, it succeeds exactly when the capture, the journal validation and every record in its turn allow it; refused while another transaction is pending; every failure leaves a journal that is truthful about the starting tree and never says committed |
| PublishJournal.Publisher.RecoverOne | src/orchestrator/isolation/workspace_publish.py:417-479 | reports an outcome that is true of the last publication's starting tree and diff and makes it durable, never undoes a committed one, refuses only what its validation refuses |
| PublishJournal.Publisher.Recover | src/orchestrator/isolation/workspace_publish.py:383-481 | every reported outcome is true of the last publication's starting tree and diff; at most one transaction is pending and it is reported; nothing else in the journal changes |
| PublishJournal.Publisher.Acknowledge | src/orchestrator/isolation/workspace_publish.py:508-555 | only releases evidence of the settled outcome it names, all of it on success, and never touches the workspace |
| PublishJournal.Publisher.Run | src/orchestrator/isolation/workspace_publish.py:383-481 | every run of publications, recoveries and acknowledgements stopped anywhere is a sequence of worlds in which each call does what its relation says, from the first world to the last |
| PublishJournal.ReportsAreTrue | src/orchestrator/isolation/workspace_publish.py:383-481 | every outcome reported anywhere in a run is about the publication that began last and true of the tree it found: committed exactly if it succeeded, with its whole diff in place and untouched by the recovery, and otherwise every path as it was |
| PublishJournal.CommittedStays | src/orchestrator/isolation/workspace_publish.py:459-479 | committed is never undone: until another publication begins, the tree a successful one left stays as it is |
| PublishJournal.OnePending | src/orchestrator/isolation/workspace_publish.py:1591-1597 | at most one transaction is pending at any point of a run, and publishing beside it changes nothing |
| WorkspaceLease.DecodeEncode | src/orchestrator/isolation/workspace_lease.py:379-407 | a written record line reads back as the record |
| WorkspaceLease.ParseLog | src/orchestrator/isolation/workspace_lease.py:377-403 | reading completed records gives exactly them, with generations counting up from one |
| WorkspaceLease.TornTailIgnored | src/orchestrator/isolation/workspace_lease.py:367-376 | completed records followed by any proper prefix of a further line read as exactly those records |
| WorkspaceLease.LeaseFile.ReadJournal | src/orchestrator/isolation/workspace_lease.py:356-403 | returns the completed records and whether a tail is torn; repairing leaves exactly the completed records |
| WorkspaceLease.LeaseFile.Acquire | src/orchestrator/isolation/workspace_lease.py:161-270 | the journal becomes exactly its complete records and what was written of the next line; a lease is granted exactly when the lock is free, the whole line is written and made durable and the journal stays within its bound, for a new last record one generation up |
| WorkspaceLease.LeaseFile.Run | src/orchestrator/isolation/workspace_lease.py:217-226 | over every run of acquisitions torn or failed anywhere, the journal and what each attempt was granted are exactly those of the step function |
| WorkspaceLease.GrantsIncrease | src/orchestrator/isolation/workspace_lease.py:217-226 | along any run of acquisitions granted generations strictly increase, and the record of a granted one stays in the journal |
| WorkspaceLease.WriteLease.AssertCurrent | src/orchestrator/isolation/workspace_lease.py:76-134 | passes exactly for the open lease of the last record of a readable, untorn journal |
| Graph.Walk.Visit | src/orchestrator/lifecycle/graph.py:39-51 | terminates by the nodes not yet on the path; a depth is consistent with the memo, a failure is a real cycle, depth or missing node |
| Graph.MemoIsLongest | src/orchestrator/lifecycle/graph.py:46-51 | what the memo holds is the length of the longest chain of dependencies |
| Graph.WalkAll | src/orchestrator/lifecycle/graph.py:53-54 | succeeds exactly for a closed, acyclic graph within the depth, with every longest path in the memo |
| Graph.ValidateGraphAppend | src/orchestrator/lifecycle/graph.py:12-55 | accepts exactly the appends that are not empty, repeat no identifier, and keep the graph within its node limit, closed, acyclic and within its depth |
| Graph.AppendKeepsDepths | src/orchestrator/lifecycle/graph.py:25-26 | an append never changes the depth of an existing node |
| Graph.SortedSpecsCanonical | src/orchestrator/lifecycle/graph.py:55 | the returned additions are in identifier order, none lost |
| Lifecycle.NotStuck | src/orchestrator/lifecycle/controller.py:825-833 | a running Run always has a node that is ready, running or awaiting reconciliation |
| Lifecycle.TerminalIsFinal | src/orchestrator/lifecycle/controller.py:634-681 | a succeeded, failed or cancelled Run accepts no event at all |
| Lifecycle.OpenIsLast | src/orchestrator/lifecycle/controller.py:852-858 | the open attempt of an active node is its last one |
| Lifecycle.AppendKeeps | src/orchestrator/lifecycle/controller.py:634-681 | an accepted append keeps the graph within its limits and every node's place |
| Lifecycle.AcceptKeeps | src/orchestrator/lifecycle/controller.py:747-772 | an accepted attempt keeps generations, attempt limits and unique attempt identifiers |
| Lifecycle.EndKeeps | src/orchestrator/lifecycle/controller.py:773-821 | an attempt's end keeps statuses and dependencies, and releases exactly the nodes a success unblocks |
| Lifecycle.RunEventKeeps | src/orchestrator/lifecycle/controller.py:682-746 | every event on the Run itself keeps the invariant, cancellation included |
| Lifecycle.StepKeeps | src/orchestrator/lifecycle/controller.py:590-849 | every accepted event keeps the whole invariant |
| Lifecycle.ReachableOk | src/orchestrator/lifecycle/controller.py:579-587 | every reachable state: generations 1 to n within the limit, all attempts but the last failed, node and attempt statuses agree, unblocked only after all dependencies succeeded |
| Lifecycle.HistoryKept | src/orchestrator/lifecycle/controller.py:773-815 | no event removes a node, rewrites a closed attempt or undoes a success |
| Lifecycle.HistoryIsPermanent | src/orchestrator/lifecycle/controller.py:579-587 | successes and closed attempts survive every later stream |
| LifecycleController.GuardedApplies | src/orchestrator/lifecycle/controller.py:158-197 | every event a command's decision appends is accepted by the replay |
| LifecycleController.AfterSound | src/orchestrator/lifecycle/controller.py:132-573 | every command keeps the stream replayable to a state that satisfies the invariant, given a node limit of at least one |
| LifecycleController.InitializedReplaysIff | src/orchestrator/lifecycle/controller.py:605-609 | initialisation replays exactly when the frozen node limit is at least one |
| LifecycleController.AcceptedOnce | src/orchestrator/lifecycle/controller.py:861-866 | an accepted command appends nothing at any later point |
| LifecycleController.PausesOrResumesIffNew | src/orchestrator/lifecycle/controller.py:350-367 | a pause or resume takes effect exactly when its key is new |
| LifecycleRuns.SecondResumeIsLost | src/orchestrator/lifecycle/controller.py:350-367 | a running Run that is paused, resumed and paused for another reason stays paused when it is resumed again |
| LifecycleRuns.StaysPaused | src/orchestrator/lifecycle/controller.py:350-367 | the same from the first command of a Run with one node |
| LifecycleController.RequestIsCurrent | src/orchestrator/lifecycle/controller.py:318-346 | a cancellation request read from an earlier prefix is still the current one |
| LifecycleController.Apply | src/orchestrator/lifecycle/controller.py:590-849 | the step-by-step application computes the state the transition defines |
| LifecycleController.ReplayFrom | src/orchestrator/lifecycle/controller.py:124-130 | continuing from the state of a prefix gives the state of the whole stream |
| LifecycleController.Controller.Submit | src/orchestrator/lifecycle/controller.py:132-573 | one atomic decision: the stream grows by exactly the decided event or not at all, and a repeated command is answered |
| LifecycleController.Controller.Replay | src/orchestrator/lifecycle/controller.py:96-130 | replay from a snapshot equals full replay |
| LifecycleController.Controller.Checkpoint | src/orchestrator/lifecycle/controller.py:70-84 | a saved projection is the state of the prefix it is anchored to |
| LifecycleController.Controller.CompleteCancellationIfIdle | src/orchestrator/lifecycle/controller.py:318-348 | completes only the Run's own cancellation request, on whatever prefix it was read |
| LifecycleController.Controller.Run | src/orchestrator/lifecycle/controller.py:96-130 | over every interleaving of commands, checkpoints and delayed completions, restart equals full replay and the state satisfies the invariant |
| AgentRegistry.Reduce | src/orchestrator/agents/registry.py:360-444 | the reduction with its attempt index computes the registry the events define |
| AgentRegistry.RegisterApplies | src/orchestrator/agents/registry.py:143-222 | a registration's two events always apply and leave the instance active |
| AgentRegistry.AfterKeeps | src/orchestrator/agents/registry.py:126-222 | every command keeps total, concurrency and depth limits, unique attempts, and completed parents one level up |
| AgentRegistry.Ancestors | src/orchestrator/agents/registry.py:380-391 | depth is the length of the ancestor chain, and every ancestor is completed |
| AgentRegistry.AncestorsAreLower | src/orchestrator/agents/registry.py:380-391 | ancestors get strictly lower, so no instance is its own ancestor |
| AgentRegistry.AncestorsKept | src/orchestrator/agents/registry.py:405-434 | an instance's ancestors are the same, and still completed, after any command |
| AgentRegistry.InstanceKept | src/orchestrator/agents/registry.py:405-441 | no instance is dropped, only the status of an active or unknown one changes, and the total never decreases |
| AgentRegistry.MoveAppliesIff | src/orchestrator/agents/registry.py:332-406 | a transition's event replays exactly when it cancels or carries the instance's decision as its cause |
| AgentRegistry.OtherCauseBreaks | src/orchestrator/agents/registry.py:332-406 | registering and then completing with another cause leaves a stream that never replays again |
| Budget.Replay | src/orchestrator/budget/ledger.py:1416-1457 | the replay loop computes the fold of the events |
| Budget.AfterKeeps | src/orchestrator/budget/ledger.py:360-773 | every command keeps the figures of each reservation, one envelope for the Run, and every cap |
| Budget.CapsHold | src/orchestrator/budget/ledger.py:905-1004 | over every run of commands, used, reserved and unknown together stay within the cost cap, the token cap and each class cap |
| Budget.Conservation | src/orchestrator/budget/ledger.py:1373-1393 | all that was ever reserved, plus overruns, equals reserved plus unknown plus used plus released, for money and tokens |
| Budget.StatusMoves | src/orchestrator/budget/ledger.py:1434-1456 | reservations are never dropped or rewritten, and statuses only go from reserved to the other three or from unknown to committed |
| Budget.AcceptedOnce | src/orchestrator/budget/ledger.py:378-403 | a command accepted once appends nothing when sent again, whatever came between |
| Budget.ReserveAnswered | src/orchestrator/budget/ledger.py:378-403 | a reservation sent again is answered, not refused |
| Budget.SettleAnswered | src/orchestrator/budget/ledger.py:594-634 | a settlement or reconciliation sent again is answered with the record it wrote |
| Budget.ReleaseAnswered | src/orchestrator/budget/ledger.py:738-748 | a release sent again is answered with the release it wrote |
| Budget.UnknownAnsweredIff | src/orchestrator/budget/ledger.py:496-508 | marking unknown again is answered exactly while the reservation is still unknown |
| Budget.ReconciledThenRefused | src/orchestrator/budget/ledger.py:496-508 | after a reconciliation the command that marked a reservation unknown is refused |
| Budget.UnknownIsRefused | src/orchestrator/budget/ledger.py:496-508 | the same from the first command: reserve, mark unknown, reconcile, mark unknown again |
| Budget.OwnedKept | src/orchestrator/budget/ledger.py:1044-1059 | a settlement key names one reservation |
| Budget.WithinReservationFits | src/orchestrator/budget/ledger.py:947-1004 | a settlement within its own reservation always fits |
| Budget.EstimateCovers | src/orchestrator/budget/ledger.py:252-262 | usage within an estimate the ledger made is never refused for lack of budget |
| Budget.Ledger.Submit | src/orchestrator/budget/ledger.py:1006-1014 | one atomic decision on the whole stream, which keeps the ledger sound |
| Pricing.ConvertRoundsUp | src/orchestrator/models/pricing.py:166-190 | conversion is the exact quotient rounded up, and only within the snapshot's time and quotes |
| Pricing.EstimateBounds | src/orchestrator/models/pricing.py:299-309 | an estimate is at least the exact cost and less than the exact cost plus the rate plus one |
| Pricing.EstimateMonotone | src/orchestrator/models/pricing.py:299-309 | more tokens never cost less |
| Pricing.OwnUsageFitsIff | src/orchestrator/budget/ledger.py:1584-1598 | reserving an estimate under a cap of its amount and settling its own counts is accepted exactly when the conversion did not shrink the cost by a whole unit |
| Pricing.OwnUsageAccepted | src/orchestrator/budget/ledger.py:1584-1598 | under the same condition, usage within an estimate's counts and fees is accepted in every ledger, whatever else it holds |
| Pricing.HalfRateRefused | src/orchestrator/budget/ledger.py:1584-1598 | at a rate of one half a source cost of two is estimated as one and its settlement refused |
| Approvals.ConsumedJustly | src/orchestrator/approvals/service.py:499-608 | a consumption is by exactly the bound attempt, newer than the one that asked, of the approved intent within its maximum cost, before any denial, revocation, expiry or other consumption, and appends its three events as one batch |
| Approvals.ConsumedOnce | src/orchestrator/approvals/service.py:533-594 | in every interleaving of calls a grant is consumed at most once, and always between its intent and its reservation |
| Approvals.SecurityKeeps | src/orchestrator/approvals/service.py:227-323 | grants and bindings always have their request, and a grant has one binding, newer than the request's origin |
| Approvals.NextKeeps | src/orchestrator/approvals/service.py:227-693 | every call keeps both streams sound |
| Approvals.ApprovalService.Perform | src/orchestrator/approvals/service.py:760-773 | each call moves both streams exactly as defined, atomically |
| ViewLinks.DrainIsWalk | src/orchestrator/isolation/workspace_view.py:84-111 | draining a queue with a link's target put in front is resolving the target as a path of its own and then the rest |
| ViewLinks.WalkStaysInside | src/orchestrator/isolation/workspace_view.py:95-111 | a resolution that succeeds never climbed above the root and ends on a valid path outside reserved names that is no link |
| ViewLinks.ResolveLink | src/orchestrator/isolation/workspace_view.py:84-111 | the queue loop accepts a link exactly when it resolves within 40 links and the step bound |
| ViewLinks.ValidateLinks | src/orchestrator/isolation/workspace_view.py:73-111 | accepts an inventory exactly when every link in it resolves |
| WorkspaceView.PreimageTells | src/orchestrator/isolation/workspace_view.py:262-287 | between entries of one kind, equal preimages mean the same content and the same tree below, up to what a snapshot drops |
| WorkspaceView.KindIsNotInDigest | src/orchestrator/isolation/workspace_view.py:262-287 | a file and a link of the same bytes have equal preimages, so the kind is compared beside it |
| WorkspaceView.Preimages | src/orchestrator/isolation/workspace_view.py:262-287 | deepest first, every entry gets its Merkle preimage |
| WorkspaceView.WritePayloads | src/orchestrator/isolation/workspace_view.py:343-354 | candidate storage holds the changed payloads and their parents, privately, and nothing else |
| WorkspaceView.Export | src/orchestrator/isolation/workspace_view.py:308-360 | the entries are exactly the changes, refused only for a changed kind or too many entries |
| ViewCandidates.AcceptedIsTree | src/orchestrator/isolation/workspace_view.py:383-431 | whatever the validator accepts composes to a tree in which every entry has its directory |
| ViewCandidates.RemovedLeavesNothing | src/orchestrator/isolation/workspace_view.py:413-417 | a removed entry leaves nothing below it |
| ViewCandidates.RoundTrip | src/orchestrator/isolation/workspace_view.py:324-354 | composing the baseline with an exported diff gives back the view |
| ViewCandidates.ExportAcceptedIff | src/orchestrator/isolation/workspace_view.py:355-357 | an export passes its own validation exactly when its stored links resolve among the stored payloads alone |
| ViewCandidates.LegitimateExportRefused | src/orchestrator/isolation/workspace_view.py:380 | two views the inventory accepts, whose links all resolve, and the export between them refused |
| ViewCandidates.Compose | src/orchestrator/isolation/workspace_view.py:425-430 | the entry-by-entry composition is the baseline without removals and with the written entries |
| ViewCandidates.Validate | src/orchestrator/isolation/workspace_view.py:366-433 | accepts exactly the manifests bound to the baseline and the payloads |
| ViewCandidates.CheckConflicts | src/orchestrator/isolation/workspace_view.py:436-450 | lists the conflicts with a live workspace in manifest order |
| ViewCandidates.NoConflictIff | src/orchestrator/isolation/workspace_view.py:446-449 | a change or removal has no conflict exactly when the live workspace holds the same content and tree there |
| ViewPublication.EntryFits | src/orchestrator/isolation/workspace_view.py:436-450 | over its own baseline every entry of an exported diff finds what it was made against |
| ViewPublication.PublishedIsView | src/orchestrator/isolation/workspace_publish.py:303-311 | an exported diff put in place in a workspace that holds its baseline leaves just the view |
| ViewPublication.ViewIsPublished | src/orchestrator/isolation/workspace_publish.py:383-481 | over every run: a successful publication of an exported diff leaves just the view until another begins, and a failed one the baseline once a recovery reports on it |
| Artifacts.ArtifactStore.RecordIntent | src/orchestrator/artifacts/store.py:988-1011 | an intent is durable before anything is installed |
| Artifacts.ArtifactStore.Install | src/orchestrator/artifacts/store.py:677-713 | installs without touching another publisher's object, whatever the link call reports; an object already there must verify |
| Artifacts.ArtifactStore.RecordMetadata | src/orchestrator/artifacts/store.py:1013-1041 | a publication is recorded only with its intent before it and its object in place |
| Artifacts.ArtifactStore.Unwind | src/orchestrator/artifacts/store.py:714-726 | no cleanup removes an object after its intent |
| Artifacts.ArtifactStore.PublishBytes | src/orchestrator/artifacts/store.py:609-732 | success means the publication is recorded and its object is there, exactly when every step was reported as done and an object already there verified; every failure leaves the store sound |
| Artifacts.ArtifactStore.Run | src/orchestrator/artifacts/store.py:672-726 | any interleaving of any publishers' steps, with crashes and failed appends, leaves exactly the store the step function defines, sound and with nothing durable lost |
| Artifacts.RunsAreBacked | src/orchestrator/artifacts/store.py:672-726 | over every run from the empty store, every publication has an earlier intent of the same record and its object present |
| Artifacts.PendingForRun | src/orchestrator/artifacts/store.py:886-986 | lists exactly the unpaired intents of a Run, classified by object and publications |
| Artifacts.MissingWasNeverPublished | src/orchestrator/artifacts/store.py:953-976 | in every run, what the list calls missing belongs to a digest nobody ever published |
| ConfigEnvelope.TightenIsMeet | src/orchestrator/config/models.py:352-414 | the combined envelope admits a call exactly when every layer does |
| ConfigEnvelope.RefusedMeansUnsatisfiable | src/orchestrator/config/models.py:354-358 | layers are refused only when no call could satisfy them all |
| ConfigEnvelope.TightenAnyOrder | src/orchestrator/config/models.py:352-414 | the order of layers does not matter |
| ConfigEnvelope.TightenStepwise | src/orchestrator/config/effective.py:773-776 | tightening layer by layer equals tightening all at once |
| ConfigRules.MergeSelectorRules | src/orchestrator/config/effective.py:660-685 | the loop with its index merges a layer: tombstones remove, known rules are replaced in place, new ones appended |
| ConfigRules.LastWriterWins | src/orchestrator/config/effective.py:660-685 | after a layer identifiers are unique and each has its last writer's rule, or none after a tombstone |
| ConfigRules.LastLayerWins | src/orchestrator/config/effective.py:660-719 | over all layers each identifier has what the last layer that mentions it wrote last, and where the layers are cut does not matter |
| ConfigRules.MergeGuardRules | src/orchestrator/config/effective.py:688-709 | existing guards stay as an unchanged prefix with the new ones after it in order; refused exactly when a layer would change one |
| ConfigRules.OverlapIff | src/orchestrator/config/effective.py:603-618 | two conditions overlap exactly when one request satisfies both |
| ConfigRules.SubtreeIff | src/orchestrator/config/effective.py:621-650 | the string test for a subtree of source keys is the prefix test on paths |
| ConfigRules.DropSourceSubtree | src/orchestrator/config/effective.py:646-650 | forgets exactly the keys of a subtree |

## Left out

- The schema 1 publisher and the schema 1 overlay exporter and validator: weaker forms of what is modelled.
- File descriptors, mounts, extended attributes, permissions of the journal, inode races and fsync: a durable action is one step and a read sees the tree as it is.
- `check_workspace_publish_conflicts` inside a publication: it only refuses more; the comparison itself is `ViewCandidates.CheckConflicts`.
- The name shape and case-folding checks on paths, and the order of manifest entries with equal rank and depth.
- Byte totals of inventories and manifests; entry counts and depths are kept.
- PublishJournal.Publisher.Publish: the names a transaction generates are assumed not to occur in the diff, as they hold the transaction's random identifier.
- PublishJournal.Publisher.Run: is about publications that retain their outcome; the other kind is covered up to the cleanup that makes it false.
- WorkspaceView.Export: case collisions and byte limits are not modelled, and the refusal by its own validation is `ViewCandidates.ExportAcceptedIff`.
- ViewCandidates.Validate: the order and the hash of the manifest, case collisions and byte totals are not modelled; entries are a sequence without repeated paths.
- Artifacts.PendingForRun: the order of the list by creation time is not modelled; nor that it lists no publication twice, which rests on the refusal of repeated identifiers.
- WorkspacePublish.Host.RollbackRecords: a file of more than a gibibyte, which the code refuses to read, is not distinguished.
- WorkspaceLease.Decode: reads a record in the one form the code writes; other JSON texts of the same object, which never occur in the journal, are refused.
- Which of several lifecycle errors is raised: a refusal is a refusal.
- Planning contracts beyond their identity, agent routing fields and lease expiry of attempts are carried as one opaque detail.
- The legacy ledger path without `append_checked`, legacy idempotency keys and legacy payload defaults.
- Resolving a reservation's Run from its identifier, and the search for one request identifier across the streams of other Runs: one Run is modelled.
- Budget.EstimateCovers: is about estimates the ledger makes itself and settlements without an explicit cost.
- AgentRegistry.RegisterFits: the state of the lifecycle stream is an input, not replayed beside the registry.
- Artifact read grants, metadata validation, the on-disk lock (the protocol is proved for every interleaving, so it is not needed) and corruption of stored bytes.
- The generic merge of configuration mappings, role escalation graphs and checks against the model registry: single recursions over nested values.
- SQLite, the event store's own checks, authentication, policy providers, process launching and isolation, provider codecs and the scheduler are not part of this model.
