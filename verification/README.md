# Verified model of the workflow control plane

This project models the decision-making core of the control plane that runs plans of
dependent tickets, and proves properties of it. `dafny verify dfyconfig.toml` checks all of it.

| part | files | what is modelled |
|---|---|---|
| plan graph | PlanGraph, PlanModel, AdmissionLaws, Frontier, FrontierLaws, RankLaws, Schedule | admission of a ticket graph, the dispatch rule, whole scheduling runs |
| plan texts | Text, Markers, StatusBlock, Projections, ProjectionLaws, ProjectionTexts, Activation, Fingerprint, FingerprintLaws | the status block in the Plan Root, its stripping, the canonical form that is hashed |
| repository contract | ManagedBlock, RepositoryContract | the managed block of AGENTS.md, rendering and remote verification |
| onboarding | GitStatus | the reader of `git status --porcelain=v2 -z` |
| delivery | Failures, Isolation, Outbox, OutboxTerms, DeliveryProtocol, Verdicts, SettlementLaws, Gateway, OutboxRuns, OutboxInvariants, OutboxLaws, OutboxWrites | the isolation retry loop, the outbox row, one dispatch, all interleavings of dispatches |
| supervisors | RepositorySteps, RepositoryLaws, RepositorySupervisor, WatchSteps, WatchLaws, WatchSupervisor, WatchPoll | the two `active` maps as interleaved steps, and the polling cursor |
| launcher | LauncherHome, LauncherStaging, LauncherEngine, LauncherLaws, LauncherTerms | one `Apply` with every failure exit, and sequences of calls |

`Collections.dfy` holds the shared vocabulary (permutations, sorting, counting).

## How the parts are modelled

- Go's map iteration order is a free choice: loops over maps take any element next, and results
  are proved for every choice. `sort.Slice` is used by its contract only.
- Strings are byte sequences. Two long template texts (the managed block and the whole files of the
  contract) are parameters constrained by the shape the code relies on.
- Everything outside a part (GitHub, the store's other tables, the clock, Docker, file-system failures)
  answers through a `World` value over which every theorem quantifies.
- The delivery protocol is proved in two halves that meet at the same predicate. `Gateway.Dispatch` keeps the
  rules of `DeliveryProtocol.Allowed` whatever the world answers, and settles as `Verdicts.Settlement` says; `OutboxRuns` then lets any number of dispatches
  that keep the rules interleave with each other, with expired-claim recovery, with early candidate acceptance and with
  reopening, against the row transitions of the store.
- The supervisors are state machines whose steps are what happens between two releases of the mutex;
  the classes beside them show that the loops of the source make exactly those steps.
- `Installation.Apply` follows the launcher's Apply branch by branch over a map from paths to nodes;
  writes may fail before or after creating their directory, copies and removals may stop half way. Its contract `Applied` carries
  the work; several laws of `LauncherLaws` about single calls (`OtherGenerationsUntouched`, `CredentialMatchesRecord`,
  `UncommittedKeepsCredential`) read it off, the others follow it over runs or build the damaging call.
- A method is proved against a function or a predicate, and what that function means is proved again without its words:
  from the issues (`AdmissionLaws`, `FingerprintLaws`, `FrontierLaws.FrontierMeans`), from the answers of the world
  (`SettlementLaws`, `Isolation.RetryDecides`, `WatchPoll.Tells`, `LauncherTerms`), from the row (`OutboxTerms`), from the texts
  (`ProjectionTexts`, `StatusBlock.PlaceAccepts`, `ManagedBlock.ReconcileAccepts`, `ManagedBlock.ExtractMeans`).
  Small readings have no row below: of texts (`JoinReads`, `RowsRead`, `InboxReads`, `PlainHeaderReads`, `PlainRowReads`, `LineEndMeans`,
  `LayoutsMean`, `Text.ReplaceAllMeans`), of rows (`CompletionSettles`, `LosersHear`, `OthersTouch`) and of a dispatch without a claim (`UnclaimedAnswers`).
- A poll's observation may list an issue twice. Between two attempts issues may be edited: the accepted ids and the cursor converge all the same;
  the recorded contents do when nothing was edited, because intake keeps what it saw first.

## Where the code differs from what it says

- **Fingerprint and trailing line breaks.** The comment at internal/plan/model.go:188-190 says that projecting the status
  block never makes a new version. It does when the body had no block and ended in CR or LF
  (`Fingerprint.ProjectionKeepsFingerprint` gives the exact condition): rendering trims the breaks, and the trimmed text is what is hashed next.
- **Escaping can assemble a marker.** `escapeCell` turns a line break into a space, so a text of several lines, such as the reason for a pause,
  that holds a marker split over a line break renders as a whole marker, and the next rendering is refused
  (`ProjectionLaws.EscapingJoinsMarkers`, `ProjectionLaws.SplitReasonRefused`; exact condition in `ProjectionLaws.RenderTwice`).
- **Ranks depend on map order on a cyclic graph.** On admitted plans they do not (`RankLaws.CycleShowsVisitingOrder` against `FrontierLaws.FrontierOrderFree`).
- **Two managed blocks.** The rewrite replaces the first and succeeds; the extractor then finds none (`ManagedBlock.TwoBlocksAreNotExtracted`, exact condition in `ManagedBlock.ExtractAfterReconcile`).
- **A forgotten write.** A claim in flight is rejected with its uncertainty flag unset when the row is out of attempts
  (internal/store/delivery.go:679-693) or when a candidate is accepted early (internal/store/session.go:1025-1027).
  A write that had taken effect is then recorded nowhere (`OutboxLaws.ExhaustionForgetsWrite`, for every request that can be written at all, `OutboxLaws.OnlyWritableTouches`;
  exact condition in `OutboxLaws.UncertaintyIsConservative`).
- **Watch lifetimes outlive Run.** Shutdown waits only for entries of the map, and reconcile deletes what it cancels
  (`WatchLaws.DroppedPollerOutlivesRun`). A return after a store error waits for nobody in either supervisor
  (`RepositoryLaws.FailedReturnLeavesRunner`, `WatchLaws.FailedReturnLeavesPoller`; which ones go on: `RepositoryLaws.FailedReturn`, `WatchLaws.FailedReturn`).
- **Credential after a repair.** The repair return leaves the rollback armed, so the old credential comes back although the new one's
  fingerprint was recorded (`LauncherLaws.CredentialMatchesRecord`).
- **A partial generation is trusted, and committed.** Staging takes an existing directory as complete (`LauncherStaging.StagingIsComplete`,
  `LauncherStaging.FailedStagingIsTrusted`), so active.json may change to a generation that was not staged: a committed call has the whole bundle
  exactly when nothing of it was there before, or all of it (`LauncherLaws.CommittedIsWhole`). An upgrade stopped while staging is blocked and leaves
  the old generation in force; its retry, with nothing disturbed, commits all the same and replaces a working generation by one that cannot start,
  exactly when a directory was left whose payload does not verify (`LauncherLaws.UndisturbedCallIsReady`, `LauncherLaws.RetryOfStoppedUpgrade`).
- **Early write failures strand a fresh Home.** A consent or attempt write that fails after creating its directory leaves a Home that no retry accepts
  (`LauncherLaws.ConsentWriteStrands`, `LauncherLaws.AttemptWriteStrands`).
- **Reapplying the active bundle** copies the backup over the live database. When the copy stops half way the call is blocked, active.json stays ready,
  the database is the half, and verification does not notice (`LauncherLaws.TruncatedDatabaseVerifies`). An uncommitted call can change the
  database of the generation in force exactly when the digest names that generation (`LauncherLaws.DatabaseAtRisk`).
- **What was staged in part stays so.** No sequence of later calls brings such a generation into service (`LauncherLaws.LossIsPermanent`);
  an upgrade whose manifest is the first file not to be copied leaves one (`LauncherLaws.UpgradeLosesManifest`).
- The `resume` branch at internal/launcher/engine.go:410-414 cannot be reached: line 393 has returned in exactly that case.

## Model

| member | source | states |
|---|---|---|
| PlanModel.CycleSearch.Visit | internal/plan/model.go:160-179 | the three-colour search: true means some node reaches itself by a non-empty path; false leaves the search state sound, the node finished and no finished node lost |
| PlanModel.CycleSearch.VisitBlockers | internal/plan/model.go:168-172 | the loop over a node's blockers, mutually recursive with Visit: no cycle found means every blocker is finished |
| PlanModel.HasCycle | internal/plan/model.go:156-186 | true exactly when some node reaches itself, for every order of walking the node map |
| PlanModel.Validate | internal/plan/model.go:90-154 | accepts exactly the snapshots that meet the declarative predicate ValidPlan, for every map order |
| PlanModel.ValidateChildren | internal/plan/model.go:101-121 | accepts exactly when every child is admissible and no id or number repeats |
| PlanModel.CollectEdges | internal/plan/model.go:122-149 | accepts exactly when every blocked issue and blocker is admissible, and builds exactly those edges |
| PlanModel.ValidateBlockers | internal/plan/model.go:124-147 | one blocked issue: accepted exactly when all its blockers are admissible children without repetition |
| PlanModel.ValidPlanClosed | internal/plan/model.go:122-149 | the closure the cycle search relies on: edges of an admissible snapshot stay among the children |
| PlanGraph.LongestStep | internal/plan/frontier.go:56-63 | the rank equation defines the longest blocker path |
| PlanGraph.LongestBound | internal/plan/frontier.go:46-69 | inside a closed acyclic set a longest path is at most the node count minus one |
| AdmissionLaws.AdmissionMeans | internal/plan/model.go:90-154 | a plan is admitted exactly when its root is labelled a plan and no ticket, its sub-issues are distinct tickets, every blocker is one of them, listed once and delivered when closed, and no walk from issues to their blockers comes back to where it began |
| RankLaws.RankMeaningful | internal/plan/frontier.go:46-66 | a longest blocker path exists exactly for the issues that see no cycle |
| RankLaws.CycleShowsVisitingOrder | internal/plan/frontier.go:67-69 | on a concrete cyclic graph two visiting orders give different frontiers |
| Frontier.RankTable.Rank | internal/plan/frontier.go:47-66 | terminates on every graph; refines the recursive memo function; from a sound memo without a cycle below it returns the longest path and keeps the memo sound |
| Frontier.RankAll | internal/plan/frontier.go:67-69 | ranks every known issue, in any order of the map |
| Frontier.CollectReady | internal/plan/frontier.go:71-88 | keeps exactly the unowned, undelivered tickets all of whose blockers are known and delivered, in input order |
| Frontier.ReadyFrontier | internal/plan/frontier.go:38-112 | returns what some walk over the ticket map previews: the ready tickets in dispatch order, cut to the free capacity; none when paused or full |
| FrontierLaws.FrontierIsLeast | internal/plan/frontier.go:90-111 | the frontier holds the least capacity-many ready tickets, strictly ordered; everything ready but left out comes later |
| FrontierLaws.FrontierMeans | internal/plan/frontier.go:38-112 | in an active plan with free places the answer is in strictly increasing order of rank, number and id, each entry an undelivered unowned ticket with only delivered blockers and its longest blocker path for a rank; a startable ticket is left out only when all places are taken by earlier ones; otherwise the answer is empty |
| FrontierLaws.OneEntry | internal/plan/frontier.go:46-69 | every startable ticket has such an entry, and only one |
| FrontierLaws.FrontierOrderFree | internal/plan/frontier.go:90-92 | permuting tickets, dependency lists or map order never changes the frontier where no ready ticket sees a cycle |
| FrontierLaws.OnePreview | internal/plan/frontier.go:67-69 | two walks over the same ticket map in different orders preview the same frontier |
| FrontierLaws.ClaimRemovesMember | internal/plan/frontier.go:71-111 | claiming any member and counting its run recomputes exactly the remaining members, in order |
| Schedule.AdmittedPlanOk | internal/plan/model.go:90-154 | what admission accepts is what the scheduler's theorems require |
| Schedule.StepSafe | internal/plan/frontier.go:71-111 | claim, park, resume, deliver and release keep blockers-first, the capacity bound and delivery in order |
| Schedule.RunSafe | internal/plan/frontier.go:38-112 | every reachable state: owned tickets have all blockers delivered, active runs never exceed the limit |
| Schedule.BeginningSafe | internal/plan/activate.go:51-56 | every plan starts safe, whatever was delivered before; in order exactly when that was closed under blockers |
| Schedule.AdmittedRunsSafe | internal/plan/frontier.go:38-112 | an admitted plan is safe in every state of every run from its beginning, reviews that send a ticket back included |
| Schedule.OneFrontier | internal/plan/frontier.go:67-69 | in every safe state of an admitted plan the rule has one preview, however the map is walked |
| Schedule.NotStuck | internal/plan/frontier.go:38-112 | with a ticket undelivered, one is owned or the frontier is not empty |
| Schedule.CleanRunBounded | internal/plan/frontier.go:38-112 | failure-free runs are bounded by the work that is left |
| Schedule.MaximalRunDelivers | internal/plan/frontier.go:38-112 | a failure-free run can go no further exactly when every ticket is delivered |
| Schedule.CompletionReachable | internal/plan/frontier.go:38-112 | from every safe state, whatever failed before, some failure-free run delivers everything |
| StatusBlock.PlaceReplaces | internal/plan/projection.go:59-62 | placing over an existing block keeps every byte before and after it |
| StatusBlock.PlaceAccepts | internal/plan/projection.go:51-58 | a body is accepted exactly when it has no marker at all, or exactly one block and no other marker |
| StatusBlock.PlaceTwice | internal/plan/projection.go:49-67 | a second rendering is accepted exactly when the first block's contents hold no marker, and equals rendering the second once |
| StatusBlock.Placed | internal/plan/projection.go:46-67 | for every accepted body, what stands around the block: the body without trailing breaks and a separator, or the text around the old block |
| StatusBlock.StripAfterPlace | internal/plan/model.go:250-262 | strip after render: the trimmed body when there was no block, otherwise the same as stripping the body |
| StatusBlock.StripStable | internal/plan/model.go:250-262 | stripping does not notice a rendering exactly when there was a block or no trailing break |
| StatusBlock.StripBlock | internal/plan/model.go:250-262 | a block is stripped with the line breaks on both sides of it |
| StatusBlock.StripKeeps | internal/plan/model.go:251-258 | without a start marker, or without an end marker behind the first one, nothing is stripped |
| Projections.RenderBlock | internal/plan/projection.go:69-111 | the loops print exactly the specified pieces for a sorted view of the tickets |
| ProjectionTexts.BlockReads | internal/plan/projection.go:69-111 | a rendering is the two markers around heading, table and note, for the tickets in the order of their numbers |
| ProjectionTexts.HeadingReads | internal/plan/projection.go:73-77 | state, version and the reason for a pause, letter by letter |
| ProjectionTexts.TableReads | internal/plan/projection.go:78-105 | one sentence without tickets, otherwise a header and rows; runtime columns exactly when some ticket was worked on |
| ProjectionTexts.RuntimeHeaderReads | internal/plan/projection.go:88-90 | the eleven columns, letter by letter and in order |
| ProjectionTexts.RuntimeRowReads | internal/plan/projection.go:99-101 | number, escaped title, the runtime cells, and blockers |
| ProjectionTexts.RuntimeCellsRead | internal/plan/projection.go:99-101 | the nine runtime cells in their order, the revision cut to twelve bytes, a pull request only when there is one |
| ProjectionTexts.RefsRead | internal/plan/projection.go:94-98 | the blockers of a row are references by number, each once for each time it is listed, in byte order |
| ProjectionTexts.EscapeReads | internal/plan/projection.go:180-182 | escaping works character by character: a bar gets a backslash, a line break becomes a blank, everything else stays |
| ProjectionTexts.DecimalReads | internal/plan/projection.go:99-104 | a printed number reads back as the number |
| Projections.RenderingUnique | internal/plan/projection.go:70-71 | with distinct numbers the unstable sort leaves one possible block |
| ProjectionLaws.RenderingClean | internal/plan/projection.go:69-111 | rendered contents hold a marker exactly when one escaped free text does: no marker arises across cells or lines |
| ProjectionLaws.RenderTwice | internal/plan/projection.go:49-111 | rendering p and then q equals rendering q exactly when p's free texts are clean |
| ProjectionLaws.SplitReasonRefused | internal/plan/projection.go:75-77 | a projection none of whose texts holds a marker and whose rendering, in any body, is not rendered over again |
| ProjectionLaws.EscapingJoinsMarkers | internal/plan/projection.go:180-182 | a marker split over a line break is no marker before escaping and a whole one after it |
| Activation.ProjectionFor | internal/plan/activate.go:114-134 | every child's entry once with all its blockers' numbers, refused exactly when a blocked issue is no child |
| Activation.WithBlockers | internal/plan/activate.go:121-132 | the walk over the blocker map in any order completes exactly the entries of the children |
| Activation.ProjectionMeans | internal/plan/activate.go:114-134 | one entry for each child, with the number of each issue that blocks it in listed order, and nothing of any run |
| Activation.ProjectionRendersOnce | internal/plan/activate.go:114-134 | an admitted snapshot has one status block, whatever order both map walks took |
| Fingerprint.CanonicalForm | internal/plan/model.go:191-232 | the loops build a canonical form: tickets by id, labels filtered and sorted, edges sorted, root stripped |
| FingerprintLaws.ContractLabelCount | internal/plan/model.go:240-248 | workflow:active and workflow:delivered never reach the print; of any other label every occurrence does |
| FingerprintLaws.LabelsShow | internal/plan/model.go:219-248 | of two plans that differ in labels only, the canonical forms are equal exactly when on every issue all labels but those two occur equally often |
| FingerprintLaws.AddedLabelShows | internal/plan/model.go:240-248 | one more label on one ticket keeps the canonical form exactly when it is one of those two |
| FingerprintLaws.ProgressKeepsValid | internal/plan/model.go:90-154 | nor do those two labels decide admission |
| FingerprintLaws.DependenciesMean | internal/plan/model.go:195-206 | every listed blocker makes one pair, blocked issue first, and the pairs increase strictly |
| FingerprintLaws.TicketsMean | internal/plan/model.go:207-227 | one print for each child, by strictly increasing id, each with the child's own id, number, title and body and its other labels in byte order |
| Fingerprint.CanonicalIdentifies | internal/plan/model.go:191-248 | two valid snapshots have the same canonical form exactly when repository, stripped root, tickets, filtered label multisets and edges agree |
| Fingerprint.ProjectionKeepsFingerprint | internal/plan/model.go:188-190 | writing the block keeps the form exactly when the body had a block or did not end in a line break |
| ManagedBlock.ReconcileReplaces | internal/repositorycontract/manifest.go:166-192 | a successful rewrite of a marked text replaces exactly the block and its line end |
| ManagedBlock.ReconcileAppends | internal/repositorycontract/manifest.go:166-180 | an unmarked text is kept whole and closed by line feeds before the block |
| ManagedBlock.ReconcileAccepts | internal/repositorycontract/manifest.go:166-181 | a text is rewritten exactly when it has no marker, or its first start marker comes before its first end marker |
| ManagedBlock.ReconcileIdempotent | internal/repositorycontract/manifest.go:166-192 | every successful rewrite is a fixed point |
| ManagedBlock.ExtractAfterReconcile | internal/repositorycontract/manifest.go:166-213 | extracting from a rewritten text gives the template block exactly when nothing marked followed the first end marker |
| ManagedBlock.ExtractMeans | internal/repositorycontract/manifest.go:194-213 | a block is extracted exactly when it is the only one and no other marker is left, and then with its markers and its line end |
| ManagedBlock.OneBlockIsEnough | internal/repositorycontract/manifest.go:166-213 | at most one marker of each kind meets that condition |
| ManagedBlock.TwoBlocksAreNotExtracted | internal/repositorycontract/manifest.go:194-213 | two blocks: the rewrite succeeds and nothing can be extracted |
| RepositoryContract.Render | internal/repositorycontract/manifest.go:42-85 | publishes exactly the effective whole files, the rewritten AGENTS.md and a manifest of their digests, or refuses |
| RepositoryContract.VerifyRemote | internal/repositorycontract/manifest.go:132-164 | accepts exactly when digest, identity, every listed file and the managed block agree |
| RepositoryContract.FilesMean | internal/repositorycontract/manifest.go:42-70 | the platform-owned files by name, the domain file of the layout, the branch in the trigger of the check unless it is main, and besides them only AGENTS.md and the manifest |
| RepositoryContract.ManifestMeans | internal/repositorycontract/manifest.go:70-85 | what identifies the contract, and exactly one digest for each platform-owned file and one for the block |
| RepositoryContract.AcceptedMeans | internal/repositorycontract/manifest.go:132-164 | what a published tree must hold, file by file and value by value |
| RepositoryContract.RenderedVerifies | internal/repositorycontract/manifest.go:42-164 | a rendering passes its own verification exactly when no marked text followed the first block |
| RepositoryContract.AcceptsExactlyTheContract | internal/repositorycontract/manifest.go:132-164 | with injective digests a tree is accepted exactly when manifest, owned files and block are byte for byte the rendered ones |
| GitStatus.ManagedConflict | internal/onboarding/discover.go:104-153 | the index loop with its skips computes the recursive reading of the records |
| GitStatus.ParserInvertsPrinter | internal/onboarding/discover.go:104-153 | for every printable list of entries the reader reports the first managed path, rename sources included, or none |
| GitStatus.RefusedRecords | internal/onboarding/discover.go:104-141 | which records are unreadable, and as what: too few columns for their type, a rename without its source, an untracked path without its blank, an unknown type |
| GitStatus.CoveredMeans | internal/onboarding/discover.go:141-148 | managed are the check workflow and everything below .workflow/ and docs/agents/, and AGENTS.md is not |
| GitStatus.FirstManagedMeans | internal/onboarding/discover.go:104-153 | what first managed path means: managed, with no managed path before it, and absent exactly when there is none |
| Isolation.IsolateWorkers | internal/isolation/coordinator.go:64-88 | proofs only from a batch that was fenced, isolated in full and in order, then acknowledged; the answer is the first thing that failed, or else the acknowledgement |
| Isolation.RetryWorkerTransition | internal/isolation/coordinator.go:27-62 | at most five calls, all of the given transition; success only as the last call's answer; every proof passed on was earned by a complete batch before that call; the first call that asks for no isolation decides the answer, unless isolation fails for good or attempts or time run out |
| Isolation.RetryDecides | internal/isolation/coordinator.go:27-62 | the answer is that of the first call after which no other is made: a call asks for isolation, the round was completed or failed by fencing only, fewer than five calls were made and time is left; a round that failed is joined to it |
| Outbox.Store.ClaimDelivery | internal/store/delivery.go:621-749 | the claim transition, branch by branch, as the function the run theorems use |
| Outbox.Store.FinishDelivery | internal/store/delivery.go:930-1017 | reject, defer, mark uncertain and requeue as one fenced transition |
| Outbox.Store.CompleteDelivery | internal/store/delivery.go:1019-1068 | completion, fenced by token and dispatcher, clears the flag |
| OutboxTerms.ClaimWins | internal/store/delivery.go:636-749 | a claim wins exactly when writes are allowed, the row is due or its holder is gone, fewer than three attempts were made, nothing of the inbox comes first and the dispatcher holds its lease |
| OutboxTerms.WinnerHolds | internal/store/delivery.go:674-749 | the winner holds a new token, and may only look exactly when the row was flagged or taken over |
| OutboxTerms.FinishSettles | internal/store/delivery.go:930-1017 | when a claim is rejected and when it waits again, with which flag, and that a stale or unheld claim changes nothing |
| OutboxTerms.BackoffDoubles | internal/store/delivery.go:1003-1006 | the wait is one second and then two, or until a later time that was asked for |
| DeliveryProtocol.CompleteHasEvidence | internal/delivery/gateway.go:147-260 | success is recorded only for a result observed or applied earlier, or for a superseded or planless request |
| DeliveryProtocol.ReconcileOnlyNeverApplies | internal/delivery/gateway.go:366-381 | a reconcile-only claim of anything but an inbox projection never applies |
| DeliveryProtocol.AppliesOnlyWherePermitted | internal/delivery/gateway.go:275-300 | compare and set: a write follows the latest observation, which found the remote as expected, and is never made once the request was heard to be obsolete |
| DeliveryProtocol.RejectionHasReason | internal/delivery/gateway.go:515-527 | a rejection follows a reason heard from the store or the remote, and never a write that was seen or may have taken effect |
| DeliveryProtocol.TouchedIsFlagged | internal/delivery/gateway.go:469-566 | one write per dispatch; what may have been written, and what was flagged, is given back flagged |
| GatewayDispatch.Gateway.Execute | internal/delivery/gateway.go:275-297 | observe first; the outcome is Verdicts.Outcome; success is backed by evidence; after a possible write the error is neither a rejection nor a credential failure |
| GatewayDispatch.Gateway.ApplyOnce | internal/delivery/gateway.go:299-315 | the write, and a second look when it failed and was not rate limited |
| GatewayDispatch.Gateway.ExecuteDelivery | internal/store/delivery.go:319-375 | the lease around the callback keeps those guarantees and yields Verdicts.Delivered; a lost lease is reported as uncertain |
| GatewayDispatch.Gateway.ReconcileOnly | internal/delivery/gateway.go:366-381 | looks only; completes what it saw, rejects what it did not see, flags what it could not look for; requeues when that fails |
| GatewayDispatch.Gateway.RequeueClaim | internal/delivery/gateway.go:469-481 | asks the claim back with the flag at least as strong |
| GatewayDispatch.Gateway.Succeed | internal/delivery/gateway.go:483-491 | nil only when completion was stored; otherwise requeued as uncertain |
| GatewayDispatch.Gateway.MarkUncertain | internal/delivery/gateway.go:493-513 | deferred with the flag until the time asked for, or requeued with the flag |
| GatewayDispatch.Gateway.Reject | internal/delivery/gateway.go:515-527 | rejected for a reason heard, with the flag of the claim, or requeued; never nil |
| GatewayDispatch.Gateway.Retry | internal/delivery/gateway.go:529-547 | deferred to the asked time or requeued, flag kept, and never nil |
| GatewayDispatch.Gateway.PauseForCredential | internal/delivery/gateway.go:549-566 | pauses, queues the inbox request and defers, or requeues; never nil |
| GatewayDispatch.Gateway.Dispatch | internal/delivery/gateway.go:147-260 | whatever the world answers the rules are kept, a claim that was won begins to be given back with exactly Verdicts.Settlement, is settled or asked back, and is completed exactly when that was a completion the store took |
| Verdicts.CompletesExactly | internal/delivery/gateway.go:147-260 | a claim is completed with a head exactly when nothing hindered the delivery and the remote was seen or written with that head inside the lease, or an answer that ended it says there is nothing more to write |
| SettlementLaws.RejectsExactly | internal/delivery/gateway.go:147-260 | a claim is rejected exactly when nothing stood before the delivery and its lease had run out, the remote was seen otherwise than expected, or the answer that ended it refuses the request and neither asks for a credential nor dismisses it; a recovery, exactly when it looked and found nothing |
| SettlementLaws.WaitsExactly | internal/delivery/gateway.go:493-566 | exactly when a claim is put back to wait, with which flag and until when |
| SettlementLaws.GivesBackExactly | internal/delivery/gateway.go:469-566 | exactly when a claim is asked back without being settled, and with which flag |
| Verdicts.FlagRaisedForReason | internal/delivery/gateway.go:493-513 | a fresh claim is given back flagged only when the lease or the context was lost, the write failed, or an error before the write itself reported uncertainty |
| GatewayDispatch.DispatchPending | internal/delivery/gateway.go:318-348 | terminates within the limit; dispatches exactly what was due at each query, pass after pass, and asks again exactly after a pass that made progress; says why it stopped; reports a failure exactly when the store failed or some dispatch failed otherwise than in progress |
| OutboxRuns.Perform | internal/store/delivery.go:621-1068 | the store performing a dispatch's action makes a step that runs allow, also when its answer is lost |
| OutboxInvariants.StepKeeps | internal/store/delivery.go:621-1068 | every step of every dispatch keeps the invariants on tokens, flags, holders and attempts |
| OutboxLaws.UncertaintyIsConservative | internal/delivery/gateway.go:147-260 | in every run: once a write may have taken effect the row is succeeded, flagged or in flight, exactly unless a claim in flight was rejected over its holder's head |
| OutboxLaws.AbandonedBy | internal/store/delivery.go:679-693 | which steps those are: a recoverable row out of attempts claimed again, or an early candidate |
| OutboxLaws.ExhaustionForgetsWrite | internal/store/delivery.go:679-693 | for every writable request a run of eight steps that ends rejected, unflagged and written |
| OutboxLaws.OnlyWritableTouches | internal/delivery/gateway.go:291-300 | a request whose expectations no remote meets is written in no run |
| OutboxLaws.FlagSticks | internal/store/delivery.go:930-1017 | a flag survives every claim, defer, reject, pause, requeue and recovery; only a seen write clears it |
| OutboxLaws.SettledOnce | internal/store/delivery.go:1008-1015 | two settling steps that take effect never share a claim token |
| OutboxWrites.NoSecondWrite | internal/store/delivery.go:674-749 | once a write may have taken effect no dispatch applies the request again, except inbox projections |
| OutboxLaws.BoundedClaims | internal/store/delivery.go:157-157 | at most three claims are handed out, and three more per reopening |
| OutboxLaws.LogsFollow | internal/delivery/gateway.go:147-260 | in every run each dispatch's own log keeps the rules Dispatch was proved to keep |
| RepositorySupervision.RepositorySupervisor.Reconcile | internal/controlplane/repository_supervisor.go:50-99 | the loops of the closure make exactly one reconcile step, or fail without touching the map |
| RepositorySupervision.RepositorySupervisor.DeregisterRunner | internal/controlplane/repository_supervisor.go:89-95 | a runner removes only its own entry |
| RepositorySupervision.RepositorySupervisor.Shutdown | internal/controlplane/repository_supervisor.go:107-115 | cancels and collects every entry in one step |
| RepositoryLaws.OneRunnerPerRepository | internal/controlplane/repository_supervisor.go:48-122 | at most one executing runner per repository under every interleaving |
| RepositoryLaws.ReconcileLeavesDesired | internal/controlplane/repository_supervisor.go:66-98 | right after a reconcile every uncancelled runner has exactly the configuration now desired |
| RepositoryLaws.DesiredMeans | internal/controlplane/repository_supervisor.go:50-65 | a repository is to run exactly when its last admission is eligible and a configuration of it is ready, and with the last such configuration |
| RepositoryLaws.ReconcileCancelsExactly | internal/controlplane/repository_supervisor.go:66-75 | a reconcile cancels exactly the entries whose repository is not to run, or not with that configuration |
| RepositoryLaws.ReconcileStartsExactly | internal/controlplane/repository_supervisor.go:76-98 | and starts exactly the wanted repositories that have no entry, keeping all others |
| RepositoryLaws.ReconcileCoversDesired | internal/controlplane/repository_supervisor.go:76-98 | every desired repository then has a live entry, its own or one already cancelled |
| RepositoryLaws.CleanReturn | internal/controlplane/repository_supervisor.go:107-119 | when Run returns through cancellation no runner is executing |
| RepositoryLaws.FailedReturn | internal/controlplane/repository_supervisor.go:97-120 | in every run, after a return through an error: nothing was cancelled since, the executing runners are those of the error that did not come back on their own, each still an entry of the map |
| RepositoryLaws.FailedReturnLeavesRunner | internal/controlplane/repository_supervisor.go:117-120 | a return after a store error may leave an uncancelled runner |
| WatchSupervision.WatchSupervisor.Reconcile | internal/controlplane/watch_supervisor.go:105-124 | starts present watches, then cancels and deletes the absent ones, as one step |
| WatchSupervision.WatchSupervisor.Shutdown | internal/controlplane/watch_supervisor.go:132-140 | cancels and collects the entries that are left |
| WatchLaws.OneUncancelledPerRepository | internal/controlplane/watch_supervisor.go:70-124 | at most one uncancelled lifetime per repository under every interleaving |
| WatchLaws.ReconcileFollowsWatches | internal/controlplane/watch_supervisor.go:105-124 | after a reconcile the entries are exactly the watches, old lifetimes kept, everything else cancelled |
| WatchLaws.CleanReturnLeavesOnlyDropped | internal/controlplane/watch_supervisor.go:132-144 | a poller still running after a clean return had lost its watch to an earlier reconcile |
| WatchLaws.DroppedPollerOutlivesRun | internal/controlplane/watch_supervisor.go:117-144 | a concrete run in which one does |
| WatchLaws.FailedReturn | internal/controlplane/watch_supervisor.go:125-150 | in every run, after a return through an error: map and cancellations stay, the running pollers are those of the error that did not exit, each an entry of the map or dropped earlier |
| WatchLaws.FailedReturnLeavesPoller | internal/controlplane/watch_supervisor.go:125-150 | a return after a store error may leave an uncancelled poller |
| WatchLaws.OlderWasDropped | internal/controlplane/watch_supervisor.go:72-124 | in every run, of two pollers of one repository the older had lost its watch to an earlier reconcile |
| WatchLaws.ReturningWatchOverlaps | internal/controlplane/watch_supervisor.go:72-124 | a concrete run with two pollers of one repository, one of them cancelled |
| WatchPoll.Poll | internal/controlplane/watch_supervisor.go:172-193 | succeeds exactly when the observation came, every new id is positive and its intake is recorded and reported, and so is the cursor; hands over exactly the new ids before the first that does not pass, ascending; the receipts are the old ones and one for each id that was recorded; the cursor moves to the last id or not at all |
| WatchPoll.HandOver | internal/controlplane/watch_supervisor.go:177-190 | the loop over the sorted issues: everything up to the cursor passed, and it stops at the first new id that does not |
| WatchPoll.RetriesConverge | internal/controlplane/watch_supervisor.go:81-100 | any sequence of failed polls ending in a success accepts the ids and records the cursor of one failure-free poll, edited issues included; and leaves the same receipts when none was edited |
| LauncherHome.FreshRecoveryForApply | internal/launcher/engine.go:1098-1144 | finds a recovery exactly when the declarative predicate holds of some consent and attempt |
| LauncherStaging.StagingIsComplete | internal/launcher/engine.go:613-633 | staging that succeeds staged the whole bundle exactly when the directory was absent or complete before |
| LauncherStaging.FailedStagingIsTrusted | internal/launcher/engine.go:617-618 | after any staging that failed once its directory existed, the next one succeeds at once and is incomplete |
| LauncherStaging.CleaningLeavesLayout | internal/launcher/engine.go:687-705 | cleaning a fresh failure leaves exactly the recovery layout |
| LauncherStaging.RetryRecovers | internal/launcher/engine.go:1098-1251 | what a fresh failure leaves is recognised by a retry, under any capabilities the consent still covers, exactly when the consent names this Home |
| LauncherEngine.Installation.FailFreshAttempt | internal/launcher/engine.go:684-705 | repair_required leaves exactly one consent and one failed attempt; it is what results whenever removal and record succeed |
| LauncherEngine.Installation.InstallCredential | internal/launcher/engine.go:356-377 | the credential changes only after it was authenticated and the old one is at hand for the rollback |
| LauncherEngine.Installation.StageGeneration | internal/launcher/engine.go:613-633 | the copy loop, stopping at the first failure |
| LauncherEngine.Installation.Commit | internal/launcher/engine.go:493-508 | the attempt is recorded verified before active.json is written, and nothing else changes |
| LauncherEngine.Installation.Activate | internal/launcher/engine.go:493-533 | before the commit a failure leaves active.json alone; after it the record names the new generation, and the outcome is ready exactly when that generation verifies, starts, is live and the record could be written |
| LauncherEngine.Installation.Repair | internal/launcher/engine.go:540-591 | repairs in place: the record stays or turns ready, never another generation; when it goes ahead and when it asks for consent, exactly |
| LauncherEngine.Installation.Apply | internal/launcher/engine.go:146-534 | every exit: active.json only moves forward to this target, readiness is earned, other generations' files are untouched, a fresh failure is recoverable, an uncommitted call restores the credential, the database in force is carried to the new generation and its backup, and exactly when the call commits, is refused or finds running work |
| LauncherTerms.CommitsExactly | internal/launcher/engine.go:146-508 | active.json is written exactly by the calls that fit Home, consent and locks, resume no repair, find no running work, back up what they replace, and in which no step fails; told from Home and answers alone |
| LauncherTerms.CommittedAnswers | internal/launcher/engine.go:508-534 | what a committed call answers: repair_required exactly when the generation does not verify, start or get ready, and an error exactly when only the record could not be written |
| LauncherTerms.RepairsExactly | internal/launcher/engine.go:540-591 | a call that resumes a repair ends ready exactly when it goes as far as the repair, its consent is the one of the attempt in force, and the generation verifies, takes its records and starts; otherwise the record stays as it was |
| LauncherTerms.RefusedUntouched | internal/launcher/engine.go:147-226 | a request or a Home that does not fit, or a consent that does not cover what is required, is refused before anything is written |
| LauncherTerms.ActiveWorkUntouched | internal/launcher/engine.go:229-252 | active_work is the answer exactly when a call that is let in over another installation finds work running, and then all but the lock is as it was |
| LauncherTerms.CredentialWritten | internal/launcher/engine.go:356-377 | a committed call leaves the given token and a line feed, or the credential that was there |
| LauncherTerms.GenerationNamed | internal/launcher/engine.go:920-922 | the generation is named by the digest in lower case without its sha256: prefix |
| LauncherTerms.RecoveryCapabilities | internal/launcher/engine.go:1257-1284 | a consent covers exactly what was accepted, or that with its Docker step taken |
| LauncherTerms.RecoveryLayoutHolds | internal/launcher/engine.go:1286-1341 | the only ten paths that a Home may hold for a retry, and which of them it must |
| LauncherTerms.VerifiesWhen | internal/launcher/engine.go:635-675 | the files a generation must hold, by name, and what its manifest says of them |
| LauncherLaws.RunsStaySound | internal/launcher/engine.go:493-533 | after any sequence of calls with any failures active.json names an attempt of its own generation recorded verified |
| LauncherLaws.ActiveIsForward | internal/launcher/engine.go:501-533 | the record in force was written by a call for its own target, every call since left it alone, and ready was earned in that call |
| LauncherLaws.OtherGenerationsUntouched | internal/launcher/engine.go:423-533 | a call for another bundle leaves a generation as verifiable and as it was, file by file |
| LauncherLaws.InForceSurvives | internal/launcher/engine.go:423-533 | whatever a call does and however it fails, a generation in force whose manifest does not list the database verifies as before |
| LauncherLaws.TruncatedDatabaseVerifies | internal/launcher/engine.go:430-438 | a call for the bundle in force whose copy of the backup stops half way is blocked; the record stays, the live database is the half, and verification is content |
| LauncherLaws.DatabaseAtRisk | internal/launcher/engine.go:430-438 | a request that could be applied puts the database of the generation in force at risk in an uncommitted call exactly when its digest names that generation |
| LauncherLaws.UpgradeCarriesDatabase | internal/launcher/engine.go:430-438 | once active.json names a new generation, that generation's database and the backup of the attempt it names are the database that was in force |
| LauncherLaws.DatabaseEndures | internal/launcher/engine.go:430-438 | over any sequence of calls with any failures the installation serves one and the same database, as long as no copy over the live database itself stops half way |
| LauncherLaws.UpgradeLosesManifest | internal/launcher/engine.go:423-429 | an upgrade whose manifest is the first file not to be copied is blocked and leaves a broken generation |
| LauncherLaws.CommittedIsWhole | internal/launcher/engine.go:423-508 | a committed call has the whole bundle staged exactly when nothing of that generation was there before, or all of it |
| LauncherLaws.RetryOfStoppedUpgrade | internal/launcher/engine.go:423-533 | the undisturbed retry of an upgrade stopped while staging commits, and is ready exactly when no directory was left or all but the database was |
| LauncherLaws.LossIsPermanent | internal/launcher/engine.go:613-682 | a generation whose directory is there and whose payload does not verify is never verified or answered ready by any sequence of calls |
| LauncherStaging.StagingLosesManifest | internal/launcher/engine.go:613-633 | staging whose manifest is the first file not to be copied fails and leaves a trusted directory that cannot verify |
| LauncherEngine.Installation.StageAndCopy | internal/launcher/engine.go:423-438 | a staging or a copy that fails over an installation is blocked and leaves the generations exactly as far as it came; one that succeeds carries the database in force to the candidate and its backup |
| LauncherLaws.CredentialMatchesRecord | internal/launcher/engine.go:258-266 | after a ready call the stored credential is the recorded one exactly unless the call resumed a repair with a different credential |
| LauncherLaws.UncommittedKeepsCredential | internal/launcher/engine.go:253-275 | a call that ends before the activation write, with an error or a repair included, leaves github.pat as found |
| LauncherLaws.CommittedExactly | internal/launcher/engine.go:501-508 | which calls committed, told from active.json: it changed and no repair was resumed; for errors exactly when it changed |
| LauncherLaws.FirstInstallIsReady | internal/launcher/engine.go:146-534 | a first installation that nothing disturbs ends ready with the whole bundle installed |
| LauncherLaws.FreshFailureRecovers | internal/launcher/engine.go:687-1144 | over runs: every fresh failure can be retried with the same target and consent |
| LauncherLaws.UndisturbedCallIsReady | internal/launcher/engine.go:146-534 | first installation, retry or upgrade: an admissible call that nothing disturbs commits, and is ready exactly when the generation was not there before or verifies but for its database; otherwise active.json names one that cannot start |
| LauncherLaws.RetryEndsReady | internal/launcher/engine.go:687-1144 | whatever failed in a first installation that reported repair_required, an undisturbed retry ends ready and whole |
| LauncherStaging.GoodBundleVerifies | internal/launcher/engine.go:635-682 | a bundle with a valid manifest of what it brings, staged whole, verifies as soon as there is a database |
| LauncherLaws.ConsentWriteStrands | internal/launcher/engine.go:304-306 | a consent write that failed after making its directory leaves a Home that every later call refuses |
| LauncherLaws.AttemptWriteStrands | internal/launcher/engine.go:320-329 | a failed attempt write can be retried exactly when it did not get as far as its directory |
| LauncherLaws.StrandedStays | internal/launcher/engine.go:147-165 | and every later call on such a Home is blocked and changes nothing |

## Left out

- Activate's order of remote steps and RenderWorkflowInbox: their effects are single calls, or text without markers, and would add only easy members.
- RecordDeliveryAudit, decorateTerminalInboxError and all error texts: they change no outbox row.
- The store's other tables: marking for attention, inbox ordering and dispatcher leases are arbitrary answers to the transitions.
- Backup restore, which may bring an older outbox row back, is not a step of the outbox runs.
- A poll's reading of the current watch between two ticks: each attempt starts from the recorded cursor.
- Tickers, timeouts and the dispatcher renewal goroutine are choices of the world.
- JSON, SHA-256 and the Go file system: encoding is invertible, digests are opaque or injective where a theorem says so, the Home is a map from paths to nodes; temporary files of atomic writes are assumed to be removed.
- LauncherLaws.DatabaseEndures: between two calls nothing else writes the database; `UpgradeCarriesDatabase`, about one call, holds of whatever stands there when it begins.
- LauncherLaws.UndisturbedCallIsReady: says nothing of a generation that was there with a manifest listing its own database, whose digest then depends on the copied content.
- Several installers at once: the launcher's locks are modelled, other processes changing the Home between the checks are not.
- Maintenance fences and the restart of the old control plane after a failed upgrade, which touch no file of the Home.
- Request validation, required capabilities and PAT verification are answers of the world; sameRecoveryCapabilities itself is modelled.
- FrontierLaws.FrontierOrderFree: stated where no ready ticket sees a cycle, because elsewhere it can fail (RankLaws.CycleShowsVisitingOrder); admission excludes cycles altogether.
- LauncherStaging.CleaningLeavesLayout: a removal that fails may stop half way; such a call reports blocked and no theorem promises a retry after it.
- The required capabilities are one answer per call: the code computes them up to four times in a call, and what happens when they change in between is not modelled.
- What Validate checks in a bundle's manifest is one flag of the manifest.
- Opening a candidate that is the generation in force also migrates its database and records in it; of the database only the replacement by a copy and the credential's record are modelled.
- Outbox.Store.ClaimDelivery: a row that does not exist and undecodable rows are not modelled; both return before the row changes.
- GatewayDispatch.DispatchPending: the dispatches of one pass are independent answers, so nothing is said here about how one item's dispatch affects another's.
