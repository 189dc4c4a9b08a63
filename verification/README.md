# Durable records under retries, races and crashes

A model, in Dafny, of the registries and small protocols that keep this system's records exact: the
Project registry, the campaign control log in its two implementations, exactly-once launches, run
numbers, checkpoints, listings, the locks they share, and the TensorFold, retry, resolver, snapshot,
goal-set and RabbitMQ protocols beside them. `dafny verify dfyconfig.toml` checks all of it.

How it is built:

- An operation that changes state is a pair of functions, what it writes and what it answers, and a
  class method that does it statement by statement and is proved equal to them. The theorems are
  about the functions, over every sequence of operations; and each operation has its exact effect,
  by its own arguments and the state before it (`ProjectCalls`, `CampaignCalls` and the lemmas named
  `…IsExact`).
- What several writers do at once is a state machine over the steps the database makes atomic.
- Facts taken from Postgres, and only these: a transaction commits whole or not at all; `FOR UPDATE`
  and advisory locks exclude and last to the transaction's end; an insert takes a share of the rows its
  foreign keys name, which `FOR UPDATE` excludes; a unique index refuses a committed
  duplicate; a serializable transaction reads one snapshot and fails when a row it locks changed
  since.
- Request hashes are taken as injective, so a hash is the content it covers. The replay of a campaign's
  log reads outcomes, trees and proposals out of that content: it shows that the log determines the
  campaign, not that a reader holding the stored digests could rebuild it. Times, generated ids and
  the closing binding's derivation are parameters.

## Where the code falls short of what it says

Each of these has a concrete example and the exact condition, proved both ways; the deadlock's is exact
for one holder and one assessment among any other operations, and a shared key is needed for any number.

- A validation whose commit is the empty string is tested with `is None` in one place and for truth in
  another (adapters/cycles/postgres_project_registry.py:229, 235, 284). It takes a READY Project out
  of READY and leaves a baseline that no event names. Every other run keeps every record the fold of
  its log: `ProjectHistory.HistoryIsExact`, `ProjectHistory.ReadyIsKept`.
- `list_cycles` with a status: the Postgres registry derives from the latest run even when that run is
  cancelled, where `derive_cycle_status` and the in-memory registry derive from the latest that is not
  (adapters/cycles/postgres_cycle_registry.py:203-210). A failed cycle with a cancelled retry is listed
  as created: `Listings.StatusesAgree`, `Listings.CyclePagesAgree`, `Listings.CancelledRetryExample`.
- `save_checkpoint` with `max_keep` 0 keeps every row in memory (`rows[-0:]`) and only the retained in
  Postgres: `Checkpoints.KeepZeroExample`, `Checkpoints.SavesAgree`, `Checkpoints.RunsAgree`.
- `_frames` says that anything but a complete reply is marked for release. A call cancelled before
  its 200 is read is not (adapters/llm/tensorfold.py:466-496), nor is a finished request the server
  has not yet let go: `TensorFoldRelease.SafeExactlyWhenNoneSlips`,
  `TensorFoldRelease.SlipPutsTwoInFlight`, `TensorFoldRelease.SlippedExamples`.
- The in-memory `create_cycle` overwrites an id the table refuses
  (adapters/cycles/memory_cycle_registry.py:71-72), and so breaks the one cycle per launch that
  `create_cycle_for_launch` keeps: a launch whose cycle was overwritten is next answered with another.
  `CycleRegistry.OverwriteExample`, `CycleRegistry.CreatesAlikeExactlyWhenNew`,
  `CycleRegistry.LaunchesHoldExactlyUnlessOverwritten`.
- A launch intent that a rebase superseded is said never to be launched
  (src/squadops/campaigns/lifecycle.py:300-302). A mark asks nothing of the intent's state, so a
  launcher that read the intent pending and marks it after the rebase launches it:
  `Superseding.SupersededIsLaunchedExample`, `Superseding.SupersededUnlessMarked`,
  `Superseding.SupersededExactlyUnlessMarked`.
- The registries' locks are said to be taken in one order so that nobody deadlocks
  (adapters/cycles/postgres_campaign_registry.py:213-214). An assessment takes its key's lock before
  the foreign key's share of its campaign's row, a holder takes the row before its revision's key, and
  one lock class serves both keys. A split and an assessment of a held campaign under one idempotency
  key wait for each other, and since the holder's connection is idle while its nested write waits on
  another, the database sees no cycle to break. `LockOrder.SharedKeyExample`,
  `LockOrder.CyclesShareAKey`, `LockOrder.PairDeadlocksOnlySharing`, `LockOrder.SharingPairDeadlocks`.
- `transitions_held` promises that what its body reads of the campaigns' logs is still true when it
  writes (src/squadops/ports/cycles/campaign_registry.py:103-109). In memory only transitions are held:
  a mark, a refusal or a lease change adds to a held campaign's log.
  `HeldTransitions.BodiesDifferExample`, `HeldTransitions.BodiesAgreeExactly`.

## Model

| member | source | states |
|---|---|---|
| ProjectHistory.SoundKept | adapters/cycles/postgres_project_registry.py:137-305 | every call keeps versions exactly 1..record_version with one event each, configuration, baseline and sync numbers 1..n, one event per key, and every document, row and initialization an event refers to on record and unchanged |
| ProjectHistory.FoldKept | adapters/cycles/postgres_project_registry.py:217-305 | a record stays the replay of its own events (status, baseline and upstream commits, diagnostic, configuration revision, and the baseline each re-validation replaced) over a call if and only if the call does not apply an empty commit |
| ProjectHistory.HistoryIsExact | adapters/cycles/postgres_project_registry.py:137-956 | over every run the tables stay sound, and every record is its events replayed at every step if and only if no empty commit was ever applied |
| ProjectHistory.EveryHistoryIsExact | adapters/cycles/postgres_project_registry.py:137-956 | the same of a registry that began empty |
| ProjectHistory.ReadyIsKept | adapters/cycles/postgres_project_registry.py:241-305 | READY is left exactly by an applied empty commit, and no Project is ever removed |
| ProjectHistory.EmptyCommitExample | adapters/cycles/postgres_project_registry.py:229-284 | the empty commit that breaks both |
| ProjectContributions.RunKeepsContributions | adapters/cycles/postgres_project_registry.py:606-729 | over every run a contribution is on record exactly when an event contributed it, with that event's commit and author and the last state recorded for it |
| ProjectContributions.EveryContributionIsTold | adapters/cycles/postgres_project_registry.py:606-729 | the same of every contribution of a registry that began empty |
| ProjectReplays.RepeatWritesNothing | adapters/cycles/postgres_project_registry.py:332-350 | a request the log holds, asked again, writes nothing and is answered from what it wrote |
| ProjectReplays.AppliedIsRecorded | adapters/cycles/postgres_project_registry.py:479-538 | an applied keyed write is on record under the very answer it gave |
| ProjectReplays.RepeatsAreFree | adapters/cycles/postgres_project_registry.py:747-770 | a repeat inserted anywhere later in any run changes no table; a configuration, baseline, sync or initialization answers with what it first wrote, whatever was revised between |
| ProjectCalls.RegisterIsExact | adapters/cycles/postgres_project_registry.py:137-215 | a registration is applied if and only if the registry is writable, its key new and its id free; it leaves and answers the description given, registering at version 1, and an event under its actor and key; and how each other case fails |
| ProjectCalls.ValidateIsApplied | adapters/cycles/postgres_project_registry.py:217-270 | a validation is applied if and only if it gives a commit or a diagnostic and not both, its key is new, and the Project is known, not archived, and READY only for a commit; and the failure of each other case |
| ProjectCalls.ValidateIsExact | adapters/cycles/postgres_project_registry.py:241-305 | an applied validation leaves the commit it was given as baseline and upstream, READY unless it is empty, with no diagnostic; or its diagnostic, failed, and both commits as they were; and one event under its actor and key that names what it was given and what it replaced |
| ProjectCalls.ConfigureIsExact | adapters/cycles/postgres_project_registry.py:309-387 | a configuration under a new key is applied if and only if its revision is the next; its document is stored at that revision and answered, the record names the revision, and the event the revision and the commit |
| ProjectCalls.BaselineIsExact | adapters/cycles/postgres_project_registry.py:458-539 | a baseline under a new key is stored and answered as given, at the next number, which its event names with its commit |
| ProjectCalls.SyncIsExact | adapters/cycles/postgres_project_registry.py:732-809 | a sync under a new key is stored and answered as given, at the next number, which its event names with the upstream |
| ProjectCalls.ContributeIsExact | adapters/cycles/postgres_project_registry.py:580-659 | a contribution is applied once per run of a cycle, stored and answered as given with an event by its author; a later one is answered with the first |
| ProjectCalls.ContributionStateIsExact | adapters/cycles/postgres_project_registry.py:670-730 | a known contribution takes the state and integrated commit given and nothing else, with an event under the actor; an unknown one fails |
| ProjectCalls.InitializeIsExact | adapters/cycles/postgres_project_registry.py:820-892 | an initialization is applied once per Project, stored and answered as given; a later one is answered with the first |
| ProjectCalls.SeedIsExact | adapters/cycles/postgres_project_registry.py:911-958 | a seed enters a READY record as described exactly when its Project was neither claimed nor on record, and claims it either way |
| ProjectCalls.UnappliedWritesNothing | adapters/cycles/postgres_project_registry.py:137-892 | a call that is refused or replayed leaves every table as it was |
| ProjectRegistry.PostgresProjectRegistry.RegisterProject | adapters/cycles/postgres_project_registry.py:137-215 | the registration's statements write and answer what the specification of the call does |
| ProjectRegistry.PostgresProjectRegistry.RecordValidation | adapters/cycles/postgres_project_registry.py:217-305 | the same of a validation, with its empty-commit branch as written; what that leaves is `ProjectCalls.ValidateIsExact` |
| ProjectRegistry.PostgresProjectRegistry.RecordDevelopmentConfiguration | adapters/cycles/postgres_project_registry.py:309-387 | the same of a configuration, at the next revision and against the expected one; what that leaves is `ProjectCalls.ConfigureIsExact` |
| ProjectRegistry.PostgresProjectRegistry.RecordInheritedBaseline | adapters/cycles/postgres_project_registry.py:458-539 | the same of a baseline capture |
| ProjectRegistry.PostgresProjectRegistry.RecordContribution | adapters/cycles/postgres_project_registry.py:580-659 | the same of a contribution |
| ProjectRegistry.PostgresProjectRegistry.RecordContributionState | adapters/cycles/postgres_project_registry.py:670-730 | the same of a contribution's state |
| ProjectRegistry.PostgresProjectRegistry.RecordSync | adapters/cycles/postgres_project_registry.py:732-809 | the same of an upstream sync |
| ProjectRegistry.PostgresProjectRegistry.RecordInitialization | adapters/cycles/postgres_project_registry.py:820-892 | the same of an initialization |
| ProjectRegistry.PostgresProjectRegistry.SeedFromConfig | adapters/cycles/postgres_project_registry.py:911-958 | the loop leaves the tables the entries' seedings leave in turn, and returns the ids they entered |
| ProjectRegistry.SeedingIsExact | adapters/cycles/postgres_project_registry.py:911-958 | after any prefix of a config every entry is claimed; what was entered is exactly the entries neither claimed nor on record, each once, as seeded and as the config first describes it; every other record stands |
| Numbering.NextKeepsSequential | adapters/cycles/postgres_project_registry.py:352-358 | numbering by `MAX + 1` keeps every owner's rows exactly 1..n, and no other number does |
| CampaignHistory.SoundKept | adapters/cycles/memory_campaign_registry.py:211-297 | every operation keeps each log numbered 1..n, a legal path from draft through the lifecycle ending in the campaign's state, one applied row per key, an outcome exactly when completed, and every intent a row names known |
| CampaignHistory.RunKeepsSound | adapters/cycles/memory_campaign_registry.py:100-297 | the same over every run |
| CampaignHistory.CompletedIsFinal | src/squadops/campaigns/lifecycle.py:84-115 | after a row that completes a campaign, every later row leaves it completed and any applied one only records |
| CampaignFold.RunKeepsFold | src/squadops/campaigns/lifecycle.py:401-413 | over every run a campaign's state, outcome, accepted tree, proposal and last change are determined by its creation and the requests its log's rows digest |
| CampaignFold.EveryCampaignIsItsLog | src/squadops/campaigns/lifecycle.py:401-413 | the same of every campaign of a registry that began empty |
| CampaignReplays.RetryChangesNothing | adapters/cycles/memory_campaign_registry.py:221-230 | a retry of an applied request leaves the registry as it is and answers with the row that request wrote, the campaign and the row's intent |
| CampaignReplays.LookupsNeverMiss | adapters/cycles/memory_campaign_registry.py:223-230 | no replay of a sound registry misses the row or the intent it returns |
| CampaignReplays.ErasingRetriesIsFree | adapters/cycles/memory_campaign_registry.py:211-297 | erasing every retry of an applied request from any run leaves campaigns, log, intents and lease identical |
| CampaignReplays.RefusalAddsOneRow | adapters/cycles/memory_campaign_registry.py:254-265 | a refusal changes the log alone, by one row that is not applied |
| CampaignReplays.LiveLeaseIsItsHolders | src/squadops/campaigns/box.py:150-205 | while a supervisor's lease is live, a call leaves it, renews it for the same holder and campaign, or is that holder giving it back |
| CampaignCalls.TargetsAreLegal | src/squadops/campaigns/lifecycle.py:39-115 | a state may follow another exactly as the lifecycle says: a live campaign may stay, complete, take its increment's course or wait, one that waits may go back to any work, a draft may only start or find its launch blocked |
| CampaignCalls.HashIsRequest | src/squadops/campaigns/lifecycle.py:139-166 | two operations hash alike if and only if they are one request: of a record, the same operation, target and binding; of a move, the same in all but the key |
| CampaignCalls.TransitionIsExact | src/squadops/campaigns/lifecycle.py:228-298 | under a key no applied row holds, a transition is applied if and only if it only records and needs no live campaign, or the campaign is not completed and in the state expected, the target legal, a ruling's decision goes with the target and is on the standing proposal over the accepted tree, and what is superseded is this campaign's pending repair or retry; otherwise it is refused for the first of these that fails |
| CampaignCalls.HeldKeyIsExact | src/squadops/campaigns/lifecycle.py:228-246 | under a key an applied row holds, the same request replays that row and any other is refused as a conflicting key |
| CampaignCalls.RefusalIsExact | src/squadops/campaigns/lifecycle.py:305-342 | a refusal leaves one row, which tells the request as made, moves nothing and launches nothing |
| CampaignCalls.AppliedIsExact | src/squadops/campaigns/lifecycle.py:305-432 | an applied transition leaves one row that tells the request and the launch, the campaign moved to its target with its outcome, tree and proposal, a pending intent exactly when a launch was asked for, and the lease as it was |
| CampaignCalls.AppliedIntentsAreExact | src/squadops/campaigns/lifecycle.py:280-302 | the launch is added, what is superseded is marked so, and no other intent changes |
| CampaignCalls.AcquireIsExact | src/squadops/campaigns/box.py:150-205 | under a new key an acquire is applied if and only if the campaign awaits a ruling, no run is in flight and nobody else's supervisor lease is live, and is refused for the first that fails; the lease is then the caller's, for this campaign, to now plus the seconds asked for, from now or from when it was first acquired |
| CampaignCalls.ReleaseIsExact | src/squadops/campaigns/box.py:150-205 | a release is applied if and only if nobody else's is live, and the box is then the squad's |
| CampaignCalls.LeaseChangeTells | adapters/cycles/memory_campaign_registry.py:156-164 | a lease change, applied or refused, adds the row that tells it and changes no campaign and no intent |
| CampaignCalls.CreateIsExact | src/squadops/campaigns/lifecycle.py:344-399 | a creation is of a draft without outcome; a new id gets the campaign given and a first row that tells it; a taken one is replayed exactly for the same creation under the same key |
| CampaignCalls.MarkIsExact | src/squadops/campaigns/lifecycle.py:437-460 | a mark under a new key records the cycle under the launch, launches the intent with it and changes no campaign |
| CampaignRegistry.MemoryCampaignRegistry.AppliedRow | adapters/cycles/memory_campaign_registry.py:205-209 | the loop finds the one applied row under a key |
| CampaignRegistry.MemoryCampaignRegistry.Commit | adapters/cycles/memory_campaign_registry.py:211-297 | the dictionaries after `_commit`, and its answer, are the specification's, and stay sound |
| CampaignRegistry.MemoryCampaignRegistry.CreateCampaign | adapters/cycles/memory_campaign_registry.py:100-141 | the same of a creation |
| CampaignRegistry.MemoryCampaignRegistry.ApplyTransition | adapters/cycles/memory_campaign_registry.py:143-149 | the same of a transition; which are applied, and what they leave, is `CampaignCalls.TransitionIsExact` and `CampaignCalls.AppliedIsExact` |
| CampaignRegistry.MemoryCampaignRegistry.ChangeBoxLease | adapters/cycles/memory_campaign_registry.py:156-164 | the same of a lease change; which are applied, and the lease then, is `CampaignCalls.AcquireIsExact` and `CampaignCalls.ReleaseIsExact` |
| CampaignRegistry.MemoryCampaignRegistry.RecordRefusal | adapters/cycles/memory_campaign_registry.py:166-181 | the same of a caller's refusal |
| CampaignRegistry.MemoryCampaignRegistry.MarkLaunchIntentLaunched | adapters/cycles/memory_campaign_registry.py:183-189 | the same of a mark |
| PostgresCampaigns.SameReads | adapters/cycles/postgres_campaign_registry.py:356-384 | over one table for every campaign, `MAX(seq)` is the in-memory log's length, row 1 its first row, and a key's applied row the same row |
| PostgresCampaigns.StepsAlike | adapters/cycles/postgres_campaign_registry.py:347-477 | one operation on twin registries, under an entry id new to both, gets the same answer, refusals and errors included, and leaves them twins |
| PostgresCampaigns.Simulates | adapters/cycles/postgres_campaign_registry.py:167-477 | over every run the two registries answer call for call alike and hold the same campaigns, logs, intents and lease |
| PostgresCampaigns.StartAsTwins | infra/migrations/1690_box_lease.sql:1-36 | the migrated database, its seeded squad lease included, is the empty registry's twin |
| PostgresCampaigns.SimulatesFromTheStart | adapters/cycles/postgres_campaign_registry.py:167-477 | from the migrated database and the empty registry, over every run, the same answers and the same contents |
| PostgresCampaignRegistry.Adapter.Commit | adapters/cycles/postgres_campaign_registry.py:347-477 | the transaction's statements, in order, leave the tables the specification does |
| PostgresCampaignRegistry.Adapter.WriteAll | adapters/cycles/postgres_campaign_registry.py:430-477 | an applied operation's updates in place, the superseding one only on a pending intent, or nothing when the entry or launch id is taken |
| PostgresCampaignRegistry.Adapter.CreateCampaign | adapters/cycles/postgres_campaign_registry.py:167-209 | a creation's statements, on a new id and on a taken one |
| PostgresCampaignRegistry.Adapter.Perform | adapters/cycles/postgres_campaign_registry.py:167-302 | each control operation does what the simulated one does |
| Launches.EventKeepsExact | adapters/cycles/postgres_cycle_registry.py:145-169 | any step of any launcher, a crash, a cycle of no launch or any control operation keeps one cycle per launch and every marked intent naming its own |
| Launches.LaunchedExactlyOnce | src/squadops/campaigns/launcher.py:232-256 | over every run of repeating and crashing launchers: callers of one launch all got the same cycle, callers of two launches two, the table holds no second, and a launched intent names it |
| Launches.LaunchCompletes | src/squadops/campaigns/launcher.py:232-243 | from any reachable state, a launcher that creates and marks, first or again, is answered with the launch's one cycle; the intent is then launched if and only if it was or no row held the mark's key; it names that cycle, and one already launched keeps the cycle it named |
| Launches.LaunchIsExact | adapters/cycles/postgres_cycle_registry.py:145-169 | a launch that has a cycle is answered with it; one that has none gets the cycle given unless another has its id, which raises; an unnamed launch or campaign is invalid; and nothing is written in any other case |
| Launches.CreateIsExact | adapters/cycles/postgres_cycle_registry.py:133-143 | a plain creation is stored, of no launch, if and only if its id is new |
| Superseding.SupersededUnlessMarked | src/squadops/campaigns/lifecycle.py:437-460 | a superseded intent stays superseded over a call if and only if the call is not a mark of it under a key no applied row holds |
| Superseding.SupersededExactlyUnlessMarked | src/squadops/campaigns/lifecycle.py:300-302 | the same throughout any run |
| Superseding.SupersededIsLaunchedExample | src/squadops/campaigns/launcher.py:232-243 | a repair decided on, superseded by a rebase, and launched by a mark that came after |
| CycleRegistry.MemoryCycleRegistry.CreateCycleForLaunch | adapters/cycles/memory_cycle_registry.py:77-92 | the dictionaries keep answering every lookup as the table does, and the answer is the table's |
| CycleRegistry.MemoryCycleRegistry.CreateCycle | adapters/cycles/memory_cycle_registry.py:71-75 | an id is overwritten; the answer is the table's and the dictionaries its mirror if and only if the id is new |
| CycleRegistry.CreatesAlikeExactlyWhenNew | adapters/cycles/memory_cycle_registry.py:71-75 | `create_cycle` in memory answers and leaves what the table's does if and only if the id is new |
| CycleRegistry.LaunchesAlike | adapters/cycles/memory_cycle_registry.py:77-92 | `create_cycle_for_launch` answers as the table's does and keeps the mirror, always |
| CycleRegistry.LaunchesHoldExactlyUnlessOverwritten | adapters/cycles/memory_cycle_registry.py:71-92 | over any run in memory, every answer a launch was given stands, and no two launches share a cycle, throughout if and only if no plain creation put another cycle under a launch's id |
| CycleRegistry.LaunchesHoldFromEmpty | adapters/cycles/memory_cycle_registry.py:71-92 | the same from an empty registry |
| CycleRegistry.OverwriteExample | adapters/cycles/memory_cycle_registry.py:71-92 | one launch answered with two cycles |
| CycleRegistry.MemoryCycleRegistry.SaveCheckpoint | adapters/cycles/memory_cycle_registry.py:450-471 | one run's rows and retained indexes become the pruning function's, and no other run's change |
| RunNumbers.LosesExactlyWhenBehind | adapters/cycles/postgres_cycle_registry.py:262-289 | a number drawn from a snapshot is taken if and only if the cycle gained a run since; otherwise it is the next |
| RunNumbers.AttemptAddsOneOrNothing | adapters/cycles/postgres_cycle_registry.py:249-301 | an attempt adds its one run at the next number or nothing, and loses only when another run of the cycle committed after its snapshot |
| RunNumbers.AttemptIsExact | adapters/cycles/postgres_cycle_registry.py:249-301 | an attempt commits if and only if its cycle stands as its snapshot has it and is not cancelled, its run id is new and the cycle gained no run since; each failure's exact condition; and only a lost number or a changed cycle is tried again, while tries are left |
| RunNumbers.NumbersAreExact | adapters/cycles/postgres_cycle_registry.py:249-301 | under every interleaving of stale snapshots, rollbacks and retries a cycle's numbers are exactly 1..n, a returned number is that caller's run, and a failed call lost no more tries than runs committed during it |
| Checkpoints.SurvivesExactlyWhenAlive | adapters/cycles/memory_cycle_registry.py:450-471 | a checkpoint saved at step j survives n saves, whatever their keeps, if and only if it is retained or every step i from j on keeps all (a keep of zero) or more than i - j |
| Checkpoints.RunKeeps | adapters/cycles/memory_cycle_registry.py:450-471 | the rows left are, in order, the retained below one low-water mark and every save from it on |
| Checkpoints.SavesAgree | adapters/cycles/postgres_cycle_registry.py:866-901 | pruning by position and by index agree on a save if and only if it keeps at least one or every row is retained |
| Checkpoints.RunsAgree | adapters/cycles/postgres_cycle_registry.py:866-901 | over a run of saves in index order the two registries hold the same checkpoints and retentions after every save if and only if each kept at least one or found everything retained |
| Checkpoints.KeepZeroExample | adapters/cycles/memory_cycle_registry.py:464-471 | one save with a keep of zero, present in memory and absent from the table |
| Listings.ListByStatus | adapters/cycles/postgres_cycle_registry.py:187-213 | the scan in batches of 200 that stops early returns exactly the whole list filtered by status, then sliced |
| Listings.StatusesAgree | adapters/cycles/postgres_cycle_registry.py:1045-1059 | deriving from the latest run and from all of them agree if and only if the cycle is cancelled, its latest run is not, or every run is |
| Listings.StatusIsItsRuns | src/squadops/cycles/lifecycle.py:99-131 | a cycle is cancelled exactly when it was, created exactly when it has no run but cancelled ones, and otherwise active, completed or failed as the first of its highest-numbered runs that are not cancelled |
| Listings.ListedStatusIsItsRun | adapters/cycles/postgres_cycle_registry.py:1045-1059 | the Postgres listing's status is that of the highest-numbered run of all, a cancelled one shown as created |
| Listings.CancelledRetryExample | src/squadops/cycles/lifecycle.py:99-131 | the cycle the two list under different statuses |
| Listings.CyclePagesAgree | adapters/cycles/memory_cycle_registry.py:99-130 | where creation times differ, the in-memory listing and the batched scan agree on every page of every status if and only if no cycle's latest run is caught cancelled |
| Listings.ListingIsExact | adapters/cycles/memory_cycle_registry.py:99-130 | the in-memory page is a slice of the cycles in the status, each as often as it is there, newest first |
| Listings.TwoSortsAreTheOrder | adapters/cycles/memory_campaign_registry.py:58-65 | the two stable sorts give the Project's campaigns, each as often as it is there, the later created first and then by id |
| Listings.CampaignPagesAgree | adapters/cycles/postgres_campaign_registry.py:87-99 | whatever the `ORDER BY` selects is that list, so every page agrees |
| Listings.LexIsFirstDifference | adapters/cycles/memory_campaign_registry.py:58-65 | one id is before another if and only if it ends, or has the smaller character, where they first differ |
| Ordering.PageIsSlice | adapters/cycles/memory_campaign_registry.py:64-65 | a page holds the list from its offset on, as long as the limit and the list allow |
| Ordering.PagesAreTheList | adapters/cycles/memory_campaign_registry.py:64-65 | consecutive pages concatenate to the list's prefix, and enough of them to all of it, with nothing lost or repeated |
| Ordering.FilterCommutes | adapters/cycles/memory_cycle_registry.py:111-130 | filtering before a stable sort or after it is the same |
| LockOrder.NoWaitCycle | adapters/cycles/postgres_campaign_registry.py:211-302 | while no open assessment is under an open holder's key, no session waits, through any others, for itself |
| LockOrder.SomeoneMoves | adapters/cycles/postgres_goal_set_registry.py:95-101 | while any session is open and keys are apart, one can take its next lock or commit |
| LockOrder.NeverDeadlocked | adapters/cycles/postgres_campaign_registry.py:211-302 | after any interleaving of holders, transitions, lease changes, marks, Project writes, revisions and assessments in which no assessment was started under a holder's key, the wait-for graph has no cycle |
| LockOrder.CyclesShareAKey | adapters/cycles/postgres_goal_set_registry.py:199-247 | every wait cycle of any reachable state goes through a holder waiting for its key, which an assessment under the same key holds |
| LockOrder.PairDeadlocksOnlySharing | adapters/cycles/postgres_goal_set_registry.py:199-247 | with one holder and one assessment among any other operations, a wait cycle needs one key for the two and the assessed campaign among those held |
| LockOrder.SharingPairDeadlocks | infra/migrations/2103_goal_set_assessments.sql:16-40 | and any holder and assessment that so share come, alone, to where they collide |
| LockOrder.SharedKeyDeadlocks | infra/migrations/2103_goal_set_assessments.sql:16-40 | from any state in which they collide, the assessment's next three locks are free, and then each waits for the other |
| LockOrder.DeadlockLasts | src/squadops/projects/goal_set_actions.py:241-243 | two sessions that wait for each other stay so, whatever else happens, until one is aborted |
| LockOrder.SharedKeyExample | src/squadops/projects/goal_set_actions.py:241-243 | a split and an assessment of its campaign under one key, each waiting for the other |
| LockOrder.BodySeesOneVersion | adapters/cycles/postgres_campaign_registry.py:211-222 | from the start of a holder's body to its end, whatever else commits, no campaign it holds changes |
| Serialized.CommitsApart | adapters/cycles/postgres_campaign_registry.py:211-302 | after any interleaving, of two sessions both ready to commit no two change or hold one campaign, assess a campaign the other changes, change the lease, take one intent, write one Project or record under a Project the other writes, revise or assess one Project, or use one key |
| HeldTransitions.PostgresBodyLets | adapters/cycles/postgres_campaign_registry.py:211-222 | a control operation that commits while a body runs is on no campaign the body holds |
| HeldTransitions.PostgresBodyLetsEach | adapters/cycles/postgres_campaign_registry.py:211-222 | and any that is on none of them can commit |
| HeldTransitions.MemoryBodyLets | adapters/cycles/memory_campaign_registry.py:143-154 | in memory, a control operation that commits while a body runs is no transition of a campaign of the body's Project |
| HeldTransitions.MemoryBodyLetsEach | adapters/cycles/memory_campaign_registry.py:143-189 | and any other can commit, on a held campaign too |
| HeldTransitions.BodiesAgreeExactly | src/squadops/ports/cycles/campaign_registry.py:103-109 | the two let the same operation commit if and only if it is a transition of the Project's exactly where its campaign is held |
| HeldTransitions.BodiesDifferExample | src/squadops/ports/cycles/campaign_registry.py:103-109 | a mark that memory alone lets commit, and a transition of a campaign created inside the body that Postgres alone does |
| TensorFoldStream.Reply.Read | adapters/llm/tensorfold.py:170-197 | one frame changes the reply's fields as the frame function does and yields the content it adds |
| TensorFoldStream.Complete | adapters/llm/tensorfold.py:549-564 | the message is the concatenation of what the stream's frames added, or the failure that ended it |
| TensorFoldStream.ChatStream | adapters/llm/tensorfold.py:654-659 | the pieces yielded are those the message concatenates or, on a failure, what was read before the line that stopped it |
| TensorFoldStream.YieldsDeltasOfLinesRead | adapters/llm/tensorfold.py:465-496 | failed or not, the pieces concatenate to the contents of every choice of exactly the lines before the first that stops the stream, none of them empty |
| TensorFoldStream.YieldsExactlyReplies | adapters/llm/tensorfold.py:456-496 | a message results if and only if, up to the first `[DONE]`, every line is in time, every frame JSON and no error, a usage frame arrived and each follows a finish in an earlier frame |
| TensorFoldStream.FailsAsItStops | adapters/llm/tensorfold.py:456-496 | a stream that yields no message fails as the first line that stops it says: late, not JSON, an error or an overflow, a usage before any finish, a `[DONE]` with no finish or no usage, or the end |
| TensorFoldStream.MessageIsItsDeltas | adapters/llm/tensorfold.py:184-197 | its text is every choice's content up to `[DONE]`, in order, its reasoning every thought, present exactly when some choice had one, and its finish and usage the last that arrived |
| TensorFoldRelease.Adapter.ConfirmReleased | adapters/llm/tensorfold.py:405-427 | the poll confirms if and only if some look in time saw no more than the request found; unconfirmed, the mark stays |
| TensorFoldRelease.StepSafeUnlessSlips | adapters/llm/tensorfold.py:456-496 | a step keeps at most one request running, known to the adapter, if and only if none slips past it |
| TensorFoldRelease.NeverTwoInFlight | adapters/llm/tensorfold.py:391-496 | from an adapter that has sent nothing, over any run of completions, deadlines, cancellations and broken streams: safe after every step if and only if none slips, and then never two run |
| TensorFoldRelease.SafeExactlyWhenNoneSlips | adapters/llm/tensorfold.py:391-496 | the same from any safe state |
| TensorFoldRelease.SlipPutsTwoInFlight | adapters/llm/tensorfold.py:466-496 | from any safe state, after any slip the next call goes out beside it, whatever its looks read |
| TensorFoldRelease.PendingUntilConfirmed | adapters/llm/tensorfold.py:405-427 | a mark lasts, and nothing is sent, over every run in which no readable look finds the server quiet, looks that find the request still running included |
| TensorFoldRelease.MarkLastsUnlessQuiet | adapters/llm/tensorfold.py:408-420 | between calls a mark is let go by a readable look at a quiet server and by nothing else |
| TensorFoldRelease.AbandonedIsAwaited | adapters/llm/tensorfold.py:405-496 | an abandoned request is marked with the count read before it was sent, or with none read, and a readable look lets the mark go if and only if no more run than that |
| TensorFoldRelease.SlippedExamples | adapters/llm/tensorfold.py:466-496 | the two slips that put two requests in flight |
| TransientRetry.Acquire | adapters/persistence/transient.py:67-86 | the outcome is the first try that did not fail to connect, the last allowed, or one cut in its pause; the pauses are the doubling sum |
| TransientRetry.Transaction | adapters/persistence/transient.py:88-110 | what each result says happened: a value is the last run's and committed once; an error is the last run's, which committed only if its connection was lost after it had; a rollback is the last of n; no connection is one given up on; a cancellation came in a pause after a rollback or a failed connection. What was paused is exactly each failed connection's and each rollback's doubling pause but the last's. At most n runs, n * n connection tries, and (n + 1) * backoff * (2^(n-1) - 1) of pause |
| Resolvers.TimeBoundResolver.Bounded | adapters/memory/reference_resolvers.py:76-92 | one call's outcome and the breaker after it; the family is reached exactly when the call is not refused |
| Resolvers.RefusedExactlyAfterOverrun | adapters/memory/reference_resolvers.py:76-92 | a call is refused if and only if it starts within a bound of some overrun's end; one that is not comes out as the family answers it |
| Resolvers.OverrunsApart | adapters/memory/reference_resolvers.py:47-92 | overruns start at least two bounds apart |
| Resolvers.OverrunsAreFew | adapters/memory/reference_resolvers.py:47-92 | overruns starting within T seconds number at most T / (2 * bound) + 1, and a bound's wait on each comes to at most T / 2 + bound |
| Snapshots.InMemoryStore.RecordSnapshot | adapters/memory/cross_cycle.py:123-125 | the store's new state and answer are the pin's in the racing model |
| Snapshots.InMemoryStore.RebindSnapshot | adapters/memory/cross_cycle.py:158-163 | a re-bind lands exactly on the version it was read from |
| Snapshots.InMemoryStore.RecordCycleBindings | adapters/memory/cross_cycle.py:130-142 | the loop leaves the binding function's rows and no other cycle's change |
| Snapshots.BindingOnlyAdds | adapters/memory/cross_cycle.py:130-142 | an entry a cycle holds never changes, every instruction asked for is held, and a new row is the first of its instructions |
| Snapshots.NoEditIsLost | adapters/memory/cross_cycle.py:465-489 | over every interleaving of pins, reads and re-binds on any units, a unit's snapshot is its first pin with every accepted edit applied in turn, each to the result of the one before |
| Snapshots.EverySnapshotIsItsChain | adapters/memory/cross_cycle.py:388-489 | the same of every unit, from an empty store |
| Snapshots.LaterPinsGetTheFirst | adapters/memory/cross_cycle.py:388-402 | whoever pins a unit later in any run changes nothing and gets the first pin with all the edits accepted since |
| Snapshots.RebindLandsExactlyOnCurrent | adapters/memory/cross_cycle.py:158-163 | a re-bind lands if and only if what its writer read is what is held |
| Snapshots.LandsExactlyAsNext | adapters/memory/cross_cycle.py:158-163 | after any run, what lands on a unit is exactly the next version of the snapshot first pinned to it: never another snapshot's or one from an earlier version |
| GoalSets.PostgresGoalSetRegistry.RecordRevision | adapters/cycles/postgres_goal_set_registry.py:84-143 | the transaction's statements are the specification's and keep numbers and keys exact |
| GoalSets.PostgresGoalSetRegistry.RecordAssessment | adapters/cycles/postgres_goal_set_registry.py:188-247 | the same of an assessment, whose number the registry gives |
| GoalSets.NoRevisionIsLost | adapters/cycles/postgres_goal_set_registry.py:95-143 | over every interleaving of writers that read a Project's latest revision and submit an edit of it as the next, its revisions are the chain of the accepted edits, and the i-th was computed from revision i, so at most one writer that read a revision is accepted |
| GoalSets.EveryRevisionIsItsChain | adapters/cycles/postgres_goal_set_registry.py:95-143 | the same of every Project, from an empty table |
| GoalSets.AcceptedExactlyWhenLatest | adapters/cycles/postgres_goal_set_registry.py:102-126 | in any such state a submission is accepted if and only if its key is new, its Project known, and the revision it was computed from still the latest |
| GoalSets.RetryReplays | adapters/cycles/postgres_goal_set_registry.py:102-113 | a recorded revision, retried after any later revisions, is answered with its own row and writes nothing |
| GoalSets.ReviseIsExact | adapters/cycles/postgres_goal_set_registry.py:84-143 | a revision under a new key is recorded as given if and only if its Project is known and it is the next; a held key answers its own row for the same Project and hash and conflicts for any other; nothing else is written |
| GoalSets.AssessIsExact | adapters/cycles/postgres_goal_set_registry.py:188-247 | an assessment under a new key is recorded as given at the next number; a held key answers its own row for the same Project and hash and conflicts for any other |
| GoalSets.AssessmentRetryReplays | adapters/cycles/postgres_goal_set_registry.py:199-230 | an assessment retried after any later assessments is answered with its own row, numbered when it was recorded, and writes nothing |
| Broker.GoneOnlyAfterReturn | adapters/comms/rabbitmq.py:395-471 | over any run with drops and redeliveries, under redeliver-on-failure a message is gone if and only if some delivery's ack landed; that delivery's callback returned and no other's ack ever landed; and no delivery is settled twice |
| Broker.AlwaysDeliverable | adapters/comms/rabbitmq.py:395-471 | from any state a message not gone is taken out, and no other, by a drop, a fresh delivery, a callback that returns and an ack that reaches the broker |
| Broker.SettlesAsPolicy | adapters/comms/rabbitmq.py:435-471 | once the callback of a delivery still out is done, the settlement that lands takes the message out after a return, hands it back or takes it out after a failure as the policy says, and a cancelled one leaves it out |
| Broker.SettlesOnce | adapters/comms/rabbitmq.py:435-471 | whatever the callback, the nack and the ack come to, one dispatch sends at most one settlement, the policy's: a failed nack is followed by no ack |
| Broker.Dispatch | adapters/comms/rabbitmq.py:448-471 | the three tries, in order, send that settlement, and a cancellation in whichever was reached leaves it |
| Broker.PublishMessage | adapters/comms/rabbitmq.py:150-242 | at most three tries, each but the last failed and slept on; the result is the last try's, a queue error only after three and a cancellation if its backoff was cut; a delay is refused before any; and the copies stored after each try |
| Broker.RetryMessage | adapters/comms/rabbitmq.py:499-533 | the result each outcome of the publish and the ack gives, and the broker's copies before the first send, after each and after the ack: at least one at every such point |

## Left out

- SQL text, JSONB codecs, asyncpg and row mappers: tables are maps and sequences.
- Postgres campaign creation racing itself: `ON CONFLICT` waits for the first and then reads it, so it is one step.
- Blank-text checks of a campaign's creation and of a transition's own constructor, event ids and timestamps of Project events.
- The derivation behind `closing_binding`: a parameter, the same for both registries.
- Source mappings, derived profiles, provenances and the other reads of the Project registry: easy members.
- Collation: campaign ids are ordered by code point, as Python orders them.
- Rows of equal creation time in `list_cycles`: the query orders them no further, so a fixed order is assumed and agreement is stated where times differ.
- LockOrder.SomeoneMoves: does not model the connection pool, whose exhaustion could block a holder's nested write.
- LockOrder.PairDeadlocksOnlySharing: with several holders and assessments only the shared key is shown to be needed, since the campaigns may then be waited for through others.
- Checkpoints.SavesAgree: `max_keep` is a natural number, because a negative one is an error to Postgres and another slice to Python.
- The gate, waiver, artifact-reference, failure-record and run-status operations of the cycle registries: single-row writes.
- Launches.LaunchCompletes: cancelling a cycle launched after an abort is not modelled.
- RunNumbers.NumbersAreExact: does not bound how many tries Postgres may roll back without a conflict.
- TensorFoldRelease.NeverTwoInFlight: one client and one call at a time.
- TensorFold payloads, sampling, token rates and error text; the HTTP, Docker, Redis, Langfuse, OpenTelemetry and Keycloak clients.
- Resolvers.OverrunsAreFew: calls one at a time; concurrent calls share one breaker and may overrun together.
- CycleRegistry.LaunchesHoldExactlyUnlessOverwritten: launches and plain creations only; marks are as on the table.
- Broker.GoneOnlyAfterReturn: the cached queue handles and resubscribe counters are not part of the state; a drop hands back what was out.
- Observations, annotations, approvals, revocations and exposures of cross-cycle memory: first-write-wins inserts like the snapshot's.
- The artifact vault, chat cache, session store, log forwarder, event bus, scenario runner and container backend.
