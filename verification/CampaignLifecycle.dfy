/** The campaign lifecycle and the control log's rules: pure functions both campaign registries
    share. Request digests are taken as injective, so a digest is the content it covers. Times are
    integers, and identifiers are generated outside and handed in. */
module CampaignLifecycle {
  import opened Basics

  datatype State =
    | Draft | Calibrating | AtProposal | AwaitingRuling | Building | Evaluating | Promoting
    | Repairing | Retrying | LaunchBlocked | Paused | Escalated | Completed

  datatype CampaignOutcome = Success | Failure | Aborted | Exhausted
  datatype CycleKind = Calibration | Increment | Repair | Retry
  datatype IntentState = Pending | Launched | Superseded
  datatype GateDecision = Approved | ApprovedWithRefinements | ReturnedForRevision | Rejected

  datatype Operation =
    | OpCreate | OpStart | OpPause | OpResume | OpAbort | OpSubmit | OpRule | OpDecide | OpPromote
    | OpMarkLaunched | OpClassify | OpRulingOverdue | OpLeaseAcquire | OpLeaseRelease
    | OpLaunchBlocked | OpLaunchUnblocked | OpLaunchRefused | OpEscalationOpened
    | OpEscalationClosed | OpEscalationAnswered | OpRebind | OpInstruct | OpBranchRebased
    | OpReviewPushed | OpContributionFailed | OpGoalDelegationGranted | OpContributionDismissed
  {
    predicate RecordsOnly() {
      || OpMarkLaunched? || OpClassify? || OpLeaseAcquire? || OpLeaseRelease? || OpEscalationOpened?
      || OpEscalationClosed?
      || OpEscalationAnswered? || OpRebind? || OpInstruct? || OpReviewPushed? || OpContributionFailed?
      || OpGoalDelegationGranted? || OpContributionDismissed?
    }

    predicate NeedsALiveCampaign() {
      OpGoalDelegationGranted?
    }

    predicate ChangesTheLease() {
      OpLeaseAcquire? || OpLeaseRelease?
    }
  }

  datatype Refusal =
    | ConflictingKey | StaleState | IllegalTransition | CampaignCompleted | StaleBinding
    | IllegalRuling | GateNotOpen | RunInFlight | BoxHeld | NotLeaseHolder | ResumeNotDelegated

  datatype AcceptedTree = AcceptedTree(identity: string, cycleId: Option<string>, calibrationRecordId: Option<string>,
                                       commit: Option<string>)
  datatype ProposalBinding = ProposalBinding(proposalId: string, version: int, contentHash: string,
                                             baselineTree: string)
  datatype SubmittedProposal = SubmittedProposal(binding: ProposalBinding, cycleId: string, runId: string)
  datatype IncrementRuling = IncrementRuling(decision: GateDecision, binding: ProposalBinding, runId: string)
  datatype LaunchRequest = LaunchRequest(cycleKind: CycleKind, cycleRequest: string)

  /** `about` stands for the objective, the policy and the creator: written at creation and read
      by no control operation. */
  datatype Campaign = Campaign(
    campaignId: string, projectId: string, about: string, state: State, createdAt: int, updatedAt: int,
    outcome: Option<CampaignOutcome>, accepted: Option<AcceptedTree>, proposal: Option<SubmittedProposal>)

  /** A row's binding: the two fields the lease reads, and the rest. */
  datatype Binding = Binding(heldBy: Option<string>, expiresInS: Option<int>, fields: map<string, string>)

  datatype TransitionData = TransitionData(
    operation: Operation, actor: string, actorRole: string, reason: string, key: string,
    nextState: Option<State>, outcome: Option<CampaignOutcome>, target: Option<string>, binding: Binding,
    expectedState: Option<State>, launch: Option<LaunchRequest>, accepted: Option<AcceptedTree>,
    submitted: Option<SubmittedProposal>, ruling: Option<IncrementRuling>, supersedes: Option<string>,
    repositoryBacked: Option<bool>)

  /** What a transition's own constructor checks: no other can be asked for. */
  predicate WellFormed(t: TransitionData) {
    && (t.repositoryBacked.Some? ==> t.nextState == Some(Completed))
    && !t.operation.OpCreate?
    && t.operation.RecordsOnly() == t.nextState.None?
    && (t.nextState == Some(Completed)) == t.outcome.Some?
    && (t.launch.Some? ==> !t.operation.RecordsOnly())
    && (t.operation.OpPromote? || t.operation.OpBranchRebased?) == t.accepted.Some?
    && (t.supersedes.Some? ==> t.operation.OpBranchRebased?)
    && t.operation.OpSubmit? == t.submitted.Some?
    && t.operation.OpRule? == t.ruling.Some?
  }

  const NO_BINDING := Binding(None, None, map[])

  type Transition = t: TransitionData | WellFormed(t)
    witness TransitionData(OpClassify, "", "", "", "", None, None, None, NO_BINDING, None, None, None, None, None,
                           None, None)

  datatype RequestHash =
    | CreationHash(campaignId: string, projectId: string, about: string, actor: string, actorRole: string,
                   reason: string, definition: Option<string>)
    | RecordHash(operation: Operation, target: Option<string>, binding: Binding)
    | MoveHash(content: TransitionData)

  /** One control-log row: applied when it names no refusal. */
  datatype Entry = Entry(
    entryId: string, campaignId: string, number: int, operation: Operation, actor: string, actorRole: string,
    reason: string, target: Option<string>, key: string, hash: RequestHash, binding: Binding,
    refusal: Option<Refusal>, priorState: Option<State>, nextState: State, committedAt: int, launchId: Option<string>)
  {
    predicate Applied() {
      refusal.None?
    }
  }

  datatype Intent = Intent(
    launchId: string, campaignId: string, decisionEntryId: string, cycleKind: CycleKind, cycleRequest: string,
    state: IntentState, createdAt: int, cycleId: Option<string>, launchedAt: Option<int>)

  datatype Lease = Lease(supervisor: bool, heldBy: string, acquiredAt: int, expiresAt: Option<int>,
                         campaignId: Option<string>)
  {
    predicate SupervisorHolds(now: int) {
      supervisor && expiresAt.Some? && now < expiresAt.value
    }
  }

  // --- the state machine ---

  const WORKING := {Calibrating, AtProposal, AwaitingRuling, Building, Evaluating, Promoting, Repairing, Retrying}
  const HOLDING := {LaunchBlocked, Paused, Escalated}

  function Forward(current: State): set<State> {
    match current
    case Draft => {Calibrating}
    case Calibrating => {AtProposal}
    case AtProposal => {AwaitingRuling}
    case AwaitingRuling => {Building, AtProposal}
    case Building => {Evaluating}
    case Evaluating => {Promoting, Repairing, Retrying, AtProposal}
    case Promoting => {AtProposal}
    case Repairing => {Evaluating, AtProposal}
    case Retrying => {Evaluating, AtProposal}
    case _ => {}
  }

  function LegalTargets(current: State): set<State> {
    if current == Completed then {}
    else if current == Draft then {Draft, Calibrating, LaunchBlocked, Completed}
    else Forward(current) + HOLDING + {Completed, current} + if current in HOLDING then WORKING else {}
  }

  // --- identity ---

  function LaunchIdFor(entryId: string): string {
    "lnc_" + entryId
  }

  function TransitionHash(t: Transition): RequestHash {
    if t.operation.RecordsOnly() then RecordHash(t.operation, t.target, t.binding)
    else
      var content: TransitionData := t;
      MoveHash(content.(key := "", repositoryBacked := None))
  }

  // --- adjudication ---

  datatype Verdict = Replays(entry: Entry) | Refuses(reason: Refusal) | Applies

  function RulingMove(decision: GateDecision): Option<State> {
    match decision
    case Approved => Some(Building)
    case ReturnedForRevision => Some(AtProposal)
    case Rejected => Some(AtProposal)
    case ApprovedWithRefinements => None
  }

  function RulingRefusal(campaign: Campaign, ruling: IncrementRuling, nextState: State): Option<Refusal> {
    if RulingMove(ruling.decision) != Some(nextState) then Some(IllegalRuling)
    else if campaign.proposal.None?
         || ruling.runId != campaign.proposal.value.runId
         || ruling.binding != campaign.proposal.value.binding
         || campaign.accepted.None?
         || ruling.binding.baselineTree != campaign.accepted.value.identity
    then Some(StaleBinding)
    else None
  }

  function Adjudicate(campaign: Campaign, t: Transition, recorded: Option<Entry>): Verdict {
    if recorded.Some? then
      if recorded.value.hash == TransitionHash(t) then Replays(recorded.value) else Refuses(ConflictingKey)
    else if t.operation.RecordsOnly() && !t.operation.NeedsALiveCampaign() then Applies
    else if campaign.state == Completed then Refuses(CampaignCompleted)
    else if t.expectedState.Some? && t.expectedState.value != campaign.state then Refuses(StaleState)
    else if t.operation.RecordsOnly() then Applies
    else if t.nextState.value !in LegalTargets(campaign.state) then Refuses(IllegalTransition)
    else if t.ruling.Some? then
      match RulingRefusal(campaign, t.ruling.value, t.nextState.value)
      case Some(reason) => Refuses(reason)
      case None => Applies
    else Applies
  }

  function SupersessionRefusal(campaign: Campaign, t: Transition, superseded: Option<Intent>): Option<Refusal> {
    if t.supersedes.None? then None
    else if superseded.None?
         || superseded.value.campaignId != campaign.campaignId
         || superseded.value.state != Pending
         || superseded.value.cycleKind !in {Repair, Retry}
    then Some(StaleState)
    else None
  }

  // --- the box lease ---

  datatype LeaseVerdict = LeaseRefused(reason: Refusal) | Leased(lease: Lease) | BindingMissesField

  const SQUAD := "squadops"

  /** `lease_refusal` and then `leased`; a binding without the field they read raises. */
  function JudgeLease(t: Transition, current: Option<Lease>, campaign: Campaign, now: int,
                      runsInFlight: seq<string>): LeaseVerdict
    requires t.operation.ChangesTheLease()
  {
    if t.binding.heldBy.None? then BindingMissesField
    else
      var heldBy := t.binding.heldBy.value;
      var holds := current.Some? && current.value.SupervisorHolds(now);
      var mine := holds && current.value.campaignId == Some(campaign.campaignId) && current.value.heldBy == heldBy;
      if t.operation.OpLeaseAcquire? then
        if campaign.state != AwaitingRuling then LeaseRefused(GateNotOpen)
        else if runsInFlight != [] then LeaseRefused(RunInFlight)
        else if holds && !mine then LeaseRefused(BoxHeld)
        else if t.binding.expiresInS.None? then BindingMissesField
        else Leased(Lease(true, heldBy, if mine then current.value.acquiredAt else now,
                          Some(now + t.binding.expiresInS.value), Some(campaign.campaignId)))
      else if holds && !mine then LeaseRefused(NotLeaseHolder)
      else Leased(Lease(false, SQUAD, now, None, None))
  }

  // --- the rows a control operation writes ---

  function ControlLogEntry(campaign: Campaign, t: Transition, entryId: string, number: int, now: int,
                           refusal: Option<Refusal>, launchId: Option<string>, derived: map<string, string>): Entry {
    Entry(entryId, campaign.campaignId, number, t.operation, t.actor, t.actorRole, t.reason, t.target, t.key,
          TransitionHash(t), t.binding.(fields := t.binding.fields + derived), refusal, Some(campaign.state),
          if refusal.None? && t.nextState.Some? then t.nextState.value else campaign.state, now, launchId)
  }

  function CreationEntry(campaign: Campaign, actor: string, actorRole: string, reason: string, key: string,
                         definition: Option<string>, entryId: string, now: int): Entry {
    Entry(entryId, campaign.campaignId, 1, OpCreate, actor, actorRole, reason, None, key,
          CreationHash(campaign.campaignId, campaign.projectId, campaign.about, actor, actorRole, reason, definition),
          NO_BINDING.(fields := if definition.Some? then map["definition" := definition.value] else map[]),
          None, None, Draft, now, None)
  }

  function AppliedCampaign(campaign: Campaign, t: Transition, now: int): Campaign {
    if t.nextState.None? then campaign
    else campaign.(
      state := t.nextState.value, outcome := t.outcome, updatedAt := now,
      accepted := if t.accepted.Some? then t.accepted else campaign.accepted,
      proposal := if t.submitted.Some? then t.submitted else campaign.proposal)
  }

  function NewLaunchIntent(campaignId: string, t: Transition, entryId: string, now: int): Option<Intent> {
    if t.launch.None? then None
    else Some(Intent(LaunchIdFor(entryId), campaignId, entryId, t.launch.value.cycleKind, t.launch.value.cycleRequest,
                     Pending, now, None, None))
  }

  function MarkKey(launchId: string): string {
    launchId + ":launched"
  }

  function MarkTransition(launchId: string, cycleId: string, actor: string): Transition {
    TransitionData(OpMarkLaunched, actor, "launcher", "the launcher created the intent's cycle", MarkKey(launchId),
                   None, None, Some(launchId), NO_BINDING.(fields := map["cycle_id" := cycleId]),
                   None, None, None, None, None, None, None)
  }

  function LaunchedIntent(intent: Intent, cycleId: string, now: int): Intent {
    intent.(state := Launched, cycleId := Some(cycleId), launchedAt := Some(now))
  }
}
