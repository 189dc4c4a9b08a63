/** What each control operation does, by its own fields and the registry before it: when it is applied,
    which refusal it meets first, and everything it leaves. */
module CampaignCalls {
  import opened Basics
  import opened CampaignLifecycle
  import opened Campaigns
  import opened CampaignHistory

  predicate Awaiting(s: State) {
    s == LaunchBlocked || s == Paused || s == Escalated
  }

  predicate Working(s: State) {
    || s == Calibrating || s == AtProposal || s == AwaitingRuling || s == Building || s == Evaluating
    || s == Promoting || s == Repairing || s == Retrying
  }

  /** The increment's own course. */
  predicate Course(s: State, t: State) {
    || (s == Calibrating && t == AtProposal)
    || (s == AtProposal && t == AwaitingRuling)
    || (s == AwaitingRuling && (t == Building || t == AtProposal))
    || (s == Building && t == Evaluating)
    || (s == Evaluating && (t == Promoting || t == Repairing || t == Retrying || t == AtProposal))
    || (s == Promoting && t == AtProposal)
    || ((s == Repairing || s == Retrying) && (t == Evaluating || t == AtProposal))
  }

  /** A live campaign may stay, complete, take its course, or wait; one that waits may go back to any
      work; a draft may only start or find its launch blocked. */
  predicate Legal(s: State, t: State) {
    && s != Completed
    && (|| t == s || t == Completed
        || (s == Draft && (t == Calibrating || t == LaunchBlocked))
        || (s != Draft && (Awaiting(t) || Course(s, t) || (Awaiting(s) && Working(t)))))
  }

  lemma {:induction false} CourseIsForward(s: State, t: State)
    ensures t in Forward(s) <==> Course(s, t) || (s == Draft && t == Calibrating)
  {
  }

  lemma {:induction false} KindsOfState(t: State)
    ensures t in HOLDING <==> Awaiting(t)
    ensures t in WORKING <==> Working(t)
  {
  }

  lemma {:induction false} TargetsAreLegal(s: State, t: State)
    ensures t in LegalTargets(s) <==> Legal(s, t)
  {
    CourseIsForward(s, t);
    KindsOfState(s);
    KindsOfState(t);
  }

  /** No applied row of the log holds the key. */
  predicate KeyFree(log: seq<Entry>, key: string) {
    forall i :: 0 <= i < |log| && log[i].Applied() ==> log[i].key != key
  }

  lemma {:induction false} KeyFreeIsNone(log: seq<Entry>, key: string)
    ensures AppliedWithKey(log, key).None? <==> KeyFree(log, key)
  {
    KeyHolder(log, key);
  }

  // --- requests ---

  /** Two operations are one request: of a record, the same operation, target and binding; of a move,
      the same in all but the key, and in what it says of the repository. */
  predicate SameRequest(a: Transition, b: Transition) {
    if a.nextState.None? then
      b.nextState.None? && a.operation == b.operation && a.target == b.target && a.binding == b.binding
    else
      && b.nextState.Some? && a.operation == b.operation && a.actor == b.actor && a.actorRole == b.actorRole
      && a.reason == b.reason && a.nextState == b.nextState && a.outcome == b.outcome && a.target == b.target
      && a.binding == b.binding && a.expectedState == b.expectedState && a.launch == b.launch
      && a.accepted == b.accepted && a.submitted == b.submitted && a.ruling == b.ruling && a.supersedes == b.supersedes
  }

  lemma {:induction false} HashIsRequest(a: Transition, b: Transition)
    ensures TransitionHash(a) == TransitionHash(b) <==> SameRequest(a, b)
  {
  }

  // --- transitions ---

  /** An operation that only records, on a campaign in any state. */
  predicate Free(t: Transition) {
    t.nextState.None? && !t.operation.OpGoalDelegationGranted?
  }

  predicate Expected(campaign: Campaign, t: Transition) {
    t.expectedState.None? || t.expectedState == Some(campaign.state)
  }

  predicate Reachable(campaign: Campaign, t: Transition) {
    t.nextState.Some? ==> Legal(campaign.state, t.nextState.value)
  }

  /** An approval builds; a return or a rejection proposes again. */
  predicate Decided(t: Transition) {
    t.ruling.Some? ==>
      || (t.ruling.value.decision == Approved && t.nextState == Some(Building))
      || (t.ruling.value.decision == ReturnedForRevision && t.nextState == Some(AtProposal))
      || (t.ruling.value.decision == Rejected && t.nextState == Some(AtProposal))
  }

  /** A ruling is on the proposal that stands, over the tree that is accepted. */
  predicate Binds(campaign: Campaign, t: Transition) {
    t.ruling.Some? ==>
      && campaign.proposal.Some? && campaign.accepted.Some?
      && t.ruling.value.runId == campaign.proposal.value.runId
      && t.ruling.value.binding == campaign.proposal.value.binding
      && t.ruling.value.binding.baselineTree == campaign.accepted.value.identity
  }

  /** What is superseded is a pending repair or retry of this campaign. */
  predicate Replaceable(r: Registry, id: string, t: Transition) {
    t.supersedes.Some? ==>
      && t.supersedes.value in r.intents
      && var intent := r.intents[t.supersedes.value];
         intent.campaignId == id && intent.state == Pending && (intent.cycleKind == Repair || intent.cycleKind == Retry)
  }

  predicate Applicable(r: Registry, id: string, t: Transition)
    requires id in r.campaigns
  {
    var campaign := r.campaigns[id];
    || Free(t)
    || (&& campaign.state != Completed && Expected(campaign, t) && Reachable(campaign, t) && Decided(t)
        && Binds(campaign, t) && Replaceable(r, id, t))
  }

  /** The refusal is that of the first condition that fails. */
  ghost predicate RefusedFor(r: Registry, id: string, t: Transition, refusal: Refusal)
    requires id in r.campaigns
  {
    var campaign := r.campaigns[id];
    if campaign.state == Completed then refusal == CampaignCompleted
    else if !Expected(campaign, t) then refusal == StaleState
    else if !Reachable(campaign, t) then refusal == IllegalTransition
    else if !Decided(t) then refusal == IllegalRuling
    else if !Binds(campaign, t) then refusal == StaleBinding
    else refusal == StaleState
  }

  /** All but what the intents decide, of a campaign under a new key. */
  lemma {:induction false} VerdictIsExact(campaign: Campaign, t: Transition)
    ensures var v := Adjudicate(campaign, t, None);
      if Free(t) then v == Applies
      else if campaign.state == Completed then v == Refuses(CampaignCompleted)
      else if !Expected(campaign, t) then v == Refuses(StaleState)
      else if !Reachable(campaign, t) then v == Refuses(IllegalTransition)
      else if !Decided(t) then v == Refuses(IllegalRuling)
      else if !Binds(campaign, t) then v == Refuses(StaleBinding)
      else v == Applies
  {
    if t.nextState.Some? { TargetsAreLegal(campaign.state, t.nextState.value); }
  }

  /** Under a key no applied row holds, a transition is applied if and only if it is applicable, and
      refused for the first condition that fails. */
  lemma {:induction false} TransitionIsExact(r: Registry, id: string, t: Transition, stamp: Stamp, closing: Closing)
    requires Good(r, id) && !t.operation.ChangesTheLease() && KeyFree(r.log[id], t.key)
    ensures var reply := Decide(r, Transit(id, t), stamp, closing).1;
      && (reply.Applied? <==> Applicable(r, id, t))
      && (!Applicable(r, id, t) ==>
            reply.Refused? && reply.entry.refusal.Some? && RefusedFor(r, id, t, reply.entry.refusal.value))
  {
    KeyFreeIsNone(r.log[id], t.key);
    VerdictIsExact(r.campaigns[id], t);
  }

  /** Under a key an applied row holds, the same request replays that row, and any other is refused. */
  lemma {:induction false} HeldKeyIsExact(r: Registry, id: string, t: Transition, first: Transition, i: nat,
                                          stamp: Stamp, closing: Closing)
    requires Good(r, id) && !t.operation.ChangesTheLease() && i < |r.log[id]|
    requires r.log[id][i].Applied() && r.log[id][i].key == t.key && r.log[id][i].hash == TransitionHash(first)
    ensures var reply := Decide(r, Transit(id, t), stamp, closing).1;
      if SameRequest(t, first) then reply.Replayed? && reply.entry == r.log[id][i] && reply.campaign == r.campaigns[id]
      else reply.Refused? && reply.entry.refusal == Some(ConflictingKey)
  {
    KeyHolder(r.log[id], t.key);
    HashIsRequest(t, first);
    var held := AppliedWithKey(r.log[id], t.key).value;
    var j :| 0 <= j < |r.log[id]| && r.log[id][j] == held;
    OneHolder(r.log[id], i, j);
    assert LaunchesKnown(r.log[id], r.intents);
  }

  lemma {:induction false} OneHolder(log: seq<Entry>, i: nat, j: nat)
    requires OneAppliedPerKey(log) && i < |log| && j < |log| && log[i].Applied() && log[j].Applied()
    requires log[i].key == log[j].key
    ensures i == j
  {
  }

  // --- what a row says, and what a move leaves ---

  /** The row records the request as it was made, on the campaign as it stood. */
  predicate Tells(row: Entry, campaign: Campaign, t: Transition, number: int, stamp: Stamp) {
    && row.entryId == stamp.entryId && row.committedAt == stamp.now && row.number == number
    && row.campaignId == campaign.campaignId && row.operation == t.operation && row.actor == t.actor
    && row.actorRole == t.actorRole && row.reason == t.reason && row.target == t.target && row.key == t.key
    && row.hash == TransitionHash(t) && row.priorState == Some(campaign.state)
    && row.binding.heldBy == t.binding.heldBy && row.binding.expiresInS == t.binding.expiresInS
    && (forall f :: f in t.binding.fields ==> f in row.binding.fields)
    && (t.repositoryBacked.None? ==> row.binding == t.binding)
  }

  /** A refusal leaves one row, which tells the request, moves nothing and launches nothing. */
  lemma {:induction false} RefusalIsExact(r: Registry, id: string, t: Transition, stamp: Stamp, closing: Closing)
    requires Good(r, id) && Decide(r, Transit(id, t), stamp, closing).1.Refused?
    ensures var row := Decide(r, Transit(id, t), stamp, closing).1.entry;
      && Tells(row, r.campaigns[id], t, |r.log[id]| + 1, stamp) && row.binding == t.binding
      && row.nextState == r.campaigns[id].state && row.launchId.None?
      && Step(r, Transit(id, t), stamp, closing) == r.(log := r.log[id := r.log[id] + [row]])
  {
  }

  /** What an applied transition makes of its campaign. */
  predicate Moved(before: Campaign, after: Campaign, t: Transition, now: int) {
    if t.nextState.None? then after == before
    else
      && after.campaignId == before.campaignId && after.projectId == before.projectId && after.about == before.about
      && after.createdAt == before.createdAt && after.state == t.nextState.value && after.outcome == t.outcome
      && after.updatedAt == now
      && after.accepted == (if t.accepted.Some? then t.accepted else before.accepted)
      && after.proposal == (if t.submitted.Some? then t.submitted else before.proposal)
  }

  /** The launch a transition asks for, pending under the id its row makes. */
  predicate Launches(intent: Option<Intent>, id: string, t: Transition, stamp: Stamp) {
    if t.launch.None? then intent.None?
    else
      && intent.Some? && intent.value.launchId == "lnc_" + stamp.entryId && intent.value.campaignId == id
      && intent.value.decisionEntryId == stamp.entryId && intent.value.cycleKind == t.launch.value.cycleKind
      && intent.value.cycleRequest == t.launch.value.cycleRequest && intent.value.state == Pending
      && intent.value.createdAt == stamp.now && intent.value.cycleId.None? && intent.value.launchedAt.None?
  }

  /** The intents after: the new one added, and the superseded one's state changed. */
  predicate IntentsAfter(before: map<string, Intent>, after: map<string, Intent>, intent: Option<Intent>,
                         t: Transition) {
    && after.Keys == before.Keys + (if intent.Some? then {intent.value.launchId} else {})
    && (forall l :: l in before && t.supersedes != Some(l) && (intent.None? || intent.value.launchId != l) ==>
          after[l] == before[l])
    && (t.supersedes.Some? && t.supersedes.value in before ==>
          after[t.supersedes.value] == before[t.supersedes.value].(state := Superseded))
    && (intent.Some? && t.supersedes != Some(intent.value.launchId) ==> after[intent.value.launchId] == intent.value)
  }

  /** An applied transition is a move, of the intent it supersedes if there is one, and of no lease. */
  lemma {:induction false} TransitionMoves(r: Registry, id: string, t: Transition, stamp: Stamp, closing: Closing)
    requires id in r.campaigns && id in r.log && Decide(r, Transit(id, t), stamp, closing).1.Applied?
    ensures Decide(r, Transit(id, t), stamp, closing) ==
      DecideMove(r, id, t, None, IntentAt(r.intents, t.supersedes), None, stamp, closing)
  {
  }

  lemma {:induction false} MoveTells(r: Registry, id: string, t: Transition, superseded: Option<Intent>, stamp: Stamp,
                                     closing: Closing)
    requires Good(r, id)
    ensures var reply := DecideMove(r, id, t, None, superseded, None, stamp, closing).1;
      && reply.Applied? && Tells(reply.entry, r.campaigns[id], t, |r.log[id]| + 1, stamp) && reply.entry.Applied()
      && reply.entry.nextState == reply.campaign.state
      && reply.entry.launchId == (if reply.intent.Some? then Some(reply.intent.value.launchId) else None)
      && Moved(r.campaigns[id], reply.campaign, t, stamp.now) && Launches(reply.intent, id, t, stamp)
      && (t.repositoryBacked.Some? ==>
            reply.entry.binding.fields ==
              t.binding.fields + closing(t.repositoryBacked.value, r.log[id], IntentsOf(r.intents, id)))
  {
  }

  /** An applied transition leaves its row, which tells the request and the launch; the campaign moved;
      and nothing else but the intents changed. */
  lemma {:induction false} AppliedIsExact(r: Registry, id: string, t: Transition, stamp: Stamp, closing: Closing)
    requires Good(r, id) && Decide(r, Transit(id, t), stamp, closing).1.Applied?
    ensures var reply, r' := Decide(r, Transit(id, t), stamp, closing).1, Step(r, Transit(id, t), stamp, closing);
      && Tells(reply.entry, r.campaigns[id], t, |r.log[id]| + 1, stamp) && reply.entry.Applied()
      && reply.entry.nextState == reply.campaign.state
      && reply.entry.launchId == (if reply.intent.Some? then Some(reply.intent.value.launchId) else None)
      && Moved(r.campaigns[id], reply.campaign, t, stamp.now) && Launches(reply.intent, id, t, stamp)
      && r'.campaigns == r.campaigns[id := reply.campaign] && r'.log == r.log[id := r.log[id] + [reply.entry]]
      && r'.lease == r.lease
  {
    TransitionMoves(r, id, t, stamp, closing);
    MoveTells(r, id, t, IntentAt(r.intents, t.supersedes), stamp, closing);
  }

  /** The launch is added, what is superseded is marked so, and no other intent changes. */
  lemma {:induction false} AppliedIntentsAreExact(r: Registry, id: string, t: Transition, stamp: Stamp,
                                                  closing: Closing)
    requires Good(r, id) && IntentsOwned(r.intents, r.campaigns.Keys)
    requires Decide(r, Transit(id, t), stamp, closing).1.Applied?
    ensures var reply, r' := Decide(r, Transit(id, t), stamp, closing).1, Step(r, Transit(id, t), stamp, closing);
      IntentsAfter(r.intents, r'.intents, reply.intent, t)
  {
    TransitionMoves(r, id, t, stamp, closing);
  }

  // --- the box ---

  /** A supervisor holds the box at the time. */
  predicate Live(lease: Option<Lease>, now: int) {
    lease.Some? && lease.value.supervisor && lease.value.expiresAt.Some? && now < lease.value.expiresAt.value
  }

  /** And it is another holder's, or for another campaign. */
  predicate Others(lease: Option<Lease>, id: string, holder: string, now: int) {
    Live(lease, now) && !(lease.value.campaignId == Some(id) && lease.value.heldBy == holder)
  }

  predicate Denies(reply: Reply, refusal: Refusal) {
    reply.Refused? && reply.entry.refusal == Some(refusal)
  }

  /** An acquire is applied if and only if the campaign's gate is open, no run is in flight and nobody
      else holds the box; it is then the caller's, for this campaign, until it expires, from now or from
      when the caller first took it. */
  lemma {:induction false} AcquireIsExact(r: Registry, id: string, t: Transition, runs: seq<string>, stamp: Stamp,
                                          closing: Closing)
    requires Good(r, id) && t.operation.OpLeaseAcquire? && KeyFree(r.log[id], t.key)
    requires t.binding.heldBy.Some? && t.binding.expiresInS.Some?
    ensures var holder, c := t.binding.heldBy.value, ChangeLease(id, t, runs);
      var reply, lease := Decide(r, c, stamp, closing).1, Step(r, c, stamp, closing).lease;
      if r.campaigns[id].state != AwaitingRuling then Denies(reply, GateNotOpen) && lease == r.lease
      else if runs != [] then Denies(reply, RunInFlight) && lease == r.lease
      else if Others(r.lease, id, holder, stamp.now) then Denies(reply, BoxHeld) && lease == r.lease
      else
        && reply.Applied? && lease.Some? && lease.value.supervisor && lease.value.heldBy == holder
        && lease.value.campaignId == Some(id) && lease.value.expiresAt == Some(stamp.now + t.binding.expiresInS.value)
        && lease.value.acquiredAt == (if Live(r.lease, stamp.now) then r.lease.value.acquiredAt else stamp.now)
  {
    KeyFreeIsNone(r.log[id], t.key);
  }

  /** A release is applied if and only if nobody else holds the box, which is then the squad's. */
  lemma {:induction false} ReleaseIsExact(r: Registry, id: string, t: Transition, runs: seq<string>, stamp: Stamp,
                                          closing: Closing)
    requires Good(r, id) && t.operation.OpLeaseRelease? && KeyFree(r.log[id], t.key) && t.binding.heldBy.Some?
    ensures var c := ChangeLease(id, t, runs);
      var reply, lease := Decide(r, c, stamp, closing).1, Step(r, c, stamp, closing).lease;
      if Others(r.lease, id, t.binding.heldBy.value, stamp.now) then
        Denies(reply, NotLeaseHolder) && lease == r.lease
      else
        && reply.Applied? && lease.Some? && !lease.value.supervisor && lease.value.heldBy == "squadops"
        && lease.value.acquiredAt == stamp.now && lease.value.expiresAt.None? && lease.value.campaignId.None?
  {
    KeyFreeIsNone(r.log[id], t.key);
  }

  /** A lease change tells its request, changes the campaign in nothing and the intents in nothing. */
  lemma {:induction false} LeaseChangeTells(r: Registry, id: string, t: Transition, runs: seq<string>, stamp: Stamp,
                                            closing: Closing)
    requires Good(r, id) && t.operation.ChangesTheLease() && KeyFree(r.log[id], t.key)
    requires t.binding.heldBy.Some? && t.binding.expiresInS.Some?
    ensures var c := ChangeLease(id, t, runs);
      var reply, r' := Decide(r, c, stamp, closing).1, Step(r, c, stamp, closing);
      && (reply.Applied? || reply.Refused?) && Tells(reply.entry, r.campaigns[id], t, |r.log[id]| + 1, stamp)
      && reply.entry.nextState == r.campaigns[id].state
      && r'.campaigns == r.campaigns && r'.intents == r.intents && r'.log == r.log[id := r.log[id] + [reply.entry]]
  {
    KeyFreeIsNone(r.log[id], t.key);
    assert r.campaigns[id := r.campaigns[id]] == r.campaigns;
  }

  // --- creation and marks ---

  /** A creation is of a draft without outcome; a new id gets its campaign and first row, and a taken
      one is answered with its first row if that is this very creation. */
  lemma {:induction false} CreateIsExact(r: Registry, c: Call, stamp: Stamp, closing: Closing)
    requires Sound(r) && c.Create?
    ensures var id := c.campaign.campaignId;
      var reply, r' := Decide(r, c, stamp, closing).1, Step(r, c, stamp, closing);
      if c.campaign.state != Draft || c.campaign.outcome.Some? then reply == Raised(BadRequest) && r' == r
      else if id !in r.campaigns then
        && reply.Applied? && reply.campaign == c.campaign && reply.intent.None?
        && r' == r.(campaigns := r.campaigns[id := c.campaign], log := r.log[id := [reply.entry]])
        && FirstRow(reply.entry, c, stamp)
      else
        && r' == r && id in r.log && r.log[id] != []
        && (if r.log[id][0].key == c.key && r.log[id][0].hash == HashOf(c)
            then reply == Replayed(r.log[id][0], r.campaigns[id], None) else reply == Raised(AlreadyExists))
  {
    var id := c.campaign.campaignId;
    if id in r.campaigns { assert Good(r, id); }
  }

  function HashOf(c: Call): RequestHash
    requires c.Create?
  {
    var mine := c.campaign;
    CreationHash(mine.campaignId, mine.projectId, mine.about, c.actor, c.actorRole, c.reason, c.definition)
  }

  predicate FirstRow(row: Entry, c: Call, stamp: Stamp)
    requires c.Create?
  {
    && row.entryId == stamp.entryId && row.committedAt == stamp.now && row.number == 1
    && row.campaignId == c.campaign.campaignId && row.operation == OpCreate && row.actor == c.actor
    && row.actorRole == c.actorRole && row.reason == c.reason && row.key == c.key && row.hash == HashOf(c)
    && row.Applied() && row.priorState.None? && row.nextState == Draft && row.launchId.None?
    && row.binding.fields == (if c.definition.Some? then map["definition" := c.definition.value] else map[])
  }

  /** A mark under a free key records the cycle under the launch, and launches the intent with it. */
  lemma {:induction false} MarkIsExact(r: Registry, l: string, cycleId: string, actor: string, stamp: Stamp,
                                       closing: Closing)
    requires Sound(r) && l in r.intents && Good(r, r.intents[l].campaignId)
    requires KeyFree(r.log[r.intents[l].campaignId], l + ":launched")
    ensures var id, reply := r.intents[l].campaignId, Decide(r, Mark(l, cycleId, actor), stamp, closing).1;
      && reply.Applied? && reply.entry.operation == OpMarkLaunched && reply.entry.actor == actor
      && reply.entry.target == Some(l) && reply.entry.key == l + ":launched" && reply.entry.launchId == Some(l)
      && reply.entry.binding.fields == map["cycle_id" := cycleId]
      && reply.campaign == r.campaigns[id] && reply.intent.Some?
      && reply.intent.value == r.intents[l].(state := Launched, cycleId := Some(cycleId), launchedAt := Some(stamp.now))
      && Step(r, Mark(l, cycleId, actor), stamp, closing).intents == r.intents[l := reply.intent.value]
  {
    KeyFreeIsNone(r.log[r.intents[l].campaignId], l + ":launched");
  }
}
