/** A control operation applies once: its retries replay, and erasing them from any run leaves the
    registry as it was. */
module CampaignReplays {
  import opened Basics
  import opened CampaignLifecycle
  import opened Campaigns
  import opened CampaignHistory

  function HashOfCreate(c: Call): RequestHash
    requires c.Create?
  {
    CreationHash(c.campaign.campaignId, c.campaign.projectId, c.campaign.about, c.actor, c.actorRole, c.reason,
                 c.definition)
  }

  /** A campaign's log holds an applied row under a key, for this request. */
  predicate Held(r: Registry, id: string, key: string, hash: RequestHash) {
    && id in r.campaigns && id in r.log
    && var e := AppliedWithKey(r.log[id], key); e.Some? && e.value.hash == hash
  }

  /** The call's request is already applied. */
  predicate AppliedIn(r: Registry, c: Call) {
    match c
    case Create(campaign, _, _, _, key, _) =>
      && campaign.campaignId in r.campaigns && campaign.campaignId in r.log && r.log[campaign.campaignId] != []
      && campaign.state == Draft && campaign.outcome.None?
      && r.log[campaign.campaignId][0].key == key && r.log[campaign.campaignId][0].hash == HashOfCreate(c)
    case Transit(id, t) => !t.operation.ChangesTheLease() && Held(r, id, t.key, TransitionHash(t))
    case ChangeLease(id, t, _) => t.operation.ChangesTheLease() && Held(r, id, t.key, TransitionHash(t))
    case Mark(l, cycleId, actor) =>
      l in r.intents && Held(r, r.intents[l].campaignId, MarkKey(l), TransitionHash(MarkTransition(l, cycleId, actor)))
    case Refuse(_, _, _) => false
  }

  /** `again` asks for what `c` asked. A record's reporter, and a mark's, is not part of it. */
  predicate Retries(c: Call, again: Call) {
    match (c, again)
    case (Create(campaign, _, _, _, key, _), Create(campaign', _, _, _, key', _)) =>
      campaign'.state == Draft && campaign'.outcome.None? && key == key' && HashOfCreate(c) == HashOfCreate(again)
    case (Transit(id, t), Transit(id', t')) =>
      id == id' && t.key == t'.key && TransitionHash(t) == TransitionHash(t')
    case (ChangeLease(id, t, _), ChangeLease(id', t', _)) =>
      id == id' && t.key == t'.key && TransitionHash(t) == TransitionHash(t')
    case (Mark(l, cycleId, _), Mark(l', cycleId', _)) => l == l' && cycleId == cycleId'
    case _ => false
  }

  lemma {:induction false} RetryOfApplied(r: Registry, c: Call, again: Call)
    requires AppliedIn(r, c) && Retries(c, again)
    ensures AppliedIn(r, again)
  {
  }

  /** The entry id drawn for this call is no row's yet, nor the launch id it makes any intent's: entry
      ids are generated once. */
  predicate Fresh(r: Registry, stamp: Stamp) {
    && LaunchIdFor(stamp.entryId) !in r.intents
    && forall id, i :: id in r.log && 0 <= i < |r.log[id]| ==> r.log[id][i].entryId != stamp.entryId
  }

  /** The row an applied request wrote. */
  function RecordedRow(r: Registry, c: Call): Entry
    requires AppliedIn(r, c)
  {
    match c
    case Create(campaign, _, _, _, _, _) => r.log[campaign.campaignId][0]
    case Transit(id, t) => AppliedWithKey(r.log[id], t.key).value
    case ChangeLease(id, t, _) => AppliedWithKey(r.log[id], t.key).value
    case Mark(l, _, _) => AppliedWithKey(r.log[r.intents[l].campaignId], MarkKey(l)).value
  }

  // --- a replay changes nothing, and always finds its intent ---

  lemma {:induction false} CommitReplays(r: Registry, id: string, t: Transition, marks: Option<(Intent, string)>,
                                         runsInFlight: seq<string>, stamp: Stamp, closing: Closing)
    requires Good(r, id) && Held(r, id, t.key, TransitionHash(t))
    ensures var (w, reply) := DecideCommit(r, id, t, marks, runsInFlight, stamp, closing);
      var row := AppliedWithKey(r.log[id], t.key).value;
      && w == Nothing && reply == Replayed(row, r.campaigns[id], IntentAt(r.intents, row.launchId))
      && row in r.log[id] && row.Applied() && row.key == t.key
      && (row.launchId.Some? ==> row.launchId.value in r.intents)
  {
    KeyHolder(r.log[id], t.key);
  }

  /** A retry of an applied request leaves the registry as it is and answers with the recorded row. */
  lemma {:induction false} RetryChangesNothing(r: Registry, c: Call, stamp: Stamp, closing: Closing)
    requires Sound(r) && AppliedIn(r, c)
    ensures Step(r, c, stamp, closing) == r
    ensures var row := RecordedRow(r, c);
      && Decide(r, c, stamp, closing).1 ==
        Replayed(row, r.campaigns[Target(r, c)], if c.Create? then None else IntentAt(r.intents, row.launchId))
      && (!c.Create? && row.launchId.Some? ==> row.launchId.value in r.intents)
  {
    var id := Target(r, c);
    assert Good(r, id);
    match c
    case Create(_, _, _, _, _, _) =>
    case Transit(_, t) => CommitReplays(r, id, t, None, [], stamp, closing);
    case ChangeLease(_, t, runsInFlight) => CommitReplays(r, id, t, None, runsInFlight, stamp, closing);
    case Mark(l, cycleId, actor) =>
      CommitReplays(r, id, MarkTransition(l, cycleId, actor), Some((r.intents[l], cycleId)), [], stamp, closing);
  }

  lemma {:induction false} CommitFindsItsIntent(r: Registry, id: string, t: Transition, marks: Option<(Intent, string)>,
                                                runsInFlight: seq<string>, stamp: Stamp, closing: Closing)
    requires Good(r, id)
    ensures DecideCommit(r, id, t, marks, runsInFlight, stamp, closing).1 != Raised(LookupMissed)
  {
    KeyHolder(r.log[id], t.key);
  }

  /** No replay of a sound registry misses the row or the intent it returns. */
  lemma {:induction false} LookupsNeverMiss(r: Registry, c: Call, stamp: Stamp, closing: Closing)
    requires Sound(r)
    ensures Decide(r, c, stamp, closing).1 != Raised(LookupMissed)
  {
    var id := Target(r, c);
    if id in r.campaigns {
      assert Good(r, id);
      match c
      case Create(_, _, _, _, _, _) =>
      case Refuse(_, _, _) =>
      case Transit(_, t) => CommitFindsItsIntent(r, id, t, None, [], stamp, closing);
      case ChangeLease(_, t, runsInFlight) => CommitFindsItsIntent(r, id, t, None, runsInFlight, stamp, closing);
      case Mark(l, cycleId, actor) =>
        if l in r.intents {
          CommitFindsItsIntent(r, id, MarkTransition(l, cycleId, actor), Some((r.intents[l], cycleId)), [], stamp,
                               closing);
        }
    }
  }

  // --- an applied request stays applied ---

  lemma {:induction false} CommitRecords(r: Registry, id: string, t: Transition, marks: Option<(Intent, string)>,
                                         runsInFlight: seq<string>, stamp: Stamp, closing: Closing)
    requires id in r.campaigns && id in r.log
    requires DecideCommit(r, id, t, marks, runsInFlight, stamp, closing).1.Applied?
    ensures var w := DecideCommit(r, id, t, marks, runsInFlight, stamp, closing).0;
      w.Move? && Held(Commit(r, id, w), id, t.key, TransitionHash(t))
  {
    var w := DecideCommit(r, id, t, marks, runsInFlight, stamp, closing).0;
    KeyHolderStays(r.log[id], w.entry, t.key);
  }

  lemma {:induction false} AppliedIsHeld(r: Registry, c: Call, stamp: Stamp, closing: Closing)
    requires Sound(r) && Decide(r, c, stamp, closing).1.Applied?
    ensures AppliedIn(Step(r, c, stamp, closing), c)
  {
    var id := Target(r, c);
    match c
    case Create(_, _, _, _, _, _) =>
    case Transit(_, t) => CommitRecords(r, id, t, None, [], stamp, closing);
    case ChangeLease(_, t, runsInFlight) => CommitRecords(r, id, t, None, runsInFlight, stamp, closing);
    case Mark(l, cycleId, actor) =>
      CommitRecords(r, id, MarkTransition(l, cycleId, actor), Some((r.intents[l], cycleId)), [], stamp, closing);
  }

  /** What a write may not touch: earlier rows, a campaign's existence, an intent's owner. */
  ghost predicate Keeps(r: Registry, r': Registry) {
    && (forall id :: id in r.campaigns ==> id in r'.campaigns)
    && (forall id :: id in r.log ==>
          id in r'.log && (r'.log[id] == r.log[id] || exists e :: r'.log[id] == r.log[id] + [e]))
    && (forall l :: l in r.intents ==> l in r'.intents && r'.intents[l].campaignId == r.intents[l].campaignId)
  }

  lemma {:induction false} HeldStays(r: Registry, r': Registry, c: Call)
    requires Keeps(r, r') && AppliedIn(r, c)
    ensures AppliedIn(r', c)
  {
    var id := Target(r, c);
    if r'.log[id] != r.log[id] {
      var e :| r'.log[id] == r.log[id] + [e];
      match c
      case Create(_, _, _, _, _, _) =>
      case Transit(_, t) => KeyHolderStays(r.log[id], e, t.key);
      case ChangeLease(_, t, _) => KeyHolderStays(r.log[id], e, t.key);
      case Mark(l, _, _) => KeyHolderStays(r.log[id], e, MarkKey(l));
    }
  }

  lemma {:induction false} CommitIntents(r: Registry, id: string, t: Transition, marks: Option<(Intent, string)>,
                                         runsInFlight: seq<string>, stamp: Stamp, closing: Closing)
    requires IntentsOwned(r.intents, r.campaigns.Keys) && Fresh(r, stamp) && id in r.campaigns && id in r.log
    requires marks.Some? ==> marks.value.0.launchId in r.intents && r.intents[marks.value.0.launchId] == marks.value.0
    ensures var w := DecideCommit(r, id, t, marks, runsInFlight, stamp, closing).0;
      w.Move? ==>
        && (w.intent.Some? && w.intent.value.launchId in r.intents ==>
              w.intent.value.campaignId == r.intents[w.intent.value.launchId].campaignId)
        && (w.superseded.Some? ==>
              w.superseded.value.launchId in r.intents
                && w.superseded.value.campaignId == r.intents[w.superseded.value.launchId].campaignId)
  {
  }

  lemma {:induction false} StepKeeps(r: Registry, c: Call, stamp: Stamp, closing: Closing)
    requires Sound(r) && Fresh(r, stamp)
    ensures Keeps(r, Step(r, c, stamp, closing))
  {
    var id, w := Target(r, c), Decide(r, c, stamp, closing).0;
    DecisionsAreAdmissible(r, c, stamp, closing);
    if id in r.campaigns {
      match c
      case Create(_, _, _, _, _, _) =>
      case Refuse(_, _, _) =>
      case Transit(_, t) => CommitIntents(r, id, t, None, [], stamp, closing);
      case ChangeLease(_, t, runsInFlight) => CommitIntents(r, id, t, None, runsInFlight, stamp, closing);
      case Mark(l, cycleId, actor) =>
        if l in r.intents {
          CommitIntents(r, id, MarkTransition(l, cycleId, actor), Some((r.intents[l], cycleId)), [], stamp, closing);
        }
    }
    WriteKeeps(r, id, w);
  }

  lemma {:induction false} WriteKeeps(r: Registry, id: string, w: Write)
    requires r.campaigns.Keys == r.log.Keys && Admissible(r, id, w)
    requires w.Move? ==>
        && (w.intent.Some? && w.intent.value.launchId in r.intents ==>
              w.intent.value.campaignId == r.intents[w.intent.value.launchId].campaignId)
        && (w.superseded.Some? ==>
              w.superseded.value.launchId in r.intents
                && w.superseded.value.campaignId == r.intents[w.superseded.value.launchId].campaignId)
    ensures Keeps(r, Commit(r, id, w))
  {
    if w.Note? || w.Move? {
      assert Commit(r, id, w).log[id] == r.log[id] + [w.entry];
    }
  }

  // --- erasing retries ---

  /** Every stamp is new where it is used. */
  ghost predicate FreshRun(r: Registry, calls: seq<(Call, Stamp)>, closing: Closing)
    decreases calls
  {
    calls != [] ==> Fresh(r, calls[0].1) && FreshRun(Step(r, calls[0].0, calls[0].1, closing), calls[1..], closing)
  }

  ghost predicate IsRetry(done: set<Call>, c: Call) {
    exists d :: d in done && Retries(d, c)
  }

  /** The run without every call that repeats one applied before it. */
  ghost function Erase(r: Registry, calls: seq<(Call, Stamp)>, done: set<Call>, closing: Closing): seq<(Call, Stamp)>
    decreases calls
  {
    if calls == [] then []
    else
      var (c, stamp) := calls[0];
      var r' := Step(r, c, stamp, closing);
      if IsRetry(done, c) then Erase(r', calls[1..], done, closing)
      else
        var done' := if Decide(r, c, stamp, closing).1.Applied? then done + {c} else done;
        [calls[0]] + Erase(r', calls[1..], done', closing)
  }

  /** Erasing every retry of an applied request from a run leaves campaigns, log, intents and lease
      identical. */
  lemma {:induction false} ErasingRetriesIsFree(r: Registry, calls: seq<(Call, Stamp)>, done: set<Call>,
                                                closing: Closing)
    requires Sound(r) && FreshRun(r, calls, closing)
    requires forall c :: c in done ==> AppliedIn(r, c)
    ensures Run(r, Erase(r, calls, done, closing), closing) == Run(r, calls, closing)
    decreases calls
  {
    if calls == [] {
    } else {
      var (c, stamp) := calls[0];
      var r' := Step(r, c, stamp, closing);
      SoundKept(r, c, stamp, closing);
      StepKeeps(r, c, stamp, closing);
      forall d | d in done
        ensures AppliedIn(r', d)
      {
        HeldStays(r, r', d);
      }
      if IsRetry(done, c) {
        var d :| d in done && Retries(d, c);
        RetryOfApplied(r, d, c);
        RetryChangesNothing(r, c, stamp, closing);
        ErasingRetriesIsFree(r', calls[1..], done, closing);
      } else {
        var done' := if Decide(r, c, stamp, closing).1.Applied? then done + {c} else done;
        if Decide(r, c, stamp, closing).1.Applied? { AppliedIsHeld(r, c, stamp, closing); }
        ErasingRetriesIsFree(r', calls[1..], done', closing);
        assert Erase(r, calls, done, closing)[1..] == Erase(r', calls[1..], done', closing);
      }
    }
  }

  /** A refusal, the registry's own or its caller's, changes the log alone and by one row. */
  lemma {:induction false} RefusalAddsOneRow(r: Registry, c: Call, stamp: Stamp, closing: Closing)
    requires Decide(r, c, stamp, closing).1.Refused?
    ensures var (id, entry) := (Target(r, c), Decide(r, c, stamp, closing).1.entry);
      && id in r.log && !entry.Applied()
      && Step(r, c, stamp, closing) == r.(log := r.log[id := r.log[id] + [entry]])
  {
  }

  // --- the box ---

  /** While a supervisor's lease is live, a call leaves it, renews it for the same holder and
      campaign from its first acquisition, or is that holder giving it back. */
  lemma {:induction false} LiveLeaseIsItsHolders(r: Registry, c: Call, stamp: Stamp, closing: Closing)
    requires r.lease.Some? && r.lease.value.SupervisorHolds(stamp.now)
    ensures var (before, after) := (r.lease.value, Step(r, c, stamp, closing).lease);
      || after == r.lease
      || (&& c.ChangeLease? && before.campaignId == Some(r.campaigns[c.campaignId].campaignId)
          && c.transition.binding.heldBy == Some(before.heldBy) && after.Some?
          && (if c.transition.operation.OpLeaseAcquire?
              then after.value.(expiresAt := before.expiresAt) == before
              else after.value == Lease(false, SQUAD, stamp.now, None, None)))
  {
  }
}
