/** What every run of control operations keeps, and what its retries may not change. */
module CampaignHistory {
  import opened Basics
  import opened CampaignLifecycle
  import opened Campaigns

  // --- the control log is the campaign's path through its lifecycle ---

  /** A row follows the one before it: it starts where that one ended; an applied move is legal; a
      record and a refusal stay put. */
  ghost predicate Follows(before: Entry, row: Entry) {
    && row.priorState == Some(before.nextState)
    && (if row.Applied() && !row.operation.RecordsOnly() then row.nextState in LegalTargets(before.nextState)
        else row.nextState == before.nextState)
  }

  ghost predicate Path(log: seq<Entry>, id: string) {
    && log != []
    && log[0].operation.OpCreate? && log[0].Applied() && log[0].priorState.None? && log[0].nextState == Draft
    && (forall i :: 0 <= i < |log| ==> log[i].campaignId == id && log[i].number == i + 1)
    && (forall i, j :: 0 <= i < j < |log| && j == i + 1 ==> Follows(log[i], log[j]))
  }

  ghost predicate OneAppliedPerKey(log: seq<Entry>) {
    forall i, j :: 0 <= i < j < |log| && log[i].Applied() && log[j].Applied() ==> log[i].key != log[j].key
  }

  ghost predicate LaunchesKnown(log: seq<Entry>, intents: map<string, Intent>) {
    forall i :: 0 <= i < |log| && log[i].launchId.Some? ==> log[i].Applied() && log[i].launchId.value in intents
  }

  /** A campaign's state is its last row's, and it has an outcome exactly when it is completed. */
  ghost predicate Standing(campaign: Campaign, log: seq<Entry>, id: string) {
    && Path(log, id) && OneAppliedPerKey(log)
    && campaign.campaignId == id
    && campaign.state == log[|log| - 1].nextState
    && (campaign.state == Completed <==> campaign.outcome.Some?)
  }

  ghost predicate Good(r: Registry, id: string) {
    && id in r.campaigns && id in r.log
    && Standing(r.campaigns[id], r.log[id], id)
    && LaunchesKnown(r.log[id], r.intents)
  }

  ghost predicate Sound(r: Registry) {
    && r.campaigns.Keys == r.log.Keys
    && (forall id {:trigger Good(r, id)} :: id in r.campaigns ==> Good(r, id))
    && IntentsOwned(r.intents, r.campaigns.Keys)
  }

  ghost predicate IntentsOwned(intents: map<string, Intent>, campaigns: set<string>) {
    forall l :: l in intents ==> intents[l].launchId == l && intents[l].campaignId in campaigns
  }

  lemma {:induction false} PutKeepsOwned(intents: map<string, Intent>, intent: Option<Intent>, campaigns: set<string>)
    requires IntentsOwned(intents, campaigns) && (intent.Some? ==> intent.value.campaignId in campaigns)
    ensures IntentsOwned(Put(intents, intent), campaigns) && intents.Keys <= Put(intents, intent).Keys
    ensures intent.Some? ==> intent.value.launchId in Put(intents, intent)
  {
  }

  lemma {:induction false} KeyHolder(log: seq<Entry>, key: string)
    ensures var e := AppliedWithKey(log, key);
      && (e.Some? ==> e.value in log && e.value.Applied() && e.value.key == key)
      && (e.None? ==> forall i :: 0 <= i < |log| && log[i].Applied() ==> log[i].key != key)
  {
    if log == [] {
    } else {
      KeyHolder(log[..|log| - 1], key);
    }
  }

  lemma {:induction false} KeyHolderStays(log: seq<Entry>, entry: Entry, key: string)
    ensures AppliedWithKey(log + [entry], key) ==
      if AppliedWithKey(log, key).Some? then AppliedWithKey(log, key)
      else if entry.Applied() && entry.key == key then Some(entry) else None
  {
    assert (log + [entry])[..|log|] == log;
  }

  /** What a write must look like to keep the registry sound. */
  ghost predicate Admissible(r: Registry, id: string, w: Write) {
    match w
    case Nothing => true
    case Found(campaign, entry) =>
      && id !in r.campaigns
      && campaign.campaignId == id && campaign.state == Draft && campaign.outcome.None?
      && entry.campaignId == id && entry.number == 1 && entry.operation.OpCreate? && entry.Applied()
      && entry.priorState.None? && entry.nextState == Draft && entry.launchId.None?
    case Note(entry) =>
      && Next(r, id, entry) && !entry.Applied() && entry.nextState == r.campaigns[id].state && entry.launchId.None?
    case Move(campaign, entry, intent, superseded, _) =>
      && Next(r, id, entry) && entry.Applied() && AppliedWithKey(r.log[id], entry.key).None?
      && (if entry.operation.RecordsOnly() then entry.nextState == r.campaigns[id].state
          else entry.nextState in LegalTargets(r.campaigns[id].state))
      && campaign.campaignId == id && campaign.state == entry.nextState
      && (campaign.state == Completed <==> campaign.outcome.Some?)
      && entry.launchId == (if intent.Some? then Some(intent.value.launchId) else None)
      && (intent.Some? ==> intent.value.campaignId in r.campaigns)
      && (superseded.Some? ==> superseded.value.campaignId in r.campaigns)
  }

  ghost predicate Next(r: Registry, id: string, entry: Entry) {
    && id in r.campaigns && id in r.log
    && entry.campaignId == id && entry.number == |r.log[id]| + 1 && entry.priorState == Some(r.campaigns[id].state)
  }

  lemma {:induction false} CommitsAreAdmissible(r: Registry, id: string, t: Transition, marks: Option<(Intent, string)>,
                                                runsInFlight: seq<string>, stamp: Stamp, closing: Closing)
    requires Good(r, id) && IntentsOwned(r.intents, r.campaigns.Keys)
    requires marks.Some? ==> marks.value.0.campaignId == id
    ensures Admissible(r, id, DecideCommit(r, id, t, marks, runsInFlight, stamp, closing).0)
  {
  }

  lemma {:induction false} DecisionsAreAdmissible(r: Registry, c: Call, stamp: Stamp, closing: Closing)
    requires Sound(r)
    ensures Admissible(r, Target(r, c), Decide(r, c, stamp, closing).0)
  {
    var id := Target(r, c);
    if id in r.campaigns {
      assert Good(r, id);
      match c
      case Create(_, _, _, _, _, _) =>
      case Refuse(_, _, _) =>
      case Transit(_, t) => CommitsAreAdmissible(r, id, t, None, [], stamp, closing);
      case ChangeLease(_, t, runsInFlight) => CommitsAreAdmissible(r, id, t, None, runsInFlight, stamp, closing);
      case Mark(launchId, cycleId, actor) =>
        if launchId in r.intents {
          CommitsAreAdmissible(r, id, MarkTransition(launchId, cycleId, actor), Some((r.intents[launchId], cycleId)),
                               [], stamp, closing);
        }
    }
  }

  lemma {:induction false} RowJoins(before: Campaign, log: seq<Entry>, id: string, after: Campaign, entry: Entry)
    requires Standing(before, log, id)
    requires entry.campaignId == id && entry.number == |log| + 1 && entry.priorState == Some(before.state)
    requires entry.Applied() ==> AppliedWithKey(log, entry.key).None?
    requires if entry.Applied() && !entry.operation.RecordsOnly()
             then entry.nextState in LegalTargets(before.state)
             else entry.nextState == before.state
    requires after.campaignId == id && after.state == entry.nextState
      && (after.state == Completed <==> after.outcome.Some?)
    ensures Standing(after, log + [entry], id)
  {
    KeyHolder(log, entry.key);
    assert Follows(log[|log| - 1], entry);
  }

  lemma {:induction false} SoundKept(r: Registry, c: Call, stamp: Stamp, closing: Closing)
    requires Sound(r)
    ensures Sound(Step(r, c, stamp, closing))
  {
    DecisionsAreAdmissible(r, c, stamp, closing);
    CommitKeepsSound(r, Target(r, c), Decide(r, c, stamp, closing).0);
  }

  lemma {:induction false} CommitKeepsSound(r: Registry, id: string, w: Write)
    requires Sound(r) && Admissible(r, id, w)
    ensures Sound(Commit(r, id, w))
  {
    if w.Note? || w.Move? {
      RowKeepsSound(r, id, w);
    } else if w.Found? {
      var r' := Commit(r, id, w);
      forall q | q in r'.campaigns
        ensures Good(r', q)
      {
        assert q in r.campaigns ==> Good(r, q);
      }
    } else {
      assert Commit(r, id, w) == r;
    }
  }

  lemma {:induction false} IntentsKept(r: Registry, id: string, w: Write)
    requires IntentsOwned(r.intents, r.campaigns.Keys) && Admissible(r, id, w) && (w.Note? || w.Move?)
    ensures var r' := Commit(r, id, w);
      && IntentsOwned(r'.intents, r'.campaigns.Keys) && r.intents.Keys <= r'.intents.Keys
      && r'.campaigns.Keys == r.campaigns.Keys
      && (w.entry.launchId.Some? ==> w.entry.launchId.value in r'.intents)
  {
    if w.Move? {
      PutKeepsOwned(r.intents, w.intent, r.campaigns.Keys);
      PutKeepsOwned(Put(r.intents, w.intent), w.superseded, r.campaigns.Keys);
    }
  }

  lemma {:induction false} RowKeepsSound(r: Registry, id: string, w: Write)
    requires Sound(r) && Admissible(r, id, w) && (w.Note? || w.Move?)
    ensures Sound(Commit(r, id, w))
  {
    var r' := Commit(r, id, w);
    IntentsKept(r, id, w);
    assert Good(r, id);
    RowJoins(r.campaigns[id], r.log[id], id, r'.campaigns[id], w.entry);
    LaunchJoins(r.log[id], w.entry, r.intents, r'.intents);
    OneCampaignChanges(r, id, r'.campaigns[id], r'.log[id], r'.intents, r'.lease);
    assert r' == Registry(r.campaigns[id := r'.campaigns[id]], r.log[id := r'.log[id]], r'.intents, r'.lease);
  }

  lemma {:induction false} OneCampaignChanges(r: Registry, id: string, campaign: Campaign, log: seq<Entry>,
                                              intents: map<string, Intent>, lease: Option<Lease>)
    requires Sound(r) && id in r.campaigns
    requires Standing(campaign, log, id) && LaunchesKnown(log, intents)
    requires r.intents.Keys <= intents.Keys && IntentsOwned(intents, r.campaigns.Keys)
    ensures Sound(Registry(r.campaigns[id := campaign], r.log[id := log], intents, lease))
  {
    var r' := Registry(r.campaigns[id := campaign], r.log[id := log], intents, lease);
    assert r'.campaigns.Keys == r.campaigns.Keys;
    forall q | q in r'.campaigns
      ensures Good(r', q)
    {
      assert Good(r, q);
    }
  }

  lemma {:induction false} LaunchJoins(log: seq<Entry>, entry: Entry, intents: map<string, Intent>,
                                       intents': map<string, Intent>)
    requires LaunchesKnown(log, intents) && intents.Keys <= intents'.Keys
    requires entry.launchId.Some? ==> entry.Applied() && entry.launchId.value in intents'
    ensures LaunchesKnown(log + [entry], intents')
  {
  }

  lemma {:induction false} RunKeepsSound(r: Registry, calls: seq<(Call, Stamp)>, closing: Closing)
    requires Sound(r)
    ensures Sound(Run(r, calls, closing))
    decreases calls
  {
    if calls == [] {
    } else {
      SoundKept(r, calls[0].0, calls[0].1, closing);
      RunKeepsSound(Step(r, calls[0].0, calls[0].1, closing), calls[1..], closing);
    }
  }

  /** Once a row completes the campaign, every later row leaves it completed. */
  lemma {:induction false} CompletedIsFinal(log: seq<Entry>, id: string, i: nat, j: nat)
    requires Path(log, id) && i <= j < |log| && log[i].nextState == Completed
    ensures log[j].nextState == Completed
    ensures i < j && log[j].Applied() ==> log[j].operation.RecordsOnly()
  {
    if i < j {
      CompletedIsFinal(log, id, i, j - 1);
      assert Follows(log[j - 1], log[j]);
    }
  }
}
