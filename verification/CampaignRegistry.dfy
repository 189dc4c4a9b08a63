/** The in-memory campaign registry: dictionaries changed in place under one lock, one operation at
    a time. Every operation keeps the registry sound. */
module CampaignRegistry {
  import opened Basics
  import opened CampaignLifecycle
  import opened Campaigns
  import opened CampaignHistory

  class MemoryCampaignRegistry {
    var campaigns: map<string, Campaign>
    var log: map<string, seq<Entry>>
    var intents: map<string, Intent>
    var lease: Option<Lease>

    ghost function Contents(): Registry
      reads this
    {
      Registry(campaigns, log, intents, lease)
    }

    ghost predicate Valid()
      reads this
    {
      Sound(Contents())
    }

    constructor ()
      ensures Valid() && Contents() == EMPTY
    {
      campaigns, log, intents, lease := map[], map[], map[], None;
    }

    /** The first applied row under the key is the only one. */
    method AppliedRow(id: string, key: string) returns (found: Option<Entry>)
      requires Valid() && id in log
      ensures found == AppliedWithKey(log[id], key)
    {
      var rows := log[id];
      KeyHolder(rows, key);
      assert Good(Contents(), id);
      for i := 0 to |rows|
        invariant forall j :: 0 <= j < i && rows[j].Applied() ==> rows[j].key != key
      {
        if rows[i].Applied() && rows[i].key == key {
          return Some(rows[i]);
        }
      }
      return None;
    }

    method AppendRow(id: string, entry: Entry)
      requires id in log
      modifies this`log
      ensures Contents() == Campaigns.Commit(old(Contents()), id, Note(entry))
    {
      log := log[id := log[id] + [entry]];
    }

    /** The commit: every write together. */
    method WriteAll(id: string, updated: Campaign, entry: Entry, intent: Option<Intent>, superseded: Option<Intent>,
                    next: Option<Lease>)
      requires id in log
      modifies this
      ensures Contents() == Campaigns.Commit(old(Contents()), id, Move(updated, entry, intent, superseded, next))
    {
      campaigns := campaigns[id := updated];
      log := log[id := log[id] + [entry]];
      if intent.Some? {
        intents := intents[intent.value.launchId := intent.value];
      }
      if superseded.Some? {
        intents := intents[superseded.value.launchId := superseded.value];
      }
      if next.Some? {
        lease := next;
      }
    }

    /** `_commit`. */
    method Commit(id: string, t: Transition, marks: Option<(Intent, string)>, runsInFlight: seq<string>, stamp: Stamp,
                  closing: Closing)
      returns (reply: Reply)
      requires Valid() && id in campaigns && (marks.Some? ==> marks.value.0.campaignId == id)
      modifies this
      ensures Valid()
      ensures var (w, answer) := old(DecideCommit(Contents(), id, t, marks, runsInFlight, stamp, closing));
        reply == answer && Contents() == Campaigns.Commit(old(Contents()), id, w)
    {
      assert Good(Contents(), id);
      CommitsAreAdmissible(Contents(), id, t, marks, runsInFlight, stamp, closing);
      CommitKeepsSound(Contents(), id, DecideCommit(Contents(), id, t, marks, runsInFlight, stamp, closing).0);
      var campaign := campaigns[id];
      var recorded := AppliedRow(id, t.key);
      var verdict := Adjudicate(campaign, t, recorded);
      if verdict.Replays? {
        var launchId := verdict.entry.launchId;
        if launchId.Some? && launchId.value !in intents {
          return Raised(LookupMissed);
        }
        return Replayed(verdict.entry, campaign, IntentAt(intents, launchId));
      }
      var number := |log[id]| + 1;
      var superseded := IntentAt(intents, t.supersedes);
      var judgement := Judge(verdict, campaign, t, superseded, lease, stamp.now, runsInFlight);
      if judgement.Broken? {
        return Raised(MissingField);
      }
      if judgement.Denied? {
        var row := ControlLogEntry(campaign, t, stamp.entryId, number, stamp.now, Some(judgement.reason), None, map[]);
        AppendRow(id, row);
        return Refused(row);
      }
      var intent := IntentWritten(id, t, marks, stamp);
      var entry := AppliedEntry(campaign, t, intent, number, stamp,
                                Derived(closing, t, log[id], IntentsOf(intents, id)));
      var updated := AppliedCampaign(campaign, t, stamp.now);
      var replaced := if superseded.Some? then Some(superseded.value.(state := Superseded)) else None;
      WriteAll(id, updated, entry, intent, replaced, judgement.lease);
      return Applied(entry, updated, intent);
    }

    method CreateCampaign(campaign: Campaign, actor: string, actorRole: string, reason: string, key: string,
                          definition: Option<string>, stamp: Stamp, closing: Closing) returns (reply: Reply)
      requires Valid()
      modifies this`campaigns, this`log
      ensures Valid()
      ensures var c := Create(campaign, actor, actorRole, reason, key, definition);
        Contents() == old(Step(Contents(), c, stamp, closing)) && reply == old(Decide(Contents(), c, stamp, closing).1)
    {
      ghost var c := Create(campaign, actor, actorRole, reason, key, definition);
      SoundKept(Contents(), c, stamp, closing);
      var id := campaign.campaignId;
      if campaign.state != Draft || campaign.outcome.Some? {
        return Raised(BadRequest);
      }
      var entry := CreationEntry(campaign, actor, actorRole, reason, key, definition, stamp.entryId, stamp.now);
      if id in campaigns {
        assert Good(Contents(), id);
        var recorded := log[id][0];
        if recorded.key != entry.key || recorded.hash != entry.hash {
          return Raised(AlreadyExists);
        }
        return Replayed(recorded, campaigns[id], None);
      }
      campaigns := campaigns[id := campaign];
      log := log[id := [entry]];
      return Applied(entry, campaign, None);
    }

    method ApplyTransition(id: string, t: Transition, stamp: Stamp, closing: Closing) returns (reply: Reply)
      requires Valid()
      modifies this
      ensures Valid()
      ensures Contents() == old(Step(Contents(), Transit(id, t), stamp, closing))
      ensures reply == old(Decide(Contents(), Transit(id, t), stamp, closing).1)
    {
      if t.operation.ChangesTheLease() {
        return Raised(BadRequest);
      }
      if id !in campaigns {
        return Raised(NotFound);
      }
      reply := Commit(id, t, None, [], stamp, closing);
    }

    method ChangeBoxLease(id: string, t: Transition, runsInFlight: seq<string>, stamp: Stamp, closing: Closing)
      returns (reply: Reply)
      requires Valid()
      modifies this
      ensures Valid()
      ensures Contents() == old(Step(Contents(), ChangeLease(id, t, runsInFlight), stamp, closing))
      ensures reply == old(Decide(Contents(), ChangeLease(id, t, runsInFlight), stamp, closing).1)
    {
      if !t.operation.ChangesTheLease() {
        return Raised(BadRequest);
      }
      if id !in campaigns {
        return Raised(NotFound);
      }
      reply := Commit(id, t, None, runsInFlight, stamp, closing);
    }

    method RecordRefusal(id: string, t: Transition, refusal: Refusal, stamp: Stamp, closing: Closing)
      returns (reply: Reply)
      requires Valid()
      modifies this`log
      ensures Valid()
      ensures Contents() == old(Step(Contents(), Refuse(id, t, refusal), stamp, closing))
      ensures reply == old(Decide(Contents(), Refuse(id, t, refusal), stamp, closing).1)
    {
      SoundKept(Contents(), Refuse(id, t, refusal), stamp, closing);
      if id !in campaigns {
        return Raised(NotFound);
      }
      var entry := ControlLogEntry(campaigns[id], t, stamp.entryId, |log[id]| + 1, stamp.now, Some(refusal), None,
                                   map[]);
      AppendRow(id, entry);
      return Refused(entry);
    }

    method MarkLaunchIntentLaunched(launchId: string, cycleId: string, actor: string, stamp: Stamp, closing: Closing)
      returns (reply: Reply)
      requires Valid()
      modifies this
      ensures Valid()
      ensures Contents() == old(Step(Contents(), Mark(launchId, cycleId, actor), stamp, closing))
      ensures reply == old(Decide(Contents(), Mark(launchId, cycleId, actor), stamp, closing).1)
    {
      if launchId !in intents {
        return Raised(IntentNotFound);
      }
      var intent := intents[launchId];
      reply := Commit(intent.campaignId, MarkTransition(intent.launchId, cycleId, actor), Some((intent, cycleId)), [],
                      stamp, closing);
    }
  }
}
