/** The Postgres campaign registry: each operation is one transaction's statements on its tables, in
    the order they are sent. Row locks make a transaction a step; a raised error is its rollback. */
module PostgresCampaignRegistry {
  import opened Basics
  import opened Numbering
  import opened CampaignLifecycle
  import opened Campaigns
  import opened PostgresCampaigns

  class Adapter {
    var campaigns: map<string, Campaign>
    var log: seq<Row<Entry>>
    var intents: map<string, Intent>
    var lease: Option<Lease>

    ghost function Contents(): Tables
      reads this
    {
      Tables(campaigns, log, intents, lease)
    }

    constructor (now: int)
      ensures Contents() == Migrated(now)
    {
      campaigns, log, intents, lease := map[], [], map[], Some(Lease(false, SQUAD, now, None, None));
    }

    method InsertEntry(entry: Entry)
      modifies this`log
      ensures Contents() == Insert(old(Contents()), entry)
    {
      log := log + [Row(entry.campaignId, entry.number, entry)];
    }

    method NoteRefusal(entry: Entry) returns (reply: Reply)
      modifies this`log
      ensures (Contents(), reply) == Noted(old(Contents()), entry)
    {
      if EntryTaken(log, entry.entryId) {
        return Raised(DuplicateKey);
      }
      InsertEntry(entry);
      return Refused(entry);
    }

    /** An applied operation's statements. */
    method WriteAll(id: string, t: Transition, entry: Entry, updated: Campaign, marked: bool, intent: Option<Intent>,
                    superseded: Option<Intent>, next: Option<Lease>) returns (reply: Reply)
      requires id in campaigns
      modifies this
      ensures (Contents(), reply) ==
        old(Statements(Contents(), id, t, entry, updated, marked, intent, superseded, next))
    {
      if EntryTaken(log, entry.entryId) || (!marked && intent.Some? && intent.value.launchId in intents) {
        return Raised(DuplicateKey);
      }
      InsertEntry(entry);
      if t.nextState.Some? {
        campaigns := campaigns[id := campaigns[id].(
          state := updated.state, outcome := updated.outcome, updatedAt := updated.updatedAt,
          accepted := updated.accepted, proposal := updated.proposal)];
      }
      if intent.Some? {
        var launchId := intent.value.launchId;
        if !marked {
          intents := intents[launchId := intent.value];
        } else if launchId in intents {
          intents := intents[launchId := intents[launchId].(
            state := intent.value.state, cycleId := intent.value.cycleId, launchedAt := intent.value.launchedAt)];
        }
      }
      if superseded.Some? && superseded.value.launchId in intents
        && intents[superseded.value.launchId].state == Pending {
        var launchId := superseded.value.launchId;
        intents := intents[launchId := intents[launchId].(state := Superseded)];
      }
      if next.Some? {
        lease := next;
      }
      return Applied(entry, updated, intent);
    }

    /** `_commit`. */
    method Commit(id: string, t: Transition, marks: Option<(Intent, string)>,
                  leaseChange: Option<(Option<Lease>, seq<string>)>, stamp: Stamp,
                  closing: Closing) returns (reply: Reply)
      requires id in campaigns && (leaseChange.Some? ==> t.operation.ChangesTheLease())
      modifies this
      ensures (Contents(), reply) == old(TransactCommit(Contents(), id, t, marks, leaseChange, stamp, closing))
    {
      var campaign := campaigns[id];
      var verdict := Adjudicate(campaign, t, AppliedRow(log, id, t.key));
      if verdict.Replays? {
        var launchId := verdict.entry.launchId;
        if launchId.Some? && launchId.value !in intents {
          return Raised(LookupMissed);
        }
        return Replayed(verdict.entry, campaign, IntentAt(intents, launchId));
      }
      var number := Latest(log, id) + 1;
      var superseded := IntentAt(intents, t.supersedes);
      var judgement := Refusing(verdict, campaign, t, superseded, leaseChange, stamp.now);
      if judgement.Broken? {
        return Raised(MissingField);
      }
      if judgement.Denied? {
        var row := ControlLogEntry(campaign, t, stamp.entryId, number, stamp.now, Some(judgement.reason), None, map[]);
        reply := NoteRefusal(row);
        return;
      }
      var intent := IntentWritten(id, t, marks, stamp);
      var entry := AppliedEntry(campaign, t, intent, number, stamp,
                                Derived(closing, t, Documents(RowsOf(log, id)), IntentsOf(intents, id)));
      reply := WriteAll(id, t, entry, AppliedCampaign(campaign, t, stamp.now), marks.Some?, intent, superseded,
                        judgement.lease);
    }

    /** One control operation. */
    method Perform(c: Call, stamp: Stamp, closing: Closing) returns (reply: Reply)
      modifies this
      ensures (Contents(), reply) == old(Transact(Contents(), c, stamp, closing))
    {
      match c {
        case Create(campaign, actor, actorRole, reason, key, definition) =>
          reply := CreateCampaign(campaign, actor, actorRole, reason, key, definition, stamp);
        case Transit(id, t) =>
          if t.operation.ChangesTheLease() {
            return Raised(BadRequest);
          }
          if id !in campaigns {
            return Raised(NotFound);
          }
          reply := Commit(id, t, None, None, stamp, closing);
        case ChangeLease(id, t, runsInFlight) =>
          if !t.operation.ChangesTheLease() {
            return Raised(BadRequest);
          }
          if id !in campaigns {
            return Raised(NotFound);
          }
          reply := Commit(id, t, None, Some((lease, runsInFlight)), stamp, closing);
        case Refuse(id, t, refusal) =>
          if id !in campaigns {
            return Raised(NotFound);
          }
          var entry := ControlLogEntry(campaigns[id], t, stamp.entryId, Latest(log, id) + 1, stamp.now, Some(refusal),
                                       None, map[]);
          reply := NoteRefusal(entry);
        case Mark(launchId, cycleId, actor) =>
          if launchId !in intents {
            return Raised(IntentNotFound);
          }
          var intent := intents[launchId];
          if intent.campaignId !in campaigns {
            return Raised(NotFound);
          }
          reply := Commit(intent.campaignId, MarkTransition(intent.launchId, cycleId, actor), Some((intent, cycleId)),
                          None, stamp, closing);
      }
    }

    method CreateCampaign(campaign: Campaign, actor: string, actorRole: string, reason: string, key: string,
                          definition: Option<string>, stamp: Stamp) returns (reply: Reply)
      modifies this`campaigns, this`log
      ensures (Contents(), reply) ==
        old(TransactCreate(Contents(), Create(campaign, actor, actorRole, reason, key, definition), stamp))
    {
      if campaign.state != Draft || campaign.outcome.Some? {
        return Raised(BadRequest);
      }
      var id := campaign.campaignId;
      var entry := CreationEntry(campaign, actor, actorRole, reason, key, definition, stamp.entryId, stamp.now);
      if id in campaigns {
        var recorded := Find(log, id, 1);
        if recorded.None? {
          return Raised(LookupMissed);
        }
        if recorded.value.key != entry.key || recorded.value.hash != entry.hash {
          return Raised(AlreadyExists);
        }
        return Replayed(recorded.value, campaigns[id], None);
      }
      if EntryTaken(log, entry.entryId) {
        return Raised(DuplicateKey);
      }
      campaigns := campaigns[id := campaign];
      InsertEntry(entry);
      return Applied(entry, campaign, None);
    }
  }
}
