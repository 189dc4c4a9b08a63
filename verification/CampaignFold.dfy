/** A campaign is determined by its creation and its control log. A row stores the state it left and
    when; the outcome, the accepted tree and the proposal are in the request its hash digests, which
    is taken here as the request itself, so the replay is one no reader of the table could compute. */
module CampaignFold {
  import opened Basics
  import opened CampaignLifecycle
  import opened Campaigns
  import opened CampaignHistory

  /** What one row makes of the campaign. */
  function Advance(before: Campaign, row: Entry): Campaign {
    if row.Applied() && row.hash.MoveHash? then
      before.(
        state := row.nextState, updatedAt := row.committedAt, outcome := row.hash.content.outcome,
        accepted := if row.hash.content.accepted.Some? then row.hash.content.accepted else before.accepted,
        proposal := if row.hash.content.submitted.Some? then row.hash.content.submitted else before.proposal)
    else before
  }

  /** The campaign as created, and every row since. */
  function Replay(created: Campaign, log: seq<Entry>): Campaign {
    if log == [] then created else Advance(Replay(created, log[..|log| - 1]), log[|log| - 1])
  }

  /** Every campaign as it was created, kept along a run. */
  function Creations(r: Registry, created: map<string, Campaign>, c: Call, stamp: Stamp,
                     closing: Closing): map<string, Campaign> {
    var w := Decide(r, c, stamp, closing).0;
    if w.Found? then created[Target(r, c) := w.campaign] else created
  }

  ghost predicate FoldsAt(r: Registry, created: map<string, Campaign>, id: string) {
    id in r.campaigns ==> id in r.log && id in created && r.campaigns[id] == Replay(created[id], r.log[id])
  }

  ghost predicate Folds(r: Registry, created: map<string, Campaign>) {
    forall id {:trigger FoldsAt(r, created, id)} :: FoldsAt(r, created, id)
  }

  /** A write tells of the campaign it leaves. */
  ghost predicate Tells(r: Registry, id: string, w: Write) {
    match w
    case Nothing => true
    case Found(campaign, entry) => !entry.hash.MoveHash?
    case Note(entry) => !entry.Applied()
    case Move(campaign, entry, _, _, _) => id in r.campaigns && campaign == Advance(r.campaigns[id], entry)
  }

  lemma {:induction false} CommitsTell(r: Registry, id: string, t: Transition, marks: Option<(Intent, string)>,
                                       runsInFlight: seq<string>, stamp: Stamp, closing: Closing)
    requires id in r.campaigns && id in r.log
    ensures Tells(r, id, DecideCommit(r, id, t, marks, runsInFlight, stamp, closing).0)
  {
  }

  lemma {:induction false} DecisionsTell(r: Registry, c: Call, stamp: Stamp, closing: Closing)
    ensures Tells(r, Target(r, c), Decide(r, c, stamp, closing).0)
  {
    var id := Target(r, c);
    if id in r.campaigns && id in r.log {
      match c
      case Create(_, _, _, _, _, _) =>
      case Refuse(_, _, _) =>
      case Transit(_, t) => CommitsTell(r, id, t, None, [], stamp, closing);
      case ChangeLease(_, t, runsInFlight) => CommitsTell(r, id, t, None, runsInFlight, stamp, closing);
      case Mark(l, cycleId, actor) =>
        if l in r.intents {
          CommitsTell(r, id, MarkTransition(r.intents[l].launchId, cycleId, actor), Some((r.intents[l], cycleId)), [],
                      stamp, closing);
        }
    }
  }

  lemma {:induction false} ReplayJoins(created: Campaign, log: seq<Entry>, row: Entry)
    ensures Replay(created, log + [row]) == Advance(Replay(created, log), row)
  {
    assert (log + [row])[..|log|] == log;
  }

  lemma {:induction false} RowKeepsFoldAt(r: Registry, created: map<string, Campaign>, id: string, w: Write)
    requires FoldsAt(r, created, id) && Tells(r, id, w) && (w.Note? || w.Move?) && id in r.log && id in r.campaigns
    ensures FoldsAt(Commit(r, id, w), created, id)
  {
    ReplayJoins(created[id], r.log[id], w.entry);
  }

  lemma {:induction false} FoundKeepsFoldAt(r: Registry, created: map<string, Campaign>, id: string, w: Write)
    requires Tells(r, id, w) && w.Found?
    ensures FoldsAt(Commit(r, id, w), created[id := w.campaign], id)
  {
    ReplayJoins(w.campaign, [], w.entry);
    assert [] + [w.entry] == [w.entry];
  }

  lemma {:induction false} OthersKeepFold(r: Registry, created: map<string, Campaign>, created': map<string, Campaign>,
                                          id: string, w: Write, other: string)
    requires FoldsAt(r, created, other) && other != id && ((w.Note? || w.Move?) ==> id in r.log)
    requires other in created ==> other in created' && created'[other] == created[other]
    ensures FoldsAt(Commit(r, id, w), created', other)
  {
  }

  lemma {:induction false} CommitKeepsFold(r: Registry, created: map<string, Campaign>, id: string, w: Write)
    requires Folds(r, created) && Tells(r, id, w)
    requires (w.Note? || w.Move?) ==> id in r.log && id in r.campaigns
    ensures Folds(Commit(r, id, w), if w.Found? then created[id := w.campaign] else created)
  {
    var created' := if w.Found? then created[id := w.campaign] else created;
    forall q
      ensures FoldsAt(Commit(r, id, w), created', q)
    {
      assert FoldsAt(r, created, q);
      if q != id {
        OthersKeepFold(r, created, created', id, w, q);
      } else if w.Found? {
        FoundKeepsFoldAt(r, created, id, w);
      } else if w.Note? || w.Move? {
        RowKeepsFoldAt(r, created, id, w);
      }
    }
  }

  /** Every call keeps every campaign the replay of its own log. */
  lemma {:induction false} StepKeepsFold(r: Registry, created: map<string, Campaign>, c: Call, stamp: Stamp,
                                         closing: Closing)
    requires Sound(r) && Folds(r, created)
    ensures Folds(Step(r, c, stamp, closing), Creations(r, created, c, stamp, closing))
  {
    DecisionsTell(r, c, stamp, closing);
    DecisionsAreAdmissible(r, c, stamp, closing);
    CommitKeepsFold(r, created, Target(r, c), Decide(r, c, stamp, closing).0);
  }

  function CreationsOf(r: Registry, created: map<string, Campaign>, calls: seq<(Call, Stamp)>,
                       closing: Closing): map<string, Campaign>
    decreases calls
  {
    if calls == [] then created
    else CreationsOf(Step(r, calls[0].0, calls[0].1, closing), Creations(r, created, calls[0].0, calls[0].1, closing),
                     calls[1..], closing)
  }

  /** Over any run, a campaign's state, outcome, accepted tree, proposal and last change are its
      creation and its log replayed: nothing else ever wrote them. */
  lemma {:induction false} RunKeepsFold(r: Registry, created: map<string, Campaign>, calls: seq<(Call, Stamp)>,
                                        closing: Closing)
    requires Sound(r) && Folds(r, created)
    ensures Folds(Run(r, calls, closing), CreationsOf(r, created, calls, closing))
    decreases calls
  {
    if calls == [] {
    } else {
      StepKeepsFold(r, created, calls[0].0, calls[0].1, closing);
      SoundKept(r, calls[0].0, calls[0].1, closing);
      RunKeepsFold(Step(r, calls[0].0, calls[0].1, closing), Creations(r, created, calls[0].0, calls[0].1, closing),
                   calls[1..], closing);
    }
  }

  /** The same of every campaign of a registry that began empty. */
  lemma {:induction false} EveryCampaignIsItsLog(calls: seq<(Call, Stamp)>, closing: Closing, id: string)
    ensures Sound(Run(EMPTY, calls, closing))
    ensures FoldsAt(Run(EMPTY, calls, closing), CreationsOf(EMPTY, map[], calls, closing), id)
  {
    forall q
      ensures FoldsAt(EMPTY, map[], q)
    {
    }
    RunKeepsSound(EMPTY, calls, closing);
    RunKeepsFold(EMPTY, map[], calls, closing);
  }
}
