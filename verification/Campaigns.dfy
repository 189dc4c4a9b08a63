/** The in-memory campaign registry as a state machine: what each control operation writes, under
    the registry's one lock, and what it answers. */
module Campaigns {
  import opened Basics
  import opened CampaignLifecycle

  datatype Registry = Registry(
    campaigns: map<string, Campaign>,
    log: map<string, seq<Entry>>,
    intents: map<string, Intent>,
    lease: Option<Lease>)

  const EMPTY := Registry(map[], map[], map[], None)

  datatype Call =
    | Create(campaign: Campaign, actor: string, actorRole: string, reason: string, key: string,
             definition: Option<string>)
    | Transit(campaignId: string, transition: Transition)
    | ChangeLease(campaignId: string, transition: Transition, runsInFlight: seq<string>)
    | Refuse(campaignId: string, transition: Transition, refusal: Refusal)
    | Mark(launchId: string, cycleId: string, actor: string)

  /** The entry id drawn for a call, and its time. */
  datatype Stamp = Stamp(entryId: string, now: int)

  datatype Error = NotFound | IntentNotFound | AlreadyExists | BadRequest | MissingField | LookupMissed | DuplicateKey

  datatype Reply =
    | Applied(entry: Entry, campaign: Campaign, intent: Option<Intent>)
    | Replayed(entry: Entry, campaign: Campaign, intent: Option<Intent>)
    | Refused(entry: Entry)
    | Raised(error: Error)

  /** What a closing row records of its campaign's contribution, derived from the log and the
      campaign's intents when the caller asks: the derivation itself is a parameter. */
  type Closing = (bool, seq<Entry>, set<Intent>) -> map<string, string>

  function Derived(closing: Closing, t: Transition, log: seq<Entry>, intents: set<Intent>): map<string, string> {
    if t.repositoryBacked.None? then map[] else closing(t.repositoryBacked.value, log, intents)
  }

  function IntentsOf(intents: map<string, Intent>, campaignId: string): set<Intent> {
    set l | l in intents && intents[l].campaignId == campaignId :: intents[l]
  }

  /** The applied row holding a key. */
  function AppliedWithKey(log: seq<Entry>, key: string): Option<Entry> {
    if log == [] then None
    else
      var last, earlier := log[|log| - 1], AppliedWithKey(log[..|log| - 1], key);
      if earlier.None? && last.Applied() && last.key == key then Some(last) else earlier
  }

  function IntentAt(intents: map<string, Intent>, launchId: Option<string>): Option<Intent> {
    if launchId.Some? && launchId.value in intents then Some(intents[launchId.value]) else None
  }

  /** What one operation writes: a campaign with its first row; a refusal's row; or an applied
      operation's campaign, row, intent, superseded intent and lease, together. */
  datatype Write =
    | Nothing
    | Found(campaign: Campaign, entry: Entry)
    | Note(entry: Entry)
    | Move(campaign: Campaign, entry: Entry, intent: Option<Intent>, superseded: Option<Intent>, lease: Option<Lease>)

  function Put(intents: map<string, Intent>, intent: Option<Intent>): map<string, Intent> {
    if intent.Some? then intents[intent.value.launchId := intent.value] else intents
  }

  function Commit(r: Registry, id: string, w: Write): Registry
    requires (w.Note? || w.Move?) ==> id in r.log
  {
    match w
    case Nothing => r
    case Found(campaign, entry) => r.(campaigns := r.campaigns[id := campaign], log := r.log[id := [entry]])
    case Note(entry) => r.(log := r.log[id := r.log[id] + [entry]])
    case Move(campaign, entry, intent, superseded, lease) =>
      Registry(r.campaigns[id := campaign], r.log[id := r.log[id] + [entry]],
               Put(Put(r.intents, intent), superseded), if lease.Some? then lease else r.lease)
  }

  /** Why an adjudicated operation is refused, or the lease it leaves. */
  datatype Judgement = Denied(reason: Refusal) | Allowed(lease: Option<Lease>) | Broken

  function Judge(verdict: Verdict, campaign: Campaign, t: Transition, superseded: Option<Intent>, lease: Option<Lease>,
                 now: int, runsInFlight: seq<string>): Judgement
    requires !verdict.Replays?
  {
    if verdict.Refuses? then Denied(verdict.reason)
    else
      var stale := SupersessionRefusal(campaign, t, superseded);
      if stale.Some? then Denied(stale.value)
      else if !t.operation.ChangesTheLease() then Allowed(None)
      else match JudgeLease(t, lease, campaign, now, runsInFlight)
        case LeaseRefused(reason) => Denied(reason)
        case Leased(next) => Allowed(Some(next))
        case BindingMissesField => Broken
  }

  /** The intent an applied operation writes: the one it marks, or the launch it decides. */
  function IntentWritten(id: string, t: Transition, marks: Option<(Intent, string)>, stamp: Stamp): Option<Intent> {
    if marks.Some? then Some(LaunchedIntent(marks.value.0, marks.value.1, stamp.now))
    else NewLaunchIntent(id, t, stamp.entryId, stamp.now)
  }

  function AppliedEntry(campaign: Campaign, t: Transition, intent: Option<Intent>, number: int, stamp: Stamp,
                        derived: map<string, string>): Entry {
    ControlLogEntry(campaign, t, stamp.entryId, number, stamp.now, None,
                    if intent.Some? then Some(intent.value.launchId) else None, derived)
  }

  /** Everything an operation that nothing refuses writes. */
  function DecideMove(r: Registry, id: string, t: Transition, marks: Option<(Intent, string)>,
                      superseded: Option<Intent>, lease: Option<Lease>, stamp: Stamp, closing: Closing): (Write, Reply)
    requires id in r.campaigns && id in r.log
  {
    var campaign, log, intent := r.campaigns[id], r.log[id], IntentWritten(id, t, marks, stamp);
    var entry := AppliedEntry(campaign, t, intent, |log| + 1, stamp,
                              Derived(closing, t, log, IntentsOf(r.intents, id)));
    var updated := AppliedCampaign(campaign, t, stamp.now);
    var replaced := if superseded.Some? then Some(superseded.value.(state := Superseded)) else None;
    (Move(updated, entry, intent, replaced, lease), Applied(entry, updated, intent))
  }

  /** `_commit`: adjudicate, then everything the operation writes. */
  function DecideCommit(r: Registry, id: string, t: Transition, marks: Option<(Intent, string)>,
                        runsInFlight: seq<string>, stamp: Stamp, closing: Closing): (Write, Reply)
    requires id in r.campaigns && id in r.log
  {
    var campaign, log := r.campaigns[id], r.log[id];
    var verdict := Adjudicate(campaign, t, AppliedWithKey(log, t.key));
    if verdict.Replays? then
      var launchId := verdict.entry.launchId;
      (Nothing, if launchId.Some? && launchId.value !in r.intents then Raised(LookupMissed)
                else Replayed(verdict.entry, campaign, IntentAt(r.intents, launchId)))
    else
      var superseded := IntentAt(r.intents, t.supersedes);
      match Judge(verdict, campaign, t, superseded, r.lease, stamp.now, runsInFlight)
      case Broken => (Nothing, Raised(MissingField))
      case Denied(reason) =>
        var entry := ControlLogEntry(campaign, t, stamp.entryId, |log| + 1, stamp.now, Some(reason), None, map[]);
        (Note(entry), Refused(entry))
      case Allowed(lease) => DecideMove(r, id, t, marks, superseded, lease, stamp, closing)
  }

  function DecideCreate(r: Registry, c: Call, stamp: Stamp): (Write, Reply)
    requires c.Create?
  {
    var id := c.campaign.campaignId;
    var entry := CreationEntry(c.campaign, c.actor, c.actorRole, c.reason, c.key, c.definition, stamp.entryId,
                               stamp.now);
    if c.campaign.state != Draft || c.campaign.outcome.Some? then (Nothing, Raised(BadRequest))
    else if id in r.campaigns then
      if id !in r.log || r.log[id] == [] then (Nothing, Raised(LookupMissed))
      else
        var recorded := r.log[id][0];
        if recorded.key != entry.key || recorded.hash != entry.hash then (Nothing, Raised(AlreadyExists))
        else (Nothing, Replayed(recorded, r.campaigns[id], None))
    else (Found(c.campaign, entry), Applied(entry, c.campaign, None))
  }

  /** The campaign a call writes to. */
  function Target(r: Registry, c: Call): string {
    match c
    case Create(campaign, _, _, _, _, _) => campaign.campaignId
    case Mark(launchId, _, _) => if launchId in r.intents then r.intents[launchId].campaignId else ""
    case _ => c.campaignId
  }

  function Decide(r: Registry, c: Call, stamp: Stamp, closing: Closing): (d: (Write, Reply))
    ensures d.0.Note? || d.0.Move? ==> Target(r, c) in r.campaigns && Target(r, c) in r.log
  {
    var id := Target(r, c);
    match c
    case Create(_, _, _, _, _, _) => DecideCreate(r, c, stamp)
    case Mark(launchId, cycleId, actor) =>
      if launchId !in r.intents then (Nothing, Raised(IntentNotFound))
      else if id !in r.campaigns || id !in r.log then (Nothing, Raised(NotFound))
      else DecideCommit(r, id, MarkTransition(r.intents[launchId].launchId, cycleId, actor),
                        Some((r.intents[launchId], cycleId)), [], stamp, closing)
    case Transit(_, t) =>
      if t.operation.ChangesTheLease() then (Nothing, Raised(BadRequest))
      else if id !in r.campaigns || id !in r.log then (Nothing, Raised(NotFound))
      else DecideCommit(r, id, t, None, [], stamp, closing)
    case ChangeLease(_, t, runsInFlight) =>
      if !t.operation.ChangesTheLease() then (Nothing, Raised(BadRequest))
      else if id !in r.campaigns || id !in r.log then (Nothing, Raised(NotFound))
      else DecideCommit(r, id, t, None, runsInFlight, stamp, closing)
    case Refuse(_, t, refusal) =>
      if id !in r.campaigns || id !in r.log then (Nothing, Raised(NotFound))
      else
        var entry := ControlLogEntry(r.campaigns[id], t, stamp.entryId, |r.log[id]| + 1, stamp.now, Some(refusal),
                                     None, map[]);
        (Note(entry), Refused(entry))
  }

  /** The registry after one call. */
  function Step(r: Registry, c: Call, stamp: Stamp, closing: Closing): Registry {
    Commit(r, Target(r, c), Decide(r, c, stamp, closing).0)
  }

  function Run(r: Registry, calls: seq<(Call, Stamp)>, closing: Closing): Registry
    decreases calls
  {
    if calls == [] then r else Run(Step(r, calls[0].0, calls[0].1, closing), calls[1..], closing)
  }
}
