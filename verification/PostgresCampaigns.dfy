/** The Postgres campaign registry over its own tables: one control log for every campaign, numbered
    by `MAX(seq) + 1`, and updates in place. Each operation is one transaction under the campaign's
    row lock, so it is one step; it simulates the in-memory registry's. */
module PostgresCampaigns {
  import opened Basics
  import opened Numbering
  import opened CampaignLifecycle
  import opened Campaigns
  import opened CampaignHistory
  import opened CampaignReplays

  /** A log row's owner is its campaign and its number is `seq`. The lease table has one row, which
      its migration seeds with the squad's. */
  datatype Tables = Tables(
    campaigns: map<string, Campaign>,
    log: seq<Row<Entry>>,
    intents: map<string, Intent>,
    lease: Option<Lease>)

  function Documents(rows: seq<Row<Entry>>): seq<Entry> {
    seq(|rows|, i requires 0 <= i < |rows| => rows[i].document)
  }

  /** A campaign's rows `ORDER BY seq`; commit order is that order, as `Twin` keeps. */
  function LogOf(p: Tables, id: string): seq<Entry> {
    Documents(RowsOf(p.log, id))
  }

  /** `SELECT … WHERE campaign_id = $1 AND idempotency_key = $2 AND outcome = 'applied'`. */
  function AppliedRow(rows: seq<Row<Entry>>, id: string, key: string): Option<Entry> {
    if rows == [] then None
    else
      var last, earlier := rows[|rows| - 1], AppliedRow(rows[..|rows| - 1], id, key);
      if earlier.None? && last.owner == id && last.document.key == key && last.document.Applied()
      then Some(last.document)
      else earlier
  }

  function Insert(p: Tables, entry: Entry): Tables {
    p.(log := p.log + [Row(entry.campaignId, entry.number, entry)])
  }

  /** `entry_id` is the log's primary key: a second row under one aborts its transaction. */
  predicate EntryTaken(rows: seq<Row<Entry>>, entryId: string) {
    exists i :: 0 <= i < |rows| && rows[i].document.entryId == entryId
  }

  /** A refusal's transaction: its row, or nothing when the id is taken. */
  function Noted(p: Tables, entry: Entry): (Tables, Reply) {
    if EntryTaken(p.log, entry.entryId) then (p, Raised(DuplicateKey)) else (Insert(p, entry), Refused(entry))
  }

  function UpdateCampaign(p: Tables, id: string, updated: Campaign): Tables
    requires id in p.campaigns
  {
    p.(campaigns := p.campaigns[id := p.campaigns[id].(
      state := updated.state, outcome := updated.outcome, updatedAt := updated.updatedAt,
      accepted := updated.accepted, proposal := updated.proposal)])
  }

  function UpdateLaunched(p: Tables, intent: Intent): Tables {
    if intent.launchId !in p.intents then p
    else p.(intents := p.intents[intent.launchId := p.intents[intent.launchId].(
      state := intent.state, cycleId := intent.cycleId, launchedAt := intent.launchedAt)])
  }

  /** `UPDATE … SET state = 'superseded' WHERE launch_id = $1 AND state = 'pending'`. */
  function MarkSuperseded(p: Tables, superseded: Option<Intent>): Tables {
    if superseded.None? then p
    else
      var l := superseded.value.launchId;
      if l !in p.intents || p.intents[l].state != Pending then p
      else p.(intents := p.intents[l := p.intents[l].(state := Superseded)])
  }

  /** The refusal an adjudicated operation meets, or the lease it leaves. `leaseChange` is the locked
      lease row and what runs on the box, given by a lease change alone. */
  function Refusing(verdict: Verdict, campaign: Campaign, t: Transition, superseded: Option<Intent>,
                    leaseChange: Option<(Option<Lease>, seq<string>)>, now: int): Judgement
    requires !verdict.Replays? && (leaseChange.Some? ==> t.operation.ChangesTheLease())
  {
    var refusal := if verdict.Refuses? then Some(verdict.reason) else SupersessionRefusal(campaign, t, superseded);
    if refusal.Some? then Denied(refusal.value)
    else if leaseChange.None? then Allowed(None)
    else match JudgeLease(t, leaseChange.value.0, campaign, now, leaseChange.value.1)
      case LeaseRefused(reason) => Denied(reason)
      case Leased(next) => Allowed(Some(next))
      case BindingMissesField => Broken
  }

  /** The applied operation's statements, in order; a launch id already held aborts them all. */
  function Statements(p: Tables, id: string, t: Transition, entry: Entry, updated: Campaign, marked: bool,
                      intent: Option<Intent>, superseded: Option<Intent>, lease: Option<Lease>): (Tables, Reply)
    requires id in p.campaigns
  {
    var p1 := Insert(p, entry);
    var p2 := if t.nextState.Some? then UpdateCampaign(p1, id, updated) else p1;
    if EntryTaken(p.log, entry.entryId) then (p, Raised(DuplicateKey))
    else if !marked && intent.Some? && intent.value.launchId in p2.intents then (p, Raised(DuplicateKey))
    else
      var p3 := if intent.None? then p2
                else if marked then UpdateLaunched(p2, intent.value)
                else p2.(intents := p2.intents[intent.value.launchId := intent.value]);
      var p4 := MarkSuperseded(p3, superseded);
      (if lease.Some? then p4.(lease := lease) else p4, Applied(entry, updated, intent))
  }

  function TransactMove(p: Tables, id: string, t: Transition, marks: Option<(Intent, string)>,
                        superseded: Option<Intent>, lease: Option<Lease>, number: int, stamp: Stamp,
                        closing: Closing): (Tables, Reply)
    requires id in p.campaigns
  {
    var campaign, intent := p.campaigns[id], IntentWritten(id, t, marks, stamp);
    var entry := AppliedEntry(campaign, t, intent, number, stamp,
                              Derived(closing, t, LogOf(p, id), IntentsOf(p.intents, id)));
    Statements(p, id, t, entry, AppliedCampaign(campaign, t, stamp.now), marks.Some?, intent, superseded, lease)
  }

  function TransactCommit(p: Tables, id: string, t: Transition, marks: Option<(Intent, string)>,
                          leaseChange: Option<(Option<Lease>, seq<string>)>, stamp: Stamp,
                          closing: Closing): (Tables, Reply)
    requires id in p.campaigns && (leaseChange.Some? ==> t.operation.ChangesTheLease())
  {
    var campaign := p.campaigns[id];
    var verdict := Adjudicate(campaign, t, AppliedRow(p.log, id, t.key));
    if verdict.Replays? then
      var launchId := verdict.entry.launchId;
      (p, if launchId.Some? && launchId.value !in p.intents then Raised(LookupMissed)
          else Replayed(verdict.entry, campaign, IntentAt(p.intents, launchId)))
    else
      var number := Latest(p.log, id) + 1;
      var superseded := IntentAt(p.intents, t.supersedes);
      match Refusing(verdict, campaign, t, superseded, leaseChange, stamp.now)
      case Broken => (p, Raised(MissingField))
      case Denied(reason) =>
        var entry := ControlLogEntry(campaign, t, stamp.entryId, number, stamp.now, Some(reason), None, map[]);
        Noted(p, entry)
      case Allowed(lease) => TransactMove(p, id, t, marks, superseded, lease, number, stamp, closing)
  }

  function TransactCreate(p: Tables, c: Call, stamp: Stamp): (Tables, Reply)
    requires c.Create?
  {
    var id := c.campaign.campaignId;
    var entry := CreationEntry(c.campaign, c.actor, c.actorRole, c.reason, c.key, c.definition, stamp.entryId,
                               stamp.now);
    if c.campaign.state != Draft || c.campaign.outcome.Some? then (p, Raised(BadRequest))
    else if id in p.campaigns then
      match Find(p.log, id, 1)
      case None => (p, Raised(LookupMissed))
      case Some(recorded) =>
        (p, if recorded.key != entry.key || recorded.hash != entry.hash then Raised(AlreadyExists)
            else Replayed(recorded, p.campaigns[id], None))
    else if EntryTaken(p.log, entry.entryId) then (p, Raised(DuplicateKey))
    else (Insert(p.(campaigns := p.campaigns[id := c.campaign]), entry), Applied(entry, c.campaign, None))
  }

  /** One control operation: the tables after its transaction, and its answer. */
  function Transact(p: Tables, c: Call, stamp: Stamp, closing: Closing): (Tables, Reply) {
    match c
    case Create(_, _, _, _, _, _) => TransactCreate(p, c, stamp)
    case Transit(id, t) =>
      if t.operation.ChangesTheLease() then (p, Raised(BadRequest))
      else if id !in p.campaigns then (p, Raised(NotFound))
      else TransactCommit(p, id, t, None, None, stamp, closing)
    case ChangeLease(id, t, runsInFlight) =>
      if !t.operation.ChangesTheLease() then (p, Raised(BadRequest))
      else if id !in p.campaigns then (p, Raised(NotFound))
      else TransactCommit(p, id, t, None, Some((p.lease, runsInFlight)), stamp, closing)
    case Refuse(id, t, refusal) =>
      if id !in p.campaigns then (p, Raised(NotFound))
      else
        var entry := ControlLogEntry(p.campaigns[id], t, stamp.entryId, Latest(p.log, id) + 1, stamp.now,
                                     Some(refusal), None, map[]);
        Noted(p, entry)
    case Mark(launchId, cycleId, actor) =>
      if launchId !in p.intents then (p, Raised(IntentNotFound))
      else
        var intent := p.intents[launchId];
        if intent.campaignId !in p.campaigns then (p, Raised(NotFound))
        else TransactCommit(p, intent.campaignId, MarkTransition(intent.launchId, cycleId, actor),
                            Some((intent, cycleId)), None, stamp, closing)
  }

  // --- the two registries hold the same thing ---

  /** The seeded squad lease stands for the in-memory registry's none. */
  predicate SameLease(memory: Option<Lease>, postgres: Option<Lease>) {
    postgres == memory || (memory.None? && !postgres.value.supervisor)
  }

  ghost predicate SameLog(memory: map<string, seq<Entry>>, rows: seq<Row<Entry>>) {
    && Sequential(rows)
    && (forall id {:trigger RowsOf(rows, id)} :: Documents(RowsOf(rows, id)) == if id in memory then memory[id] else [])
  }

  ghost predicate Twin(m: Registry, p: Tables) {
    && p.campaigns == m.campaigns && p.intents == m.intents
    && SameLease(m.lease, p.lease)
    && SameLog(m.log, p.log)
  }

  /** `MAX(seq)` is the log's length, row 1 is its first, and the key's holder is the same row. */
  lemma {:induction false} SameReads(m: map<string, seq<Entry>>, rows: seq<Row<Entry>>, id: string, key: string)
    requires SameLog(m, rows) && id in m
    ensures Latest(rows, id) == |m[id]|
    ensures m[id] != [] ==> Find(rows, id, 1) == Some(m[id][0])
    ensures AppliedRow(rows, id, key) == AppliedWithKey(m[id], key)
  {
    SequentialIsCounted(rows, id);
    assert |Documents(RowsOf(rows, id))| == |m[id]|;
    if m[id] != [] { assert Documents(RowsOf(rows, id))[0] == m[id][0]; }
    KeyHolderIsRow(rows, id, key);
  }

  lemma {:induction false} KeyHolderIsRow(rows: seq<Row<Entry>>, id: string, key: string)
    ensures AppliedRow(rows, id, key) == AppliedWithKey(Documents(RowsOf(rows, id)), key)
  {
    if rows == [] {
    } else {
      var init, last := rows[..|rows| - 1], rows[|rows| - 1];
      KeyHolderIsRow(init, id, key);
      var earlier := Documents(RowsOf(init, id));
      if last.owner == id {
        assert Documents(RowsOf(rows, id)) == earlier + [last.document];
        KeyHolderStays(earlier, last.document, key);
      } else {
        assert RowsOf(rows, id) == RowsOf(init, id);
      }
    }
  }

  lemma {:induction false} DocumentsJoin(rows: seq<Row<Entry>>, row: Row<Entry>, id: string)
    ensures Documents(RowsOf(rows + [row], id)) ==
      Documents(RowsOf(rows, id)) + if row.owner == id then [row.document] else []
  {
    Unfold(rows, row);
  }

  lemma {:induction false} SameInsert(m: map<string, seq<Entry>>, rows: seq<Row<Entry>>, entry: Entry)
    requires SameLog(m, rows)
    requires entry.number == 1 + if entry.campaignId in m then |m[entry.campaignId]| else 0
    ensures SameLog(m[entry.campaignId := (if entry.campaignId in m then m[entry.campaignId] else []) + [entry]],
                    rows + [Row(entry.campaignId, entry.number, entry)])
  {
    var id, row := entry.campaignId, Row(entry.campaignId, entry.number, entry);
    SequentialIsCounted(rows, id);
    assert |Documents(RowsOf(rows, id))| == |RowsOf(rows, id)|;
    NextKeepsSequential(rows, row);
    var m' := m[id := (if id in m then m[id] else []) + [entry]];
    forall q
      ensures Documents(RowsOf(rows + [row], q)) == if q in m' then m'[q] else []
    {
      DocumentsJoin(rows, row, q);
      assert Documents(RowsOf(rows, q)) == if q in m then m[q] else [];
    }
  }

  lemma {:induction false} RowIsItsOwners(rows: seq<Row<Entry>>, i: nat)
    requires i < |rows|
    ensures exists j :: 0 <= j < |RowsOf(rows, rows[i].owner)| && RowsOf(rows, rows[i].owner)[j] == rows[i]
  {
    var n, id := |rows| - 1, rows[i].owner;
    var before := RowsOf(rows[..n], id);
    if i == n {
      assert RowsOf(rows, id)[|before|] == rows[i];
    } else {
      RowIsItsOwners(rows[..n], i);
      var j :| 0 <= j < |before| && before[j] == rows[i];
      assert RowsOf(rows, id)[j] == rows[i];
    }
  }

  /** An entry id new to the in-memory logs is new to the table. */
  lemma {:induction false} FreshIsUntaken(m: Registry, p: Tables, stamp: Stamp)
    requires SameLog(m.log, p.log) && Fresh(m, stamp)
    ensures !EntryTaken(p.log, stamp.entryId)
  {
    forall i | 0 <= i < |p.log|
      ensures p.log[i].document.entryId != stamp.entryId
    {
      RowIsItsOwners(p.log, i);
      var id := p.log[i].owner;
      var j :| 0 <= j < |RowsOf(p.log, id)| && RowsOf(p.log, id)[j] == p.log[i];
      assert Documents(RowsOf(p.log, id))[j] == p.log[i].document;
    }
  }

  lemma {:induction false} LeaseJudgedAlike(t: Transition, memory: Option<Lease>, postgres: Option<Lease>,
                                            campaign: Campaign, now: int, runsInFlight: seq<string>)
    requires t.operation.ChangesTheLease() && SameLease(memory, postgres)
    ensures JudgeLease(t, memory, campaign, now, runsInFlight) == JudgeLease(t, postgres, campaign, now, runsInFlight)
  {
  }

  /** Two versions of an intent that differ in nothing but its launch. */
  predicate Launches(before: Intent, after: Intent) {
    after == before.(state := after.state, cycleId := after.cycleId, launchedAt := after.launchedAt)
  }

  /** The update's columns are all that a move changes of a campaign. */
  predicate Moves(t: Transition, before: Campaign, updated: Campaign) {
    updated == if t.nextState.None? then before else
      before.(state := updated.state, outcome := updated.outcome, updatedAt := updated.updatedAt,
              accepted := updated.accepted, proposal := updated.proposal)
  }

  /** What may be written of the intents: a new launch, or a launch of the one marked; and a pending
      one superseded, by an operation that marks none. */
  predicate Writable(intents: map<string, Intent>, marked: bool, intent: Option<Intent>, superseded: Option<Intent>) {
    && (intent.Some? && !marked ==> intent.value.launchId !in intents)
    && (intent.Some? && marked ==>
          intent.value.launchId in intents && Launches(intents[intent.value.launchId], intent.value))
    && (superseded.Some? ==>
          && !marked && superseded.value.state == Pending && superseded.value.launchId in intents
          && intents[superseded.value.launchId] == superseded.value)
  }

  function Replaced(superseded: Option<Intent>): Option<Intent> {
    if superseded.Some? then Some(superseded.value.(state := Superseded)) else None
  }

  /** What an applied operation's statements come to, taken together. */
  lemma {:induction false} StatementsWrite(p: Tables, id: string, t: Transition, entry: Entry, updated: Campaign,
                                           marked: bool, intent: Option<Intent>, superseded: Option<Intent>,
                                           lease: Option<Lease>)
    requires id in p.campaigns && !EntryTaken(p.log, entry.entryId)
    requires Moves(t, p.campaigns[id], updated) && Writable(p.intents, marked, intent, superseded)
    ensures var (p', reply) := Statements(p, id, t, entry, updated, marked, intent, superseded, lease);
      && reply == Applied(entry, updated, intent)
      && p'.campaigns == p.campaigns[id := updated] && p'.log == p.log + [Row(entry.campaignId, entry.number, entry)]
      && p'.intents == Put(Put(p.intents, intent), Replaced(superseded))
      && p'.lease == if lease.Some? then lease else p.lease
  {
  }

  /** The applied operation's statements leave what the in-memory commit leaves. */
  lemma {:induction false} WritesAlike(m: Registry, p: Tables, id: string, t: Transition, entry: Entry,
                                       updated: Campaign, marked: bool, intent: Option<Intent>,
                                       superseded: Option<Intent>, lease: Option<Lease>)
    requires Twin(m, p) && id in m.campaigns && id in m.log && !EntryTaken(p.log, entry.entryId)
    requires entry.campaignId == id && entry.number == |m.log[id]| + 1
    requires Moves(t, m.campaigns[id], updated) && Writable(m.intents, marked, intent, superseded)
    ensures var (p', reply) := Statements(p, id, t, entry, updated, marked, intent, superseded, lease);
      && reply == Applied(entry, updated, intent)
      && Twin(Commit(m, id, Move(updated, entry, intent, Replaced(superseded), lease)), p')
  {
    StatementsWrite(p, id, t, entry, updated, marked, intent, superseded, lease);
    SameInsert(m.log, p.log, entry);
  }

  function LeaseChange(p: Tables, t: Transition, runsInFlight: seq<string>): Option<(Option<Lease>, seq<string>)> {
    if t.operation.ChangesTheLease() then Some((p.lease, runsInFlight)) else None
  }

  lemma {:induction false} JudgedAlike(verdict: Verdict, m: Registry, p: Tables, campaign: Campaign, t: Transition,
                                       superseded: Option<Intent>, now: int, runsInFlight: seq<string>)
    requires !verdict.Replays? && SameLease(m.lease, p.lease)
    ensures Refusing(verdict, campaign, t, superseded, LeaseChange(p, t, runsInFlight), now)
         == Judge(verdict, campaign, t, superseded, m.lease, now, runsInFlight)
  {
    if t.operation.ChangesTheLease() { LeaseJudgedAlike(t, m.lease, p.lease, campaign, now, runsInFlight); }
  }

  /** A refusal's row, on twins. */
  lemma {:induction false} NotedAlike(m: Registry, p: Tables, id: string, entry: Entry)
    requires Twin(m, p) && id in m.log && !EntryTaken(p.log, entry.entryId)
    requires entry.campaignId == id && entry.number == |m.log[id]| + 1
    ensures Noted(p, entry).1 == Refused(entry) && Twin(Commit(m, id, Note(entry)), Noted(p, entry).0)
  {
    SameInsert(m.log, p.log, entry);
  }

  /** What the two registries do with an operation nothing refuses. */
  lemma {:induction false} MovesAlike(m: Registry, p: Tables, id: string, t: Transition,
                                      marks: Option<(Intent, string)>, superseded: Option<Intent>, lease: Option<Lease>,
                                      stamp: Stamp, closing: Closing)
    requires Twin(m, p) && Good(m, id) && IntentsOwned(m.intents, m.campaigns.Keys) && Fresh(m, stamp)
    requires marks.Some? ==>
      !t.operation.OpBranchRebased? && marks.value.0.launchId in m.intents
        && m.intents[marks.value.0.launchId] == marks.value.0
    requires superseded == IntentAt(m.intents, t.supersedes)
      && SupersessionRefusal(m.campaigns[id], t, superseded).None?
    ensures var (w, reply) := DecideMove(m, id, t, marks, superseded, lease, stamp, closing);
      var (p', reply') := TransactMove(p, id, t, marks, superseded, lease, |m.log[id]| + 1, stamp, closing);
      reply' == reply && Twin(Commit(m, id, w), p')
  {
    FreshIsUntaken(m, p, stamp);
    assert LogOf(p, id) == m.log[id];
    var campaign, intent := m.campaigns[id], IntentWritten(id, t, marks, stamp);
    var entry := AppliedEntry(campaign, t, intent, |m.log[id]| + 1, stamp,
                              Derived(closing, t, m.log[id], IntentsOf(m.intents, id)));
    WritesAlike(m, p, id, t, entry, AppliedCampaign(campaign, t, stamp.now), marks.Some?, intent, superseded, lease);
  }

  /** `_commit` of the two registries: the same answer, and twins after it. */
  lemma {:induction false} CommitsAlike(m: Registry, p: Tables, id: string, t: Transition,
                                        marks: Option<(Intent, string)>, runsInFlight: seq<string>, stamp: Stamp,
                                        closing: Closing)
    requires Twin(m, p) && Good(m, id) && IntentsOwned(m.intents, m.campaigns.Keys) && Fresh(m, stamp)
    requires marks.Some? ==>
      !t.operation.OpBranchRebased? && marks.value.0.launchId in m.intents
        && m.intents[marks.value.0.launchId] == marks.value.0
    ensures var (w, reply) := DecideCommit(m, id, t, marks, runsInFlight, stamp, closing);
      var (p', reply') := TransactCommit(p, id, t, marks, LeaseChange(p, t, runsInFlight), stamp, closing);
      reply' == reply && Twin(Commit(m, id, w), p')
  {
    FreshIsUntaken(m, p, stamp);
    SameReads(m.log, p.log, id, t.key);
    var campaign, superseded := m.campaigns[id], IntentAt(m.intents, t.supersedes);
    var verdict := Adjudicate(campaign, t, AppliedWithKey(m.log[id], t.key));
    if !verdict.Replays? {
      JudgedAlike(verdict, m, p, campaign, t, superseded, stamp.now, runsInFlight);
      var judgement := Judge(verdict, campaign, t, superseded, m.lease, stamp.now, runsInFlight);
      match judgement
      case Broken =>
      case Denied(reason) =>
        var entry := ControlLogEntry(campaign, t, stamp.entryId, |m.log[id]| + 1, stamp.now, Some(reason), None, map[]);
        NotedAlike(m, p, id, entry);
      case Allowed(lease) => MovesAlike(m, p, id, t, marks, superseded, lease, stamp, closing);
    }
  }

  lemma {:induction false} NewCreatesAlike(m: Registry, p: Tables, id: string, campaign: Campaign, entry: Entry)
    requires Twin(m, p) && id !in m.log && entry.campaignId == id && entry.number == 1
    ensures Twin(Commit(m, id, Found(campaign, entry)), Insert(p.(campaigns := p.campaigns[id := campaign]), entry))
  {
    SameInsert(m.log, p.log, entry);
    assert [] + [entry] == [entry];
  }

  lemma {:induction false} CreatesAlike(m: Registry, p: Tables, c: Call, stamp: Stamp)
    requires Twin(m, p) && m.campaigns.Keys == m.log.Keys && c.Create? && !EntryTaken(p.log, stamp.entryId)
    requires c.campaign.campaignId in m.campaigns ==> Good(m, c.campaign.campaignId)
    ensures var (w, reply) := DecideCreate(m, c, stamp);
      var (p', reply') := TransactCreate(p, c, stamp);
      !w.Note? && !w.Move? && reply' == reply && Twin(Commit(m, c.campaign.campaignId, w), p')
  {
    var id := c.campaign.campaignId;
    if id in m.campaigns {
      SameReads(m.log, p.log, id, c.key);
    } else {
      var entry := CreationEntry(c.campaign, c.actor, c.actorRole, c.reason, c.key, c.definition, stamp.entryId,
                                 stamp.now);
      NewCreatesAlike(m, p, id, c.campaign, entry);
    }
  }

  lemma {:induction false} RefusesAlike(m: Registry, p: Tables, id: string, t: Transition, refusal: Refusal,
                                        stamp: Stamp)
    requires Twin(m, p) && Good(m, id) && !EntryTaken(p.log, stamp.entryId)
    ensures var entry := ControlLogEntry(m.campaigns[id], t, stamp.entryId, |m.log[id]| + 1, stamp.now, Some(refusal),
                                         None, map[]);
      && Latest(p.log, id) == |m.log[id]|
      && Noted(p, entry).1 == Refused(entry) && Twin(Commit(m, id, Note(entry)), Noted(p, entry).0)
  {
    var entry := ControlLogEntry(m.campaigns[id], t, stamp.entryId, |m.log[id]| + 1, stamp.now, Some(refusal), None,
                                 map[]);
    SameReads(m.log, p.log, id, t.key);
    NotedAlike(m, p, id, entry);
  }

  /** A transition, a lease change or a mark on twins. */
  lemma {:induction false} CommittedAlike(m: Registry, p: Tables, c: Call, stamp: Stamp, closing: Closing)
    requires Sound(m) && Twin(m, p) && Fresh(m, stamp) && (c.Transit? || c.ChangeLease? || c.Mark?)
    ensures Transact(p, c, stamp, closing).1 == Decide(m, c, stamp, closing).1
    ensures Twin(Step(m, c, stamp, closing), Transact(p, c, stamp, closing).0)
  {
    var id := Target(m, c);
    if id in m.campaigns {
      assert Good(m, id);
      match c
      case Transit(_, t) => CommitsAlike(m, p, id, t, None, [], stamp, closing);
      case ChangeLease(_, t, runsInFlight) => CommitsAlike(m, p, id, t, None, runsInFlight, stamp, closing);
      case Mark(l, cycleId, actor) =>
        if l in m.intents {
          var t := MarkTransition(l, cycleId, actor);
          CommitsAlike(m, p, id, t, Some((m.intents[l], cycleId)), [], stamp, closing);
        }
    }
  }

  /** One operation on twins: both registries answer alike and stay twins. */
  lemma {:induction false} StepsAlike(m: Registry, p: Tables, c: Call, stamp: Stamp, closing: Closing)
    requires Sound(m) && Twin(m, p) && Fresh(m, stamp)
    ensures Transact(p, c, stamp, closing).1 == Decide(m, c, stamp, closing).1
    ensures Twin(Step(m, c, stamp, closing), Transact(p, c, stamp, closing).0)
  {
    var id := Target(m, c);
    FreshIsUntaken(m, p, stamp);
    assert id in m.campaigns ==> Good(m, id);
    if c.Create? {
      CreatesAlike(m, p, c, stamp);
    } else if c.Refuse? {
      if id in m.campaigns { RefusesAlike(m, p, id, c.transition, c.refusal, stamp); }
    } else {
      CommittedAlike(m, p, c, stamp, closing);
    }
  }

  /** The answers of a run, call by call. */
  function MemoryReplies(m: Registry, calls: seq<(Call, Stamp)>, closing: Closing): seq<Reply>
    decreases calls
  {
    if calls == [] then []
    else [Decide(m, calls[0].0, calls[0].1, closing).1] + MemoryReplies(Step(m, calls[0].0, calls[0].1, closing),
                                                                        calls[1..], closing)
  }

  function PostgresRun(p: Tables, calls: seq<(Call, Stamp)>, closing: Closing): (Tables, seq<Reply>)
    decreases calls
  {
    if calls == [] then (p, [])
    else
      var (p1, reply) := Transact(p, calls[0].0, calls[0].1, closing);
      var (p', replies) := PostgresRun(p1, calls[1..], closing);
      (p', [reply] + replies)
  }

  /** Every sequence of operations gets the same answers from both registries and leaves the same
      campaigns, logs, intents and lease. */
  lemma {:induction false} Simulates(m: Registry, p: Tables, calls: seq<(Call, Stamp)>, closing: Closing)
    requires Sound(m) && Twin(m, p) && FreshRun(m, calls, closing)
    ensures PostgresRun(p, calls, closing).1 == MemoryReplies(m, calls, closing)
    ensures Twin(Run(m, calls, closing), PostgresRun(p, calls, closing).0)
    decreases calls
  {
    if calls == [] {
    } else {
      StepsAlike(m, p, calls[0].0, calls[0].1, closing);
      SoundKept(m, calls[0].0, calls[0].1, closing);
      Simulates(Step(m, calls[0].0, calls[0].1, closing), Transact(p, calls[0].0, calls[0].1, closing).0, calls[1..],
                closing);
    }
  }

  /** The migrated database before any campaign. */
  function Migrated(now: int): Tables {
    Tables(map[], [], map[], Some(Lease(false, SQUAD, now, None, None)))
  }

  lemma {:induction false} StartAsTwins(now: int)
    ensures Sound(EMPTY) && Twin(EMPTY, Migrated(now))
  {
  }

  /** The same from a migrated database and an empty registry. */
  lemma {:induction false} SimulatesFromTheStart(now: int, calls: seq<(Call, Stamp)>, closing: Closing)
    requires FreshRun(EMPTY, calls, closing)
    ensures PostgresRun(Migrated(now), calls, closing).1 == MemoryReplies(EMPTY, calls, closing)
    ensures Twin(Run(EMPTY, calls, closing), PostgresRun(Migrated(now), calls, closing).0)
  {
    StartAsTwins(now);
    Simulates(EMPTY, Migrated(now), calls, closing);
  }
}
