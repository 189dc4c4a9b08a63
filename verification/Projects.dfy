/** The writable Project registry: its tables, and what each write does to them.

    One call of the registry is one transaction under the Project's row lock, so a call is one step
    over the tables. Event ids and timestamps are left out: no branch reads them. */
module Projects {
  import opened Basics
  import opened Numbering

  datatype Status = Registering | Ready | Archived | FailedRegistration
  datatype Provenance = Seeded | Registered

  /** The columns of `project_records` that the registry's writes change. */
  datatype Standing = Standing(
    provenance: Provenance,
    status: Status,
    version: int,
    baselineCommit: Option<string>,
    upstreamCommit: Option<string>,
    diagnostic: Option<string>,
    configurationRevision: Option<int>)

  /** `about` stands for the descriptive columns (name, description, tags, source, ownership):
      written when the record is, and read by no write. */
  datatype Record = Record(about: string, standing: Standing)

  /** What an idempotency key stands for. The SHA-256 digests are taken as injective, so a digest is
      its content; a submission's digest is the text its caller hands over. */
  datatype RequestHash =
    | Registers(projectId: string, about: string)
    | Validates(projectId: string)
    | Submits(digest: string)

  /** An event's detail column, by operation. */
  datatype Detail =
    | SeedDetail(source: string)
    | RegisterDetail
    | ValidateDetail(from: Status, commit: Option<string>, diagnostic: Option<string>, previous: Option<Option<string>>)
    | ConfigureDetail(revision: int, atCommit: string)
    | BaselineDetail(capturedSeq: int, atCommit: string)
    | ContributeDetail(cycleId: string, runId: string, head: string)
    | ContributionStateDetail(cycleId: string, runId: string, state: string, integratedCommit: Option<string>)
    | SyncDetail(syncedSeq: int, upstreamCommit: string)
    | InitializeDetail(head: string, manifestDigest: string)

  /** An event's columns beside its Project and version, which are its row's owner and number. */
  datatype Event = Event(actor: string, key: Option<string>, hash: Option<RequestHash>, detail: Detail)

  datatype Contribution = Contribution(
    projectId: string, cycleId: string, runId: string, commit: string, contributedBy: string,
    state: string, integratedCommit: Option<string>)

  datatype Initialization = Initialization(
    projectId: string, commit: string, manifestDigest: string, initializedBy: string)

  datatype Tables = Tables(
    records: map<string, Record>,
    events: seq<Row<Event>>,
    configurations: seq<Row<string>>,
    baselines: seq<Row<string>>,
    syncs: seq<Row<string>>,
    contributions: map<(string, string, string), Contribution>,
    initializations: map<string, Initialization>,
    seedLog: set<string>)

  const EMPTY := Tables(map[], [], [], [], [], map[], map[], {})

  datatype Call =
    | Register(projectId: string, about: string, actor: string, key: string)
    | Validate(projectId: string, commit: Option<string>, diagnostic: Option<string>, actor: string, key: string)
    | Configure(projectId: string, revision: int, document: string, atCommit: string, actor: string, key: string,
                digest: string)
    | CaptureBaseline(projectId: string, document: string, atCommit: string, actor: string, key: string, digest: string)
    | Contribute(contribution: Contribution, key: string, digest: string)
    | SetContributionState(projectId: string, cycleId: string, runId: string, state: string,
                           integratedCommit: Option<string>, actor: string)
    | Sync(projectId: string, document: string, upstream: string, actor: string, key: string, digest: string)
    | Initialize(initialization: Initialization, key: string, digest: string)
    | Seed(projectId: string, about: string, source: string)

  datatype Error =
    | ReadOnly | NotFound | IdTaken | KeyConflict | StateConflict | StaleRevision | BadValidation
    | UniqueViolation   // an insert met a unique index, and its transaction rolled back
    | MissingDetail     // a replay read a field its event's detail does not hold (a KeyError)
    | MissingDocument   // a replay found no document under the number its event names

  datatype Reply =
    | ProjectReply(record: Record)
    | DocumentReply(document: Option<string>)
    | ContributionReply(contribution: Contribution)
    | InitializationReply(initialization: Initialization)
    | SeedReply(inserted: bool)

  datatype Outcome = Done(reply: Reply, replayed: bool) | Failed(error: Error)

  /** The row a write adds beside its event, in the table of its kind. */
  datatype Addition =
    | NoRow
    | ConfigurationRow(number: int, document: string)
    | BaselineRow(number: int, document: string)
    | SyncRow(number: int, document: string)
    | ContributionRow(key: (string, string, string), contribution: Contribution)
    | InitializationRow(initialization: Initialization)

  /** What one transaction writes. `Bump` moves a record to its next version with its event, `Enter`
      creates one at version 1, and `Claim` takes an entry of the seed log. */
  datatype Write =
    | Nothing
    | Claim(projectId: string)
    | Enter(projectId: string, record: Record, event: Event, seeded: bool)
    | Bump(projectId: string, standing: Standing, event: Event, addition: Addition)

  /** The event holding an idempotency key. */
  function Prior(events: seq<Row<Event>>, key: string): Option<Row<Event>> {
    if events == [] then None
    else
      var earlier := Prior(events[..|events| - 1], key);
      if earlier.None? && events[|events| - 1].document.key == Some(key) then Some(events[|events| - 1]) else earlier
  }

  datatype Admission = Fresh | Repeat(prior: Row<Event>) | Refused(error: Error)

  /** What every keyed submission checks first: the write gate, the Project, and the key. */
  function Admit(t: Tables, writable: bool, projectId: string, key: string, hash: RequestHash): Admission {
    if !writable then Refused(ReadOnly)
    else if projectId !in t.records then Refused(NotFound)
    else match Prior(t.events, key)
      case None => Fresh
      case Some(row) =>
        if row.document.hash != Some(hash) || row.owner != projectId then Refused(KeyConflict) else Repeat(row)
  }

  function WithRow(t: Tables, projectId: string, addition: Addition): Tables {
    match addition
    case NoRow => t
    case ConfigurationRow(number, document) =>
      t.(configurations := t.configurations + [Row(projectId, number, document)])
    case BaselineRow(number, document) => t.(baselines := t.baselines + [Row(projectId, number, document)])
    case SyncRow(number, document) => t.(syncs := t.syncs + [Row(projectId, number, document)])
    case ContributionRow(key, c) => t.(contributions := t.contributions[key := c])
    case InitializationRow(i) => t.(initializations := t.initializations[projectId := i])
  }

  /** The tables after a transaction's writes commit together. */
  function Commit(t: Tables, w: Write): Tables
    requires w.Bump? ==> w.projectId in t.records
  {
    match w
    case Nothing => t
    case Claim(p) => t.(seedLog := t.seedLog + {p})
    case Enter(p, record, event, seeded) =>
      t.(records := t.records[p := record], events := t.events + [Row(p, 1, event)],
         seedLog := if seeded then t.seedLog + {p} else t.seedLog)
    case Bump(p, standing, event, addition) =>
      var version := t.records[p].standing.version + 1;
      WithRow(t, p, addition)
        .(records := t.records[p := t.records[p].(standing := standing.(version := version))],
          events := t.events + [Row(p, version, event)])
  }

  function DecideRegister(t: Tables, writable: bool, c: Call): (Write, Outcome)
    requires c.Register?
  {
    var hash := Registers(c.projectId, c.about);
    if !writable then (Nothing, Failed(ReadOnly))
    else match Prior(t.events, c.key)
      case Some(row) =>
        if row.document.hash != Some(hash) then (Nothing, Failed(KeyConflict))
        else if row.owner !in t.records then (Nothing, Failed(NotFound))
        else (Nothing, Done(ProjectReply(t.records[row.owner]), true))
      case None =>
        if c.projectId in t.records then (Nothing, Failed(IdTaken))
        else
          var record := Record(c.about, Standing(Registered, Registering, 1, None, None, None, None));
          (Enter(c.projectId, record, Event(c.actor, Some(c.key), Some(hash), RegisterDetail), false),
           Done(ProjectReply(record), false))
  }

  /** The code tests a commit for `None` to admit the validation and for truthiness to name its
      outcome: an empty commit passes the first and fails the second. */
  function Truthy(commit: Option<string>): Option<string> {
    if commit == Some("") then None else commit
  }

  function Validated(s: Standing, commit: Option<string>, diagnostic: Option<string>): Standing {
    s.(status := if Truthy(commit).Some? then Ready else FailedRegistration,
       baselineCommit := if commit.Some? then commit else s.baselineCommit,
       upstreamCommit := if commit.Some? then commit else s.upstreamCommit,
       diagnostic := diagnostic)
  }

  function DecideValidate(t: Tables, writable: bool, c: Call): (Write, Outcome)
    requires c.Validate?
  {
    var hash := Validates(c.projectId);
    if c.commit.None? == c.diagnostic.None? then (Nothing, Failed(BadValidation))
    else if !writable then (Nothing, Failed(ReadOnly))
    else if c.projectId !in t.records then (Nothing, Failed(NotFound))
    else
      var record := t.records[c.projectId];
      var s := record.standing;
      match Prior(t.events, c.key)
      case Some(row) =>
        if row.document.hash != Some(hash)
        then (Nothing, Failed(KeyConflict))
        else (Nothing, Done(ProjectReply(record), true))
      case None =>
        if s.status == Archived || (s.status == Ready && c.commit.None?) then (Nothing, Failed(StateConflict))
        else
          var previous := if s.status == Ready then Some(s.baselineCommit) else None;
          var event := Event(c.actor, Some(c.key), Some(hash),
                             ValidateDetail(s.status, Truthy(c.commit), c.diagnostic, previous));
          var after := Validated(s, c.commit, c.diagnostic);
          (Bump(c.projectId, after, event, NoRow),
           Done(ProjectReply(record.(standing := after.(version := s.version + 1))), false))
  }

  function DecideConfigure(t: Tables, writable: bool, c: Call): (Write, Outcome)
    requires c.Configure?
  {
    var hash := Submits(c.digest);
    match Admit(t, writable, c.projectId, c.key, hash)
    case Refused(e) => (Nothing, Failed(e))
    case Repeat(row) =>
      if !row.document.detail.ConfigureDetail? then (Nothing, Failed(MissingDetail))
      else
        var found := Find(t.configurations, c.projectId, row.document.detail.revision);
        (Nothing, if found.None? then Failed(MissingDocument) else Done(DocumentReply(found), true))
    case Fresh =>
      var s := t.records[c.projectId].standing;
      if c.revision != s.configurationRevision.Or(0) + 1 then (Nothing, Failed(StaleRevision))
      else if Find(t.configurations, c.projectId, c.revision).Some? then (Nothing, Failed(UniqueViolation))
      else
        (Bump(c.projectId, s.(configurationRevision := Some(c.revision)),
              Event(c.actor, Some(c.key), Some(hash), ConfigureDetail(c.revision, c.atCommit)),
              ConfigurationRow(c.revision, c.document)),
         Done(DocumentReply(Some(c.document)), false))
  }

  function DecideBaseline(t: Tables, writable: bool, c: Call): (Write, Outcome)
    requires c.CaptureBaseline?
  {
    var hash := Submits(c.digest);
    match Admit(t, writable, c.projectId, c.key, hash)
    case Refused(e) => (Nothing, Failed(e))
    case Repeat(row) =>
      if !row.document.detail.BaselineDetail? then (Nothing, Failed(MissingDetail))
      else
        var found := Find(t.baselines, c.projectId, row.document.detail.capturedSeq);
        (Nothing, if found.None? then Failed(MissingDocument) else Done(DocumentReply(found), true))
    case Fresh =>
      var number := Latest(t.baselines, c.projectId) + 1;
      (Bump(c.projectId, t.records[c.projectId].standing,
            Event(c.actor, Some(c.key), Some(hash), BaselineDetail(number, c.atCommit)),
            BaselineRow(number, c.document)),
       Done(DocumentReply(Some(c.document)), false))
  }

  function DecideSync(t: Tables, writable: bool, c: Call): (Write, Outcome)
    requires c.Sync?
  {
    var hash := Submits(c.digest);
    match Admit(t, writable, c.projectId, c.key, hash)
    case Refused(e) => (Nothing, Failed(e))
    case Repeat(row) =>
      if !row.document.detail.SyncDetail? then (Nothing, Failed(MissingDetail))
      else (Nothing, Done(DocumentReply(Find(t.syncs, c.projectId, row.document.detail.syncedSeq)), true))
    case Fresh =>
      var number := Latest(t.syncs, c.projectId) + 1;
      (Bump(c.projectId, t.records[c.projectId].standing,
            Event(c.actor, Some(c.key), Some(hash), SyncDetail(number, c.upstream)),
            SyncRow(number, c.document)),
       Done(DocumentReply(Some(c.document)), false))
  }

  function ContributionKey(c: Contribution): (string, string, string) {
    (c.projectId, c.cycleId, c.runId)
  }

  /** A contribution already on record is returned under any key, which then stays free: the key
      is only tested for a conflict. */
  function DecideContribute(t: Tables, writable: bool, c: Call): (Write, Outcome)
    requires c.Contribute?
  {
    var hash, one := Submits(c.digest), c.contribution;
    var admission := Admit(t, writable, one.projectId, c.key, hash);
    if admission.Refused? then (Nothing, Failed(admission.error))
    else if ContributionKey(one) in t.contributions then
      (Nothing, Done(ContributionReply(t.contributions[ContributionKey(one)]), true))
    else if admission.Repeat? then (Nothing, Failed(UniqueViolation))
    else
      (Bump(one.projectId, t.records[one.projectId].standing,
            Event(one.contributedBy, Some(c.key), Some(hash), ContributeDetail(one.cycleId, one.runId, one.commit)),
            ContributionRow(ContributionKey(one), one)),
       Done(ContributionReply(one), false))
  }

  /** The one unkeyed write of a live Project: every call is a new event. */
  function DecideContributionState(t: Tables, writable: bool, c: Call): (Write, Outcome)
    requires c.SetContributionState?
  {
    var k := (c.projectId, c.cycleId, c.runId);
    if !writable then (Nothing, Failed(ReadOnly))
    else if c.projectId !in t.records || k !in t.contributions then (Nothing, Failed(NotFound))
    else
      var updated := t.contributions[k].(state := c.state, integratedCommit := c.integratedCommit);
      (Bump(c.projectId, t.records[c.projectId].standing,
            Event(c.actor, None, None, ContributionStateDetail(c.cycleId, c.runId, c.state, c.integratedCommit)),
            ContributionRow(k, updated)),
       Done(ContributionReply(updated), false))
  }

  function DecideInitialize(t: Tables, writable: bool, c: Call): (Write, Outcome)
    requires c.Initialize?
  {
    var hash, one := Submits(c.digest), c.initialization;
    var admission := Admit(t, writable, one.projectId, c.key, hash);
    if admission.Refused? then (Nothing, Failed(admission.error))
    else if one.projectId in t.initializations then
      (Nothing, Done(InitializationReply(t.initializations[one.projectId]), true))
    else if admission.Repeat? then (Nothing, Failed(UniqueViolation))
    else
      (Bump(one.projectId, t.records[one.projectId].standing,
            Event(one.initializedBy, Some(c.key), Some(hash), InitializeDetail(one.commit, one.manifestDigest)),
            InitializationRow(one)),
       Done(InitializationReply(one), false))
  }

  /** One entry of `seed_from_config`: the seed log's claim stands even where the id is taken. The
      write gate does not cover it. */
  function DecideSeed(t: Tables, c: Call): (Write, Outcome)
    requires c.Seed?
  {
    if c.projectId in t.seedLog then (Nothing, Done(SeedReply(false), true))
    else if c.projectId in t.records then (Claim(c.projectId), Done(SeedReply(false), false))
    else
      (Enter(c.projectId, Record(c.about, Standing(Seeded, Ready, 1, None, None, None, None)),
             Event("squadops", None, None, SeedDetail(c.source)), true),
       Done(SeedReply(true), false))
  }

  /** What a call writes and what it answers. */
  function Decide(t: Tables, writable: bool, c: Call): (d: (Write, Outcome))
    ensures d.0.Bump? ==> d.0.projectId in t.records
  {
    match c
    case Register(_, _, _, _) => DecideRegister(t, writable, c)
    case Validate(_, _, _, _, _) => DecideValidate(t, writable, c)
    case Configure(_, _, _, _, _, _, _) => DecideConfigure(t, writable, c)
    case CaptureBaseline(_, _, _, _, _, _) => DecideBaseline(t, writable, c)
    case Contribute(_, _, _) => DecideContribute(t, writable, c)
    case SetContributionState(_, _, _, _, _, _) => DecideContributionState(t, writable, c)
    case Sync(_, _, _, _, _, _) => DecideSync(t, writable, c)
    case Initialize(_, _, _) => DecideInitialize(t, writable, c)
    case Seed(_, _, _) => DecideSeed(t, c)
  }

  /** The tables after one call. */
  function Apply(t: Tables, writable: bool, c: Call): Tables {
    Commit(t, Decide(t, writable, c).0)
  }

  /** The tables after a run of calls. */
  function Run(t: Tables, writable: bool, calls: seq<Call>): Tables
    decreases calls
  {
    if calls == [] then t else Run(Apply(t, writable, calls[0]), writable, calls[1..])
  }
}
