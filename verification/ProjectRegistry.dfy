/** The registry's methods, statement by statement, against what each call is specified to do. */
module ProjectRegistry {
  import opened Basics
  import opened Numbering
  import opened Projects
  import opened ProjectHistory

  /** The tables after a config's Projects are seeded in turn. */
  function Seeding(t: Tables, writable: bool, projects: seq<(string, string)>, source: string): Tables {
    if projects == [] then t
    else
      var last := projects[|projects| - 1];
      Apply(Seeding(t, writable, projects[..|projects| - 1], source), writable, Seed(last.0, last.1, source))
  }

  /** The ids a seeding enters, in its order. */
  function Entered(t: Tables, writable: bool, projects: seq<(string, string)>, source: string): seq<string> {
    if projects == [] then []
    else
      var before, id := projects[..|projects| - 1], projects[|projects| - 1].0;
      var t' := Seeding(t, writable, before, source);
      Entered(t, writable, before, source) + if id !in t'.seedLog && id !in t'.records then [id] else []
  }

  lemma {:induction false} SeedingNext(t: Tables, writable: bool, projects: seq<(string, string)>, n: nat,
                                       source: string)
    requires n < |projects|
    ensures var t' := Seeding(t, writable, projects[..n], source); var (id, about) := projects[n];
      && Seeding(t, writable, projects[..n + 1], source) == Apply(t', writable, Seed(id, about, source))
      && Entered(t, writable, projects[..n + 1], source)
        == Entered(t, writable, projects[..n], source) + if id !in t'.seedLog && id !in t'.records then [id] else []
  {
    assert projects[..n + 1][..n] == projects[..n];
  }

  class PostgresProjectRegistry {
    const writable: bool
    var records: map<string, Record>
    var events: seq<Row<Event>>
    var configurations: seq<Row<string>>
    var baselines: seq<Row<string>>
    var syncs: seq<Row<string>>
    var contributions: map<(string, string, string), Contribution>
    var initializations: map<string, Initialization>
    var seedLog: set<string>

    ghost function Contents(): Tables
      reads this
    {
      Tables(records, events, configurations, baselines, syncs, contributions, initializations, seedLog)
    }

    constructor (writable: bool)
      ensures this.writable == writable && Contents() == EMPTY
    {
      this.writable := writable;
      records, events, configurations, baselines, syncs := map[], [], [], [], [];
      contributions, initializations, seedLog := map[], map[], {};
    }

    method RegisterProject(projectId: string, about: string, actor: string, key: string) returns (r: Outcome)
      modifies this
      ensures var c := Register(projectId, about, actor, key);
        Contents() == Apply(old(Contents()), writable, c) && r == Decide(old(Contents()), writable, c).1
    {
      if !writable { return Failed(ReadOnly); }
      var digest, prior := Registers(projectId, about), Prior(events, key);
      if prior.Some? {
        if prior.value.document.hash != Some(digest) { return Failed(KeyConflict); }
        if prior.value.owner !in records { return Failed(NotFound); }
        return Done(ProjectReply(records[prior.value.owner]), true);
      }
      if projectId in records { return Failed(IdTaken); }
      records := records[projectId := Record(about, Standing(Registered, Registering, 1, None, None, None, None))];
      events := events + [Row(projectId, 1, Event(actor, Some(key), Some(digest), RegisterDetail))];
      r := Done(ProjectReply(records[projectId]), false);
    }

    method RecordValidation(projectId: string, commit: Option<string>, diagnostic: Option<string>, actor: string,
                            key: string) returns (r: Outcome)
      modifies this
      ensures var c := Validate(projectId, commit, diagnostic, actor, key);
        Contents() == Apply(old(Contents()), writable, c) && r == Decide(old(Contents()), writable, c).1
    {
      if commit.None? == diagnostic.None? { return Failed(BadValidation); }
      if !writable { return Failed(ReadOnly); }
      if projectId !in records { return Failed(NotFound); }
      var row, digest, prior := records[projectId].standing, Validates(projectId), Prior(events, key);
      if prior.Some? {
        if prior.value.document.hash != Some(digest) { return Failed(KeyConflict); }
        return Done(ProjectReply(records[projectId]), true);
      }
      var previous := None;
      if row.status == Ready {
        if commit.None? { return Failed(StateConflict); }
        previous := Some(row.baselineCommit);
      } else if row.status != Registering && row.status != FailedRegistration {
        return Failed(StateConflict);
      }
      var version := row.version + 1;
      records := records[projectId := records[projectId].(standing := row.(
        status := if Truthy(commit).Some? then Ready else FailedRegistration,
        version := version,
        baselineCommit := if commit.Some? then commit else row.baselineCommit,
        upstreamCommit := if commit.Some? then commit else row.upstreamCommit,
        diagnostic := diagnostic))];
      events := events + [Row(projectId, version,
                              Event(actor, Some(key), Some(digest),
                                    ValidateDetail(row.status, Truthy(commit), diagnostic, previous)))];
      r := Done(ProjectReply(records[projectId]), false);
    }

    method RecordDevelopmentConfiguration(projectId: string, revision: int, document: string, atCommit: string,
                                          actor: string, key: string, digest: string)
      returns (r: Outcome)
      modifies this
      ensures var c := Configure(projectId, revision, document, atCommit, actor, key, digest);
        Contents() == Apply(old(Contents()), writable, c) && r == Decide(old(Contents()), writable, c).1
    {
      if !writable { return Failed(ReadOnly); }
      if projectId !in records { return Failed(NotFound); }
      var row, prior := records[projectId].standing, Prior(events, key);
      if prior.Some? {
        if prior.value.document.hash != Some(Submits(digest)) || prior.value.owner != projectId {
          return Failed(KeyConflict);
        }
        if !prior.value.document.detail.ConfigureDetail? { return Failed(MissingDetail); }
        var stored := Find(configurations, projectId, prior.value.document.detail.revision);
        return if stored.None? then Failed(MissingDocument) else Done(DocumentReply(stored), true);
      }
      if revision != row.configurationRevision.Or(0) + 1 { return Failed(StaleRevision); }
      if Find(configurations, projectId, revision).Some? { return Failed(UniqueViolation); }
      var version := row.version + 1;
      configurations := configurations + [Row(projectId, revision, document)];
      var standing := row.(configurationRevision := Some(revision), version := version);
      records := records[projectId := records[projectId].(standing := standing)];
      events := events + [Row(projectId, version,
                              Event(actor, Some(key), Some(Submits(digest)), ConfigureDetail(revision, atCommit)))];
      r := Done(DocumentReply(Some(document)), false);
    }

    method RecordInheritedBaseline(projectId: string, document: string, atCommit: string, actor: string, key: string,
                                   digest: string) returns (r: Outcome)
      modifies this
      ensures var c := CaptureBaseline(projectId, document, atCommit, actor, key, digest);
        Contents() == Apply(old(Contents()), writable, c) && r == Decide(old(Contents()), writable, c).1
    {
      if !writable { return Failed(ReadOnly); }
      if projectId !in records { return Failed(NotFound); }
      var row, prior := records[projectId].standing, Prior(events, key);
      if prior.Some? {
        if prior.value.document.hash != Some(Submits(digest)) || prior.value.owner != projectId {
          return Failed(KeyConflict);
        }
        if !prior.value.document.detail.BaselineDetail? { return Failed(MissingDetail); }
        var stored := Find(baselines, projectId, prior.value.document.detail.capturedSeq);
        return if stored.None? then Failed(MissingDocument) else Done(DocumentReply(stored), true);
      }
      var number, version := Latest(baselines, projectId) + 1, row.version + 1;
      baselines := baselines + [Row(projectId, number, document)];
      records := records[projectId := records[projectId].(standing := row.(version := version))];
      events := events + [Row(projectId, version,
                              Event(actor, Some(key), Some(Submits(digest)), BaselineDetail(number, atCommit)))];
      r := Done(DocumentReply(Some(document)), false);
    }

    method RecordContribution(contribution: Contribution, key: string, digest: string) returns (r: Outcome)
      modifies this
      ensures var c := Contribute(contribution, key, digest);
        Contents() == Apply(old(Contents()), writable, c) && r == Decide(old(Contents()), writable, c).1
    {
      if !writable { return Failed(ReadOnly); }
      var projectId := contribution.projectId;
      if projectId !in records { return Failed(NotFound); }
      var row, prior := records[projectId].standing, Prior(events, key);
      if prior.Some? && (prior.value.document.hash != Some(Submits(digest)) || prior.value.owner != projectId) {
        return Failed(KeyConflict);
      }
      var place := ContributionKey(contribution);
      if place in contributions { return Done(ContributionReply(contributions[place]), true); }
      if prior.Some? { return Failed(UniqueViolation); }
      var version := row.version + 1;
      contributions := contributions[place := contribution];
      records := records[projectId := records[projectId].(standing := row.(version := version))];
      events := events + [Row(projectId, version, Event(contribution.contributedBy, Some(key), Some(Submits(digest)),
        ContributeDetail(contribution.cycleId, contribution.runId, contribution.commit)))];
      r := Done(ContributionReply(contribution), false);
    }

    method RecordContributionState(projectId: string, cycleId: string, runId: string, state: string,
                                   integratedCommit: Option<string>, actor: string)
      returns (r: Outcome)
      modifies this
      ensures var c := SetContributionState(projectId, cycleId, runId, state, integratedCommit, actor);
        Contents() == Apply(old(Contents()), writable, c) && r == Decide(old(Contents()), writable, c).1
    {
      if !writable { return Failed(ReadOnly); }
      if projectId !in records { return Failed(NotFound); }
      var row, place := records[projectId].standing, (projectId, cycleId, runId);
      if place !in contributions { return Failed(NotFound); }
      contributions := contributions[place := contributions[place].(state := state,
                                                                    integratedCommit := integratedCommit)];
      var version := row.version + 1;
      records := records[projectId := records[projectId].(standing := row.(version := version))];
      events := events + [Row(projectId, version,
                              Event(actor, None, None,
                                    ContributionStateDetail(cycleId, runId, state, integratedCommit)))];
      r := Done(ContributionReply(contributions[place]), false);
    }

    method RecordSync(projectId: string, document: string, upstream: string, actor: string, key: string,
                      digest: string) returns (r: Outcome)
      modifies this
      ensures var c := Sync(projectId, document, upstream, actor, key, digest);
        Contents() == Apply(old(Contents()), writable, c) && r == Decide(old(Contents()), writable, c).1
    {
      if !writable { return Failed(ReadOnly); }
      if projectId !in records { return Failed(NotFound); }
      var row, prior := records[projectId].standing, Prior(events, key);
      if prior.Some? {
        if prior.value.document.hash != Some(Submits(digest)) || prior.value.owner != projectId {
          return Failed(KeyConflict);
        }
        if !prior.value.document.detail.SyncDetail? { return Failed(MissingDetail); }
        return Done(DocumentReply(Find(syncs, projectId, prior.value.document.detail.syncedSeq)), true);
      }
      var number, version := Latest(syncs, projectId) + 1, row.version + 1;
      syncs := syncs + [Row(projectId, number, document)];
      records := records[projectId := records[projectId].(standing := row.(version := version))];
      events := events + [Row(projectId, version,
                              Event(actor, Some(key), Some(Submits(digest)), SyncDetail(number, upstream)))];
      r := Done(DocumentReply(Some(document)), false);
    }

    method RecordInitialization(initialization: Initialization, key: string, digest: string) returns (r: Outcome)
      modifies this
      ensures var c := Initialize(initialization, key, digest);
        Contents() == Apply(old(Contents()), writable, c) && r == Decide(old(Contents()), writable, c).1
    {
      if !writable { return Failed(ReadOnly); }
      var projectId := initialization.projectId;
      if projectId !in records { return Failed(NotFound); }
      var row, prior := records[projectId].standing, Prior(events, key);
      if prior.Some? && (prior.value.document.hash != Some(Submits(digest)) || prior.value.owner != projectId) {
        return Failed(KeyConflict);
      }
      if projectId in initializations { return Done(InitializationReply(initializations[projectId]), true); }
      if prior.Some? { return Failed(UniqueViolation); }
      var version := row.version + 1;
      initializations := initializations[projectId := initialization];
      records := records[projectId := records[projectId].(standing := row.(version := version))];
      events := events + [Row(projectId, version, Event(initialization.initializedBy, Some(key), Some(Submits(digest)),
        InitializeDetail(initialization.commit, initialization.manifestDigest)))];
      r := Done(InitializationReply(initialization), false);
    }

    /** One entry's transaction: its claim, and its record and event unless the id is taken. */
    method SeedOne(id: string, about: string, source: string) returns (inserted: bool)
      modifies this
      ensures Contents() == Apply(old(Contents()), writable, Seed(id, about, source))
      ensures old(Sound(Contents())) ==> Sound(Contents())
      ensures inserted == (id !in old(seedLog) && id !in old(records))
      ensures seedLog == old(seedLog) + {id}
      ensures records == if inserted
                         then old(records)[id := Record(about, Standing(Seeded, Ready, 1, None, None, None, None))]
                         else old(records)
    {
      if Sound(Contents()) { SoundKept(Contents(), writable, Seed(id, about, source)); }
      inserted := false;
      if id in seedLog { return; }
      seedLog := seedLog + {id};
      if id in records { return; }
      records := records[id := Record(about, Standing(Seeded, Ready, 1, None, None, None, None))];
      events := events + [Row(id, 1, Event("squadops", None, None, SeedDetail(source)))];
      inserted := true;
    }

    /** Each config Project is claimed once and seeded unless a record holds its id. */
    method SeedFromConfig(projects: seq<(string, string)>, source: string) returns (seeded: seq<string>)
      modifies this
      ensures Contents() == Seeding(old(Contents()), writable, projects, source)
      ensures seeded == Entered(old(Contents()), writable, projects, source)
    {
      seeded := [];
      for n := 0 to |projects|
        invariant Contents() == Seeding(old(Contents()), writable, projects[..n], source)
        invariant seeded == Entered(old(Contents()), writable, projects[..n], source)
      {
        SeedingNext(old(Contents()), writable, projects, n, source);
        var inserted := SeedOne(projects[n].0, projects[n].1, source);
        if inserted { seeded := seeded + [projects[n].0]; }
      }
      assert projects[..|projects|] == projects;
    }
  }

  const SEEDED := Standing(Seeded, Ready, 1, None, None, None, None)

  lemma {:induction false} SeedWrites(t: Tables, writable: bool, id: string, about: string, source: string)
    ensures var t' := Apply(t, writable, Seed(id, about, source));
      && t'.seedLog == t.seedLog + {id}
      && t'.records == if id !in t.seedLog && id !in t.records
                       then t.records[id := Record(about, SEEDED)]
                       else t.records
  {
  }

  /** What a config says of each Project: a second entry of an id says nothing. */
  function Firsts(projects: seq<(string, string)>): map<string, string> {
    if projects == [] then map[]
    else
      var before, last := Firsts(projects[..|projects| - 1]), projects[|projects| - 1];
      if last.0 in before then before else before[last.0 := last.1]
  }

  /** From one claim log and records to another: every entry is claimed; what is entered is exactly
      the entries that were neither claimed nor on record, each once, as seeded and as the config
      first says; and every other record stands. */
  ghost predicate SeedsExactly(log: set<string>, records: map<string, Record>, log': set<string>,
                               records': map<string, Record>, firsts: map<string, string>, seeded: seq<string>) {
    && log' == log + firsts.Keys
    && (forall i, j :: 0 <= i < j < |seeded| ==> seeded[i] != seeded[j])
    && (forall p :: p in seeded <==> p in firsts && p !in log && p !in records)
    && (forall p :: p in records' <==> p in records || p in seeded)
    && (forall p :: p in records ==> records'[p] == records[p])
    && (forall p :: p in seeded ==> p in records' && records'[p] == Record(firsts[p], SEEDED))
  }

  lemma {:induction false} SeedsOneMore(log: set<string>, records: map<string, Record>, log': set<string>,
                                        records': map<string, Record>, firsts: map<string, string>, seeded: seq<string>,
                                        id: string, about: string)
    requires SeedsExactly(log, records, log', records', firsts, seeded)
    ensures var firsts' := if id in firsts then firsts else firsts[id := about];
      if id !in log' && id !in records' then
        SeedsExactly(log, records, log' + {id}, records'[id := Record(about, SEEDED)], firsts', seeded + [id])
      else SeedsExactly(log, records, log' + {id}, records', firsts', seeded)
  {
  }

  lemma {:induction false} FirstsNext(projects: seq<(string, string)>, n: nat)
    requires n < |projects|
    ensures var before := Firsts(projects[..n]); var (id, about) := projects[n];
      Firsts(projects[..n + 1]) == if id in before then before else before[id := about]
  {
    assert projects[..n + 1][..n] == projects[..n];
  }

  lemma {:induction false} SeedApplied(t: Tables, t1: Tables, t': Tables, writable: bool, firsts: map<string, string>,
                                       firsts': map<string, string>, seeded: seq<string>, seeded': seq<string>,
                                       id: string, about: string, source: string)
    requires SeedsExactly(t.seedLog, t.records, t1.seedLog, t1.records, firsts, seeded)
    requires t' == Apply(t1, writable, Seed(id, about, source))
    requires firsts' == if id in firsts then firsts else firsts[id := about]
    requires seeded' == seeded + if id !in t1.seedLog && id !in t1.records then [id] else []
    ensures SeedsExactly(t.seedLog, t.records, t'.seedLog, t'.records, firsts', seeded')
  {
    SeedWrites(t1, writable, id, about, source);
    SeedsOneMore(t.seedLog, t.records, t1.seedLog, t1.records, firsts, seeded, id, about);
    assert seeded + [] == seeded;
  }

  ghost predicate ExactAt(t: Tables, writable: bool, projects: seq<(string, string)>, n: nat, source: string)
    requires n <= |projects|
  {
    var t' := Seeding(t, writable, projects[..n], source);
    SeedsExactly(t.seedLog, t.records, t'.seedLog, t'.records, Firsts(projects[..n]),
                 Entered(t, writable, projects[..n], source))
  }

  lemma {:induction false} ExactNext(t: Tables, writable: bool, projects: seq<(string, string)>, n: nat, source: string)
    requires n < |projects| && ExactAt(t, writable, projects, n, source)
    ensures ExactAt(t, writable, projects, n + 1, source)
  {
    var before, now, next := projects[..n], projects[..n + 1], projects[n];
    SeedingNext(t, writable, projects, n, source);
    FirstsNext(projects, n);
    SeedApplied(t, Seeding(t, writable, before, source), Seeding(t, writable, now, source), writable, Firsts(before),
                Firsts(now),
                Entered(t, writable, before, source), Entered(t, writable, now, source), next.0, next.1, source);
  }

  /** A config's seeding is exact, entry by entry. */
  lemma {:induction false} SeedingIsExact(t: Tables, writable: bool, projects: seq<(string, string)>, n: nat,
                                          source: string)
    requires n <= |projects|
    ensures ExactAt(t, writable, projects, n, source)
  {
    if n == 0 {
      assert projects[..0] == [];
    } else {
      SeedingIsExact(t, writable, projects, n - 1, source);
      ExactNext(t, writable, projects, n - 1, source);
    }
  }
}
