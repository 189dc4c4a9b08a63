/** What the Project registry's event log is worth: a record is the replay of its own events, and a
    keyed write happens once. */
module ProjectHistory {
  import opened Basics
  import opened Numbering
  import opened Projects

  // --- the log read back ---

  /** A Project's standing after one more of its events, read from the event alone. */
  function Advance(before: Option<Standing>, row: Row<Event>): Option<Standing> {
    match row.document.detail
    case SeedDetail(_) => Some(Standing(Seeded, Ready, row.number, None, None, None, None))
    case RegisterDetail => Some(Standing(Registered, Registering, row.number, None, None, None, None))
    case ValidateDetail(_, commit, diagnostic, _) =>
      if before.None? then None
      else Some(before.value.(
        status := if commit.Some? then Ready else FailedRegistration,
        version := row.number,
        baselineCommit := if commit.Some? then commit else before.value.baselineCommit,
        upstreamCommit := if commit.Some? then commit else before.value.upstreamCommit,
        diagnostic := diagnostic))
    case ConfigureDetail(revision, _) =>
      if before.None? then None else Some(before.value.(version := row.number, configurationRevision := Some(revision)))
    case _ =>
      if before.None? then None else Some(before.value.(version := row.number))
  }

  function Replay(mine: seq<Row<Event>>): Option<Standing> {
    if mine == [] then None else Advance(Replay(mine[..|mine| - 1]), mine[|mine| - 1])
  }

  /** Every validation's event says where the Project was when it was recorded: the status it left
      and, for a READY Project's re-validation, the baseline commit it replaced. */
  ghost predicate Faithful(mine: seq<Row<Event>>) {
    forall i :: 0 <= i < |mine| && mine[i].document.detail.ValidateDetail? ==>
      var before, detail := Replay(mine[..i]), mine[i].document.detail;
      && before.Some?
      && detail.from == before.value.status != Archived
      && detail.previous == if before.value.status == Ready then Some(before.value.baselineCommit) else None
  }

  ghost predicate Told(mine: seq<Row<Event>>, standing: Standing) {
    Replay(mine) == Some(standing) && Faithful(mine)
  }

  /** Every record is its events replayed. */
  ghost predicate Folds(t: Tables) {
    forall p :: p in t.records ==> Told(RowsOf(t.events, p), t.records[p].standing)
  }

  // --- what every call keeps ---

  ghost predicate OneEventPerKey(events: seq<Row<Event>>) {
    forall i, j :: 0 <= i < j < |events| && events[i].document.key.Some? ==>
      events[i].document.key != events[j].document.key
  }

  /** What an event refers to is on record, and names no empty commit. */
  ghost predicate Linked(t: Tables, row: Row<Event>) {
    match row.document.detail
    case ValidateDetail(_, commit, _, _) => commit != Some("")
    case ConfigureDetail(revision, _) => Find(t.configurations, row.owner, revision).Some?
    case BaselineDetail(number, _) => Find(t.baselines, row.owner, number).Some?
    case SyncDetail(number, _) => Find(t.syncs, row.owner, number).Some?
    case ContributeDetail(cycleId, runId, _) => (row.owner, cycleId, runId) in t.contributions
    case InitializeDetail(_, _) => row.owner in t.initializations
    case _ => true
  }

  /** Versions run exactly 1..record_version, one event each, and a Project exists by its events. */
  ghost predicate Versioned(records: map<string, Record>, events: seq<Row<Event>>) {
    Sequential(events) && forall p {:trigger VersionedAt(records, events, p)} :: VersionedAt(records, events, p)
  }

  /** Configurations, baselines and syncs are numbered exactly 1..n, and the record names the
      latest configuration. */
  ghost predicate Documented(t: Tables) {
    && Sequential(t.configurations) && Sequential(t.baselines) && Sequential(t.syncs)
    && (forall p :: p !in t.records ==> Latest(t.configurations, p) == 0)
    && (forall p :: p in t.records ==>
          t.records[p].standing.configurationRevision ==
            if Latest(t.configurations, p) == 0 then None else Some(Latest(t.configurations, p)))
  }

  ghost predicate Sound(t: Tables) {
    && Versioned(t.records, t.events)
    && Documented(t)
    && OneEventPerKey(t.events)
    && (forall i :: 0 <= i < |t.events| ==> Linked(t, t.events[i]))
  }

  lemma {:induction false} PriorFinds(events: seq<Row<Event>>, key: string)
    ensures Prior(events, key).Some? ==>
      Prior(events, key).value in events && Prior(events, key).value.document.key == Some(key)
    ensures Prior(events, key).None? ==> forall i :: 0 <= i < |events| ==> events[i].document.key != Some(key)
  {
    if events == [] {
    } else {
      PriorFinds(events[..|events| - 1], key);
    }
  }

  lemma {:induction false} PriorStays(events: seq<Row<Event>>, row: Row<Event>, key: string)
    ensures Prior(events + [row], key) ==
      if Prior(events, key).Some? then Prior(events, key) else if row.document.key == Some(key) then Some(row) else None
  {
    assert (events + [row])[..|events|] == events;
  }

  /** What a write must look like to keep the tables sound. */
  ghost predicate Admissible(t: Tables, w: Write) {
    match w
    case Nothing => true
    case Claim(_) => true
    case Enter(p, record, event, _) =>
      && p !in t.records
      && record.standing.version == 1 && record.standing.configurationRevision.None?
      && (event.detail.SeedDetail? || event.detail.RegisterDetail?)
      && (event.key.Some? ==> Prior(t.events, event.key.value).None?)
    case Bump(p, standing, event, addition) =>
      && p in t.records
      && (event.key.Some? ==> Prior(t.events, event.key.value).None?)
      && standing.configurationRevision ==
           (if addition.ConfigurationRow? then Some(addition.number) else t.records[p].standing.configurationRevision)
      && Supports(t, p, event.detail, addition)
  }

  /** The row added beside an event is the one its detail names, at the next number. */
  ghost predicate Supports(t: Tables, p: string, detail: Detail, addition: Addition) {
    match detail
    case ValidateDetail(_, commit, _, _) => commit != Some("") && addition == NoRow
    case ConfigureDetail(revision, _) =>
      addition.ConfigurationRow? && addition.number == revision == Latest(t.configurations, p) + 1
    case BaselineDetail(number, _) => addition.BaselineRow? && addition.number == number == Latest(t.baselines, p) + 1
    case SyncDetail(number, _) => addition.SyncRow? && addition.number == number == Latest(t.syncs, p) + 1
    case ContributeDetail(cycleId, runId, _) => addition.ContributionRow? && addition.key == (p, cycleId, runId)
    case ContributionStateDetail(_, _, _, _) => addition.ContributionRow?
    case InitializeDetail(_, _) => addition.InitializationRow? && p !in t.initializations
    case _ => false
  }

  lemma {:induction false} NumberedWritesAreAdmissible(t: Tables, writable: bool, c: Call)
    requires Documented(t) && (c.Configure? || c.CaptureBaseline? || c.Sync?)
    ensures Admissible(t, Decide(t, writable, c).0)
  {
  }

  lemma {:induction false} OtherWritesAreAdmissible(t: Tables, writable: bool, c: Call)
    requires !c.Configure? && !c.CaptureBaseline? && !c.Sync?
    ensures Admissible(t, Decide(t, writable, c).0)
  {
  }

  lemma {:induction false} Admits(t: Tables, writable: bool, c: Call)
    requires Documented(t)
    ensures Admissible(t, Decide(t, writable, c).0)
  {
    if c.Configure? || c.CaptureBaseline? || c.Sync? {
      NumberedWritesAreAdmissible(t, writable, c);
    } else {
      OtherWritesAreAdmissible(t, writable, c);
    }
  }

  /** One event joins the log: its key is new. */
  lemma {:induction false} KeyJoins(events: seq<Row<Event>>, row: Row<Event>)
    requires OneEventPerKey(events)
    requires row.document.key.Some? ==> Prior(events, row.document.key.value).None?
    ensures OneEventPerKey(events + [row])
  {
    if row.document.key.Some? { PriorFinds(events, row.document.key.value); }
  }

  ghost predicate VersionedAt(records: map<string, Record>, events: seq<Row<Event>>, p: string) {
    && (p in records <==> RowsOf(events, p) != [])
    && (p in records ==> records[p].standing.version == |RowsOf(events, p)|)
  }

  lemma {:induction false} OwnerStaysVersioned(before: map<string, Record>, events: seq<Row<Event>>,
                                               after: map<string, Record>, row: Row<Event>)
    requires VersionedAt(before, events, row.owner) && row.owner in after
      && after[row.owner].standing.version == row.number
    requires row.number == if row.owner in before then before[row.owner].standing.version + 1 else 1
    ensures VersionedAt(after, events + [row], row.owner)
  {
    Unfold(events, row);
  }

  lemma {:induction false} OthersStayVersioned(before: map<string, Record>, events: seq<Row<Event>>,
                                               after: map<string, Record>, row: Row<Event>, p: string)
    requires VersionedAt(before, events, p) && p != row.owner && (p in after <==> p in before)
      && (p in before ==> after[p] == before[p])
    ensures VersionedAt(after, events + [row], p)
  {
    Unfold(events, row);
  }

  /** And the versions stay exact. */
  lemma {:induction false} EventJoins(before: map<string, Record>, events: seq<Row<Event>>, after: map<string, Record>,
                                      row: Row<Event>)
    requires Versioned(before, events)
    requires after.Keys == before.Keys + {row.owner} && after[row.owner].standing.version == row.number
    requires forall q :: q in before && q != row.owner ==> after[q] == before[q]
    requires row.number == if row.owner in before then before[row.owner].standing.version + 1 else 1
    ensures Versioned(after, events + [row])
  {
    assert VersionedAt(before, events, row.owner);
    SequentialIsCounted(events, row.owner);
    NextKeepsSequential(events, row);
    forall q
      ensures VersionedAt(after, events + [row], q)
    {
      assert VersionedAt(before, events, q);
      if q == row.owner {
        OwnerStaysVersioned(before, events, after, row);
      } else {
        OthersStayVersioned(before, events, after, row, q);
      }
    }
  }

  /** A document joins its table at the next number, and every other lookup stands. */
  lemma {:induction false} DocumentJoins(rows: seq<Row<string>>, p: string, number: int, document: string)
    requires Sequential(rows) && number == Latest(rows, p) + 1
    ensures var rows' := rows + [Row(p, number, document)];
      && Sequential(rows') && number > 0 && Find(rows', p, number) == Some(document)
      && (forall q, n :: Find(rows, q, n).Some? ==> Find(rows', q, n) == Find(rows, q, n))
      && (forall q :: Latest(rows', q) == if q == p then number else Latest(rows, q))
  {
    var row := Row(p, number, document);
    NextKeepsSequential(rows, row);
    Unfold(rows, row);
    SequentialIsCounted(rows, p);
    forall q
      ensures Latest(rows + [row], q) == if q == p then number else Latest(rows, q)
    {
      SequentialIsCounted(rows, q);
      SequentialIsCounted(rows + [row], q);
    }
  }

  /** No document is lost, renumbered or rewritten, nor an initialization, and no contribution is lost. */
  ghost predicate Extends(t: Tables, t': Tables) {
    && (forall p, n :: Find(t.configurations, p, n).Some? ==>
          Find(t'.configurations, p, n) == Find(t.configurations, p, n))
    && (forall p, n :: Find(t.baselines, p, n).Some? ==> Find(t'.baselines, p, n) == Find(t.baselines, p, n))
    && (forall p, n :: Find(t.syncs, p, n).Some? ==> Find(t'.syncs, p, n) == Find(t.syncs, p, n))
    && t.contributions.Keys <= t'.contributions.Keys
    && (forall p :: p in t.initializations ==> p in t'.initializations && t'.initializations[p] == t.initializations[p])
  }

  lemma {:induction false} RowExtends(t: Tables, p: string, detail: Detail, addition: Addition)
    requires Sequential(t.configurations) && Sequential(t.baselines) && Sequential(t.syncs)
    requires Supports(t, p, detail, addition)
    ensures var t' := WithRow(t, p, addition);
      && Extends(t, t')
      && Sequential(t'.configurations) && Sequential(t'.baselines) && Sequential(t'.syncs)
      && (forall q ::
            Latest(t'.configurations, q) ==
              if q == p && addition.ConfigurationRow? then addition.number else Latest(t.configurations, q))
      && (addition.ConfigurationRow? ==> addition.number > 0)
      && (forall event: Event, version :: event.detail == detail ==> Linked(t', Row(p, version, event)))
  {
    match addition
    case ConfigurationRow(number, document) => DocumentJoins(t.configurations, p, number, document);
    case BaselineRow(number, document) => DocumentJoins(t.baselines, p, number, document);
    case SyncRow(number, document) => DocumentJoins(t.syncs, p, number, document);
    case _ =>
  }

  lemma {:induction false} LinksStand(t: Tables, t': Tables, events: seq<Row<Event>>)
    requires Extends(t, t')
    requires forall i :: 0 <= i < |events| ==> Linked(t, events[i])
    ensures forall i :: 0 <= i < |events| ==> Linked(t', events[i])
  {
  }

  lemma {:induction false} EntryKeepsSound(t: Tables, w: Write)
    requires Sound(t) && Admissible(t, w) && w.Enter?
    ensures Sound(Commit(t, w)) && Extends(t, Commit(t, w))
  {
    var t', row := Commit(t, w), Row(w.projectId, 1, w.event);
    EventJoins(t.records, t.events, t'.records, row);
    KeyJoins(t.events, row);
    assert Linked(t, row);
    LinksStand(t, t', t.events + [row]);
    assert Documented(t');
  }

  lemma {:induction false} BumpKeepsDocuments(t: Tables, w: Write)
    requires Sound(t) && Admissible(t, w) && w.Bump?
    ensures var t' := Commit(t, w);
      && Documented(t') && Extends(t, t')
      && (forall i :: 0 <= i < |t'.events| ==> Linked(t', t'.events[i]))
  {
    var t', with := Commit(t, w), WithRow(t, w.projectId, w.addition);
    var row := Row(w.projectId, t.records[w.projectId].standing.version + 1, w.event);
    RowExtends(t, w.projectId, w.event.detail, w.addition);
    assert Linked(with, row);
    LinksStand(t, with, t.events);
    LinksStand(with, t', t.events + [row]);
  }

  lemma {:induction false} BumpKeepsSound(t: Tables, w: Write)
    requires Sound(t) && Admissible(t, w) && w.Bump?
    ensures Sound(Commit(t, w)) && Extends(t, Commit(t, w))
  {
    var row := Row(w.projectId, t.records[w.projectId].standing.version + 1, w.event);
    EventJoins(t.records, t.events, Commit(t, w).records, row);
    KeyJoins(t.events, row);
    BumpKeepsDocuments(t, w);
  }

  /** Every call, from any sound tables, leaves sound ones. */
  lemma {:induction false} SoundKept(t: Tables, writable: bool, c: Call)
    requires Sound(t)
    ensures Sound(Apply(t, writable, c)) && Extends(t, Apply(t, writable, c))
  {
    var w := Decide(t, writable, c).0;
    Admits(t, writable, c);
    if w.Enter? {
      EntryKeepsSound(t, w);
    } else if w.Bump? {
      BumpKeepsSound(t, w);
    } else {
      LinksStand(t, Commit(t, w), t.events);
    }
  }

  lemma {:induction false} RunKeepsSound(t: Tables, writable: bool, calls: seq<Call>)
    requires Sound(t)
    ensures Sound(Run(t, writable, calls))
    decreases calls
  {
    if calls == [] {
    } else {
      SoundKept(t, writable, calls[0]);
      RunKeepsSound(Apply(t, writable, calls[0]), writable, calls[1..]);
    }
  }

  // --- the record is the fold of its log ---

  /** A validation with an empty commit that reaches its write. */
  ghost predicate BlankCommitApplied(t: Tables, writable: bool, c: Call) {
    && c.Validate? && c.commit == Some("") && c.diagnostic.None?
    && writable && c.projectId in t.records && Prior(t.events, c.key).None?
    && t.records[c.projectId].standing.status != Archived
  }

  lemma {:induction false} ReplayNamesNoBlankCommit(mine: seq<Row<Event>>)
    requires forall i :: 0 <= i < |mine| && mine[i].document.detail.ValidateDetail? ==>
      mine[i].document.detail.commit != Some("")
    ensures Replay(mine).Some? ==> Replay(mine).value.baselineCommit != Some("")
  {
    if mine == [] {
    } else {
      ReplayNamesNoBlankCommit(mine[..|mine| - 1]);
    }
  }

  lemma {:induction false} MineAreEvents(events: seq<Row<Event>>, p: string)
    ensures forall i :: 0 <= i < |RowsOf(events, p)| ==> RowsOf(events, p)[i] in events
  {
    if events == [] {
    } else {
      MineAreEvents(events[..|events| - 1], p);
    }
  }

  lemma {:induction false} ReplayExtends(mine: seq<Row<Event>>, row: Row<Event>)
    ensures Replay(mine + [row]) == Advance(Replay(mine), row)
    ensures Faithful(mine) ==> (Faithful(mine + [row]) <==>
      (row.document.detail.ValidateDetail? ==>
        var before, detail := Replay(mine), row.document.detail;
        && before.Some?
        && detail.from == before.value.status != Archived
        && detail.previous == if before.value.status == Ready then Some(before.value.baselineCommit) else None))
  {
    var all := mine + [row];
    assert all[..|mine|] == mine;
    assert forall i :: 0 <= i < |mine| ==> all[i] == mine[i] && all[..i] == mine[..i];
    assert all[|mine|] == row;
  }

  /** An event tells its record's change: replaying it gives the standing that was written. */
  ghost predicate Tells(t: Tables, w: Write) {
    match w
    case Enter(p, record, event, _) =>
      !event.detail.ValidateDetail? && Advance(None, Row(p, 1, event)) == Some(record.standing)
    case Bump(p, standing, event, _) =>
      p in t.records &&
      var s := t.records[p].standing;
      && Advance(Some(s), Row(p, s.version + 1, event)) == Some(standing.(version := s.version + 1))
      && (event.detail.ValidateDetail? ==>
           && event.detail.from == s.status != Archived
           && event.detail.previous == if s.status == Ready then Some(s.baselineCommit) else None)
    case _ => true
  }

  lemma {:induction false} DecisionsTell(t: Tables, writable: bool, c: Call)
    ensures !BlankCommitApplied(t, writable, c) ==> Tells(t, Decide(t, writable, c).0)
  {
  }

  lemma {:induction false} TellingKeepsOneFold(t: Tables, w: Write)
    requires Versioned(t.records, t.events) && Admissible(t, w) && Tells(t, w) && (w.Enter? || w.Bump?)
    requires w.Bump? ==> Told(RowsOf(t.events, w.projectId), t.records[w.projectId].standing)
    ensures var t' := Commit(t, w); Told(RowsOf(t'.events, w.projectId), t'.records[w.projectId].standing)
  {
    var row := Row(w.projectId, if w.Enter? then 1 else t.records[w.projectId].standing.version + 1, w.event);
    assert VersionedAt(t.records, t.events, w.projectId);
    var mine := RowsOf(t.events, w.projectId);
    Unfold(t.events, row);
    assert Commit(t, w).events == t.events + [row] && RowsOf(t.events + [row], w.projectId) == mine + [row];
    ReplayExtends(mine, row);
  }

  lemma {:induction false} TellingKeepsTheFold(t: Tables, w: Write)
    requires Sound(t) && Folds(t) && Admissible(t, w) && Tells(t, w)
    ensures Folds(Commit(t, w))
  {
    if w.Enter? || w.Bump? {
      var t' := Commit(t, w);
      var row := Row(w.projectId, if w.Enter? then 1 else t.records[w.projectId].standing.version + 1, w.event);
      TellingKeepsOneFold(t, w);
      forall q | q in t'.records && q != w.projectId
        ensures Told(RowsOf(t'.events, q), t'.records[q].standing)
      {
        Unfold(t.events, row);
        assert RowsOf(t'.events, q) == RowsOf(t.events, q);
        assert Told(RowsOf(t.events, q), t.records[q].standing);
      }
    }
  }

  lemma {:induction false} LogNamesNoBlankCommit(t: Tables, p: string)
    requires forall i :: 0 <= i < |t.events| ==> Linked(t, t.events[i])
    ensures var before := Replay(RowsOf(t.events, p)); before.Some? ==> before.value.baselineCommit != Some("")
  {
    var mine := RowsOf(t.events, p);
    MineAreEvents(t.events, p);
    forall i | 0 <= i < |mine| && mine[i].document.detail.ValidateDetail?
      ensures mine[i].document.detail.commit != Some("")
    {
      var j :| 0 <= j < |t.events| && t.events[j] == mine[i];
    }
    ReplayNamesNoBlankCommit(mine);
  }

  /** No log that names no empty commit, with one event more that names none, tells of one. */
  lemma {:induction false} BlankIsUntold(t: Tables, row: Row<Event>, standing: Standing)
    requires forall i :: 0 <= i < |t.events| ==> Linked(t, t.events[i])
    requires row.document.detail.ValidateDetail? && row.document.detail.commit.None?
      && standing.baselineCommit == Some("")
    ensures !Told(RowsOf(t.events + [row], row.owner), standing)
  {
    Unfold(t.events, row);
    var mine := RowsOf(t.events, row.owner);
    ReplayExtends(mine, row);
    LogNamesNoBlankCommit(t, row.owner);
    assert RowsOf(t.events + [row], row.owner) == mine + [row];
  }

  lemma {:induction false} BumpWrites(t: Tables, w: Write)
    requires w.Bump? && w.projectId in t.records
    ensures var t' := Commit(t, w);
      && t'.events == t.events + [Row(w.projectId, t.records[w.projectId].standing.version + 1, w.event)]
      && w.projectId in t'.records && t'.records[w.projectId].standing.baselineCommit == w.standing.baselineCommit
  {
  }

  /** A record given an empty baseline by an event naming no commit is no fold of its log. */
  lemma {:induction false} BlankCommitBreaksTheFold(t: Tables, w: Write)
    requires (forall i :: 0 <= i < |t.events| ==> Linked(t, t.events[i])) && w.Bump? && w.projectId in t.records
    requires w.standing.baselineCommit == Some("") && w.event.detail.ValidateDetail? && w.event.detail.commit.None?
    ensures !Folds(Commit(t, w))
  {
    BumpWrites(t, w);
    var p, t' := w.projectId, Commit(t, w);
    BlankIsUntold(t, Row(p, t.records[p].standing.version + 1, w.event), t'.records[p].standing);
  }

  /** A record stays the fold of its own log over a call exactly when the call does not write a
      validation with an empty commit. */
  lemma {:induction false} FoldKept(t: Tables, writable: bool, c: Call)
    requires Sound(t) && Folds(t)
    ensures Folds(Apply(t, writable, c)) <==> !BlankCommitApplied(t, writable, c)
  {
    var w := Decide(t, writable, c).0;
    if BlankCommitApplied(t, writable, c) {
      assert w == DecideValidate(t, writable, c).0;
      BlankCommitBreaksTheFold(t, w);
    } else {
      DecisionsTell(t, writable, c);
      Admits(t, writable, c);
      TellingKeepsTheFold(t, w);
    }
  }

  ghost predicate FoldsThroughout(t: Tables, writable: bool, calls: seq<Call>)
    decreases calls
  {
    Folds(t) && (calls != [] ==> FoldsThroughout(Apply(t, writable, calls[0]), writable, calls[1..]))
  }

  ghost predicate NeverBlank(t: Tables, writable: bool, calls: seq<Call>)
    decreases calls
  {
    calls != [] ==>
      !BlankCommitApplied(t, writable, calls[0]) && NeverBlank(Apply(t, writable, calls[0]), writable, calls[1..])
  }

  /** Over any run, versions, keys and numbers stay exact; and every record is its own events
      replayed at every step exactly when no empty commit was applied. */
  lemma {:induction false} HistoryIsExact(t: Tables, writable: bool, calls: seq<Call>)
    requires Sound(t) && Folds(t)
    ensures Sound(Run(t, writable, calls))
    ensures FoldsThroughout(t, writable, calls) <==> NeverBlank(t, writable, calls)
    ensures FoldsThroughout(t, writable, calls) ==> Folds(Run(t, writable, calls))
    decreases calls
  {
    if calls == [] {
    } else {
      var t' := Apply(t, writable, calls[0]);
      SoundKept(t, writable, calls[0]);
      FoldKept(t, writable, calls[0]);
      if Folds(t') {
        HistoryIsExact(t', writable, calls[1..]);
      } else {
        RunKeepsSound(t', writable, calls[1..]);
      }
    }
  }

  lemma {:induction false} EmptyIsExact()
    ensures Sound(EMPTY) && Folds(EMPTY)
  {
  }

  /** The same of a registry that began empty. */
  lemma {:induction false} EveryHistoryIsExact(writable: bool, calls: seq<Call>)
    ensures Sound(Run(EMPTY, writable, calls))
    ensures FoldsThroughout(EMPTY, writable, calls) <==> NeverBlank(EMPTY, writable, calls)
    ensures NeverBlank(EMPTY, writable, calls) ==> Folds(Run(EMPTY, writable, calls))
  {
    EmptyIsExact();
    HistoryIsExact(EMPTY, writable, calls);
  }

  /** No call removes a Project, and READY is left exactly by an applied empty commit. */
  lemma {:induction false} ReadyIsKept(t: Tables, writable: bool, c: Call, p: string)
    requires p in t.records && t.records[p].standing.status == Ready
    ensures p in Apply(t, writable, c).records
    ensures Apply(t, writable, c).records[p].standing.status == Ready <==>
      !(BlankCommitApplied(t, writable, c) && c.projectId == p)
  {
  }

  const SEED := Seed("p", "a product", "projects.yaml")
  const BLANK := Validate("p", Some(""), None, "owner", "k")

  /** The example's first call: one Project, READY, and one event without a key. */
  lemma {:induction false} SeededExample()
    ensures var t := Apply(EMPTY, true, SEED);
      && t.records == map["p" := Record("a product", Standing(Seeded, Ready, 1, None, None, None, None))]
      && t.events == [Row("p", 1, Event("squadops", None, None, SeedDetail("projects.yaml")))]
  {
  }

  lemma {:induction false} UnkeyedHasNoPrior(row: Row<Event>, key: string)
    requires row.document.key.None?
    ensures Prior([row], key).None?
  {
    PriorStays([], row, key);
    assert [] + [row] == [row];
  }

  /** An empty commit that reaches its write leaves the Project failed, at an empty baseline. */
  lemma {:induction false} BlankCommitWrites(t: Tables, c: Call)
    requires BlankCommitApplied(t, true, c)
    ensures var t' := Apply(t, true, c);
      && c.projectId in t'.records && t'.records[c.projectId].standing.status == FailedRegistration
      && t'.records[c.projectId].standing.baselineCommit == Some("")
  {
  }

  /** An empty commit takes a READY Project out of READY and puts an empty baseline on a record
      whose log names none. */
  lemma {:induction false} EmptyCommitExample()
    ensures var before := Apply(EMPTY, true, SEED); var t := Apply(before, true, BLANK);
      && "p" in before.records && before.records["p"].standing.status == Ready
      && "p" in t.records && t.records["p"].standing.status == FailedRegistration
      && t.records["p"].standing.baselineCommit == Some("")
      && !Folds(t)
  {
    var t := Apply(EMPTY, true, SEED);
    SeededExample();
    UnkeyedHasNoPrior(t.events[0], "k");
    assert BlankCommitApplied(t, true, BLANK);
    BlankCommitWrites(t, BLANK);
    EmptyIsExact();
    HistoryOfSeed();
    FoldKept(t, true, BLANK);
  }

  lemma {:induction false} HistoryOfSeed()
    requires Sound(EMPTY) && Folds(EMPTY)
    ensures Sound(Apply(EMPTY, true, SEED)) && Folds(Apply(EMPTY, true, SEED))
  {
    SoundKept(EMPTY, true, SEED);
    FoldKept(EMPTY, true, SEED);
  }
}
