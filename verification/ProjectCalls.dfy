/** What each Project call does, by the call's own fields and the tables before it: when it is applied,
    how it fails, and everything it leaves. */
module ProjectCalls {
  import opened Basics
  import opened Numbering
  import opened Projects
  import opened ProjectHistory

  predicate IsApplied(o: Outcome) {
    o.Done? && !o.replayed
  }

  predicate KeyFree(events: seq<Row<Event>>, key: string) {
    forall i :: 0 <= i < |events| ==> events[i].document.key != Some(key)
  }

  /** The key is another request's: another Project's, or another hash's. */
  predicate KeyTaken(events: seq<Row<Event>>, key: string, projectId: string, hash: RequestHash) {
    exists i :: 0 <= i < |events| && events[i].document.key == Some(key)
      && (events[i].owner != projectId || events[i].document.hash != Some(hash))
  }

  /** The key is under another hash. */
  predicate HashDiffers(events: seq<Row<Event>>, key: string, hash: RequestHash) {
    exists i :: 0 <= i < |events| && events[i].document.key == Some(key) && events[i].document.hash != Some(hash)
  }

  lemma {:induction false} OneKeyOneEvent(events: seq<Row<Event>>, i: nat, j: nat)
    requires OneEventPerKey(events) && i < |events| && j < |events|
    requires events[i].document.key.Some? && events[i].document.key == events[j].document.key
    ensures i == j
  {
  }

  lemma {:induction false} PriorIsKeys(t: Tables, key: string)
    requires Sound(t)
    ensures Prior(t.events, key).None? <==> KeyFree(t.events, key)
    ensures forall i :: 0 <= i < |t.events| && t.events[i].document.key == Some(key) ==>
      Prior(t.events, key) == Some(t.events[i])
  {
    PriorFinds(t.events, key);
    if Prior(t.events, key).Some? {
      var j :| 0 <= j < |t.events| && t.events[j] == Prior(t.events, key).value;
      forall i | 0 <= i < |t.events| && t.events[i].document.key == Some(key)
        ensures t.events[i] == Prior(t.events, key).value
      {
        OneKeyOneEvent(t.events, i, j);
      }
    }
  }

  /** The first reason a keyed submission fails for, whatever it submits. */
  ghost predicate FailsFirst(t: Tables, writable: bool, projectId: string, key: string, hash: RequestHash, o: Outcome) {
    && (!writable ==> o == Failed(ReadOnly))
    && (writable && projectId !in t.records ==> o == Failed(NotFound))
    && (writable && projectId in t.records && KeyTaken(t.events, key, projectId, hash) ==> o == Failed(KeyConflict))
  }

  predicate Open(t: Tables, writable: bool, projectId: string, key: string) {
    writable && projectId in t.records && KeyFree(t.events, key)
  }

  /** The record one version on, and its event, are all a write leaves beside its own row. */
  function Bumped(t: Tables, projectId: string, standing: Standing, event: Event): Tables
    requires projectId in t.records
  {
    var record := t.records[projectId];
    var version := record.standing.version + 1;
    t.(records := t.records[projectId := record.(standing := standing.(version := version))],
       events := t.events + [Row(projectId, version, event)])
  }

  // --- registering and validating ---

  lemma {:induction false} RegisterIsExact(t: Tables, writable: bool, c: Call)
    requires Sound(t) && c.Register?
    ensures var o := Decide(t, writable, c).1;
      && (IsApplied(o) <==> writable && KeyFree(t.events, c.key) && c.projectId !in t.records)
      && (!writable ==> o == Failed(ReadOnly))
      && (writable && HashDiffers(t.events, c.key, Registers(c.projectId, c.about)) ==> o == Failed(KeyConflict))
      && (writable && KeyFree(t.events, c.key) && c.projectId in t.records ==> o == Failed(IdTaken))
    ensures IsApplied(Decide(t, writable, c).1) ==>
      var record := Record(c.about, Standing(Registered, Registering, 1, None, None, None, None));
      var event := Event(c.actor, Some(c.key), Some(Registers(c.projectId, c.about)), RegisterDetail);
      && Decide(t, writable, c).1.reply == ProjectReply(record)
      && Apply(t, writable, c) ==
           t.(records := t.records[c.projectId := record], events := t.events + [Row(c.projectId, 1, event)])
  {
    PriorIsKeys(t, c.key);
  }

  /** A validation is of a commit or of a diagnostic, and of a Project that is not archived and, where
      it is READY, only of a commit. */
  predicate Validates(t: Tables, writable: bool, c: Call)
    requires c.Validate?
  {
    && c.commit.Some? != c.diagnostic.Some? && Open(t, writable, c.projectId, c.key)
    && t.records[c.projectId].standing.status != Archived
    && (t.records[c.projectId].standing.status == Ready ==> c.commit.Some?)
  }

  /** Every validation of a Project is one request. */
  function OfProject(c: Call): RequestHash
    requires c.Validate?
  {
    RequestHash.Validates(c.projectId)
  }

  lemma {:induction false} ValidateIsApplied(t: Tables, writable: bool, c: Call)
    requires Sound(t) && c.Validate?
    ensures var o, shaped := Decide(t, writable, c).1, c.commit.Some? != c.diagnostic.Some?;
      && (IsApplied(o) <==> Validates(t, writable, c))
      && (!shaped ==> o == Failed(BadValidation))
      && (shaped && !writable ==> o == Failed(ReadOnly))
      && (shaped && writable && c.projectId !in t.records ==> o == Failed(NotFound))
      && (shaped && writable && c.projectId in t.records && HashDiffers(t.events, c.key, OfProject(c)) ==>
            o == Failed(KeyConflict))
      && (shaped && Open(t, writable, c.projectId, c.key) && !Validates(t, writable, c) ==> o == Failed(StateConflict))
  {
    PriorIsKeys(t, c.key);
  }

  /** What the validation's event says of the Project it found. */
  function Previous(s: Standing): Option<Option<string>> {
    if s.status == Ready then Some(s.baselineCommit) else None
  }

  /** A validated commit is adopted: READY at it, upstream and baseline, with no diagnostic. A failure is
      recorded with its diagnostic, and both commits stay. An empty commit is adopted too, as a failure
      that names neither. */
  lemma {:induction false} ValidateIsExact(t: Tables, writable: bool, c: Call)
    requires Sound(t) && c.Validate? && IsApplied(Decide(t, writable, c).1)
    ensures c.projectId in t.records && (c.commit.None? ==> c.diagnostic.Some?)
    ensures var s := t.records[c.projectId].standing;
      var after :=
        (match c.commit
         case Some(x) =>
           s.(status := if x == "" then FailedRegistration else Ready, baselineCommit := Some(x),
              upstreamCommit := Some(x), diagnostic := None)
         case None => s.(status := FailedRegistration, diagnostic := c.diagnostic));
      var told := if c.commit == Some("") then None else c.commit;
      var event := Event(c.actor, Some(c.key), Some(OfProject(c)),
                         ValidateDetail(s.status, told, c.diagnostic, Previous(s)));
      && Apply(t, writable, c) == Bumped(t, c.projectId, after, event)
      && Decide(t, writable, c).1.reply == ProjectReply(Apply(t, writable, c).records[c.projectId])
  {
    PriorIsKeys(t, c.key);
  }

  // --- documents ---

  /** A configuration is applied at the revision after the record's, and its document is stored there,
      answered, and named by the record and the event. */
  lemma {:induction false} ConfigureIsExact(t: Tables, writable: bool, c: Call)
    requires Sound(t) && c.Configure?
    ensures var o := Decide(t, writable, c).1;
      && FailsFirst(t, writable, c.projectId, c.key, Submits(c.digest), o)
      && (Open(t, writable, c.projectId, c.key) ==>
            if c.revision == t.records[c.projectId].standing.configurationRevision.Or(0) + 1
            then o == Done(DocumentReply(Some(c.document)), false) else o == Failed(StaleRevision))
      && (IsApplied(o) ==> Open(t, writable, c.projectId, c.key))
    ensures IsApplied(Decide(t, writable, c).1) ==>
      var standing := t.records[c.projectId].standing.(configurationRevision := Some(c.revision));
      var event := Event(c.actor, Some(c.key), Some(Submits(c.digest)), ConfigureDetail(c.revision, c.atCommit));
      var t' := Apply(t, writable, c);
      && t' == Bumped(t, c.projectId, standing, event)
                 .(configurations := t.configurations + [Row(c.projectId, c.revision, c.document)])
      && Find(t'.configurations, c.projectId, c.revision) == Some(c.document)
  {
    PriorIsKeys(t, c.key);
    SequentialIsCounted(t.configurations, c.projectId);
    Unfold(t.configurations, Row(c.projectId, c.revision, c.document));
  }

  lemma {:induction false} BaselineIsExact(t: Tables, writable: bool, c: Call)
    requires Sound(t) && c.CaptureBaseline?
    ensures var o := Decide(t, writable, c).1;
      && FailsFirst(t, writable, c.projectId, c.key, Submits(c.digest), o)
      && (Open(t, writable, c.projectId, c.key) <==> IsApplied(o))
      && (IsApplied(o) ==> o.reply == DocumentReply(Some(c.document)))
    ensures IsApplied(Decide(t, writable, c).1) ==>
      var number := |RowsOf(t.baselines, c.projectId)| + 1;
      var event := Event(c.actor, Some(c.key), Some(Submits(c.digest)), BaselineDetail(number, c.atCommit));
      var t' := Apply(t, writable, c);
      && t' == Bumped(t, c.projectId, t.records[c.projectId].standing, event)
                 .(baselines := t.baselines + [Row(c.projectId, number, c.document)])
      && Find(t'.baselines, c.projectId, number) == Some(c.document)
  {
    PriorIsKeys(t, c.key);
    SequentialIsCounted(t.baselines, c.projectId);
    Unfold(t.baselines, Row(c.projectId, |RowsOf(t.baselines, c.projectId)| + 1, c.document));
  }

  lemma {:induction false} SyncIsExact(t: Tables, writable: bool, c: Call)
    requires Sound(t) && c.Sync?
    ensures var o := Decide(t, writable, c).1;
      && FailsFirst(t, writable, c.projectId, c.key, Submits(c.digest), o)
      && (Open(t, writable, c.projectId, c.key) <==> IsApplied(o))
      && (IsApplied(o) ==> o.reply == DocumentReply(Some(c.document)))
    ensures IsApplied(Decide(t, writable, c).1) ==>
      var number := |RowsOf(t.syncs, c.projectId)| + 1;
      var event := Event(c.actor, Some(c.key), Some(Submits(c.digest)), SyncDetail(number, c.upstream));
      var t' := Apply(t, writable, c);
      && t' == Bumped(t, c.projectId, t.records[c.projectId].standing, event)
                 .(syncs := t.syncs + [Row(c.projectId, number, c.document)])
      && Find(t'.syncs, c.projectId, number) == Some(c.document)
  {
    PriorIsKeys(t, c.key);
    SequentialIsCounted(t.syncs, c.projectId);
    Unfold(t.syncs, Row(c.projectId, |RowsOf(t.syncs, c.projectId)| + 1, c.document));
  }

  // --- contributions, initializations and seeds ---

  /** A contribution is applied once: a later one of the same run is answered with the first. */
  lemma {:induction false} ContributeIsExact(t: Tables, writable: bool, c: Call)
    requires Sound(t) && c.Contribute?
    ensures var one, o := c.contribution, Decide(t, writable, c).1;
      var k := (one.projectId, one.cycleId, one.runId);
      && FailsFirst(t, writable, one.projectId, c.key, Submits(c.digest), o)
      && (IsApplied(o) <==> Open(t, writable, one.projectId, c.key) && k !in t.contributions)
      && (Open(t, writable, one.projectId, c.key) && k in t.contributions ==>
            o == Done(ContributionReply(t.contributions[k]), true))
    ensures IsApplied(Decide(t, writable, c).1) ==>
      var one := c.contribution;
      var event := Event(one.contributedBy, Some(c.key), Some(Submits(c.digest)),
                         ContributeDetail(one.cycleId, one.runId, one.commit));
      && Decide(t, writable, c).1.reply == ContributionReply(one)
      && Apply(t, writable, c) == Bumped(t, one.projectId, t.records[one.projectId].standing, event)
           .(contributions := t.contributions[(one.projectId, one.cycleId, one.runId) := one])
  {
    PriorIsKeys(t, c.key);
  }

  lemma {:induction false} ContributionStateIsExact(t: Tables, writable: bool, c: Call)
    requires c.SetContributionState?
    ensures var k, o := (c.projectId, c.cycleId, c.runId), Decide(t, writable, c).1;
      && (IsApplied(o) <==> writable && c.projectId in t.records && k in t.contributions)
      && (!IsApplied(o) ==> o == Failed(if writable then NotFound else ReadOnly))
    ensures IsApplied(Decide(t, writable, c).1) ==>
      var k := (c.projectId, c.cycleId, c.runId);
      var updated := t.contributions[k].(state := c.state, integratedCommit := c.integratedCommit);
      var event := Event(c.actor, None, None,
                         ContributionStateDetail(c.cycleId, c.runId, c.state, c.integratedCommit));
      && Decide(t, writable, c).1.reply == ContributionReply(updated)
      && Apply(t, writable, c) == Bumped(t, c.projectId, t.records[c.projectId].standing, event)
           .(contributions := t.contributions[k := updated])
  {
  }

  /** An initialization is applied once. */
  lemma {:induction false} InitializeIsExact(t: Tables, writable: bool, c: Call)
    requires Sound(t) && c.Initialize?
    ensures var one, o := c.initialization, Decide(t, writable, c).1;
      && FailsFirst(t, writable, one.projectId, c.key, Submits(c.digest), o)
      && (IsApplied(o) <==> Open(t, writable, one.projectId, c.key) && one.projectId !in t.initializations)
      && (Open(t, writable, one.projectId, c.key) && one.projectId in t.initializations ==>
            o == Done(InitializationReply(t.initializations[one.projectId]), true))
    ensures IsApplied(Decide(t, writable, c).1) ==>
      var one := c.initialization;
      var event := Event(one.initializedBy, Some(c.key), Some(Submits(c.digest)),
                         InitializeDetail(one.commit, one.manifestDigest));
      && Decide(t, writable, c).1.reply == InitializationReply(one)
      && Apply(t, writable, c) == Bumped(t, one.projectId, t.records[one.projectId].standing, event)
           .(initializations := t.initializations[one.projectId := one])
  {
    PriorIsKeys(t, c.key);
  }

  /** A seed enters a Project that was neither claimed nor on record, gate or no gate, and claims it. */
  lemma {:induction false} SeedIsExact(t: Tables, writable: bool, c: Call)
    requires c.Seed?
    ensures var record := Record(c.about, Standing(Seeded, Ready, 1, None, None, None, None));
      var event := Event("squadops", None, None, SeedDetail(c.source));
      Apply(t, writable, c) ==
        if c.projectId !in t.seedLog && c.projectId !in t.records then
          t.(records := t.records[c.projectId := record], events := t.events + [Row(c.projectId, 1, event)],
             seedLog := t.seedLog + {c.projectId})
        else t.(seedLog := t.seedLog + {c.projectId})
    ensures Decide(t, writable, c).1.Done?
    ensures Decide(t, writable, c).1.reply == SeedReply(c.projectId !in t.seedLog && c.projectId !in t.records)
  {
    assert c.projectId in t.seedLog ==> t.seedLog + {c.projectId} == t.seedLog;
  }

  /** Whatever is not applied leaves the tables as they were, but for a seed's claim. */
  lemma {:induction false} UnappliedWritesNothing(t: Tables, writable: bool, c: Call)
    requires !c.Seed? && !IsApplied(Decide(t, writable, c).1)
    ensures Apply(t, writable, c) == t
  {
  }
}
