/** A Project's contributions are what its events say of them. */
module ProjectContributions {
  import opened Basics
  import opened Numbering
  import opened Projects

  /** A contribution as its events tell it: its commit, who made it, and the last state recorded
      since, with the commit that integrated it. */
  datatype Story = Story(commit: string, contributedBy: string, latest: Option<(string, Option<string>)>)

  type Key = (string, string, string)

  function Advance(before: Option<Story>, row: Row<Event>, k: Key): Option<Story> {
    match row.document.detail
    case ContributeDetail(cycleId, runId, head) =>
      if (row.owner, cycleId, runId) == k then Some(Story(head, row.document.actor, None)) else before
    case ContributionStateDetail(cycleId, runId, state, integrated) =>
      if (row.owner, cycleId, runId) == k && before.Some?
      then Some(before.value.(latest := Some((state, integrated))))
      else before
    case _ => before
  }

  function Told(events: seq<Row<Event>>, k: Key): Option<Story> {
    if events == [] then None else Advance(Told(events[..|events| - 1], k), events[|events| - 1], k)
  }

  predicate Matches(story: Story, c: Contribution) {
    && c.commit == story.commit && c.contributedBy == story.contributedBy
    && (story.latest.Some? ==> c.state == story.latest.value.0 && c.integratedCommit == story.latest.value.1)
  }

  /** A contribution is on record exactly when an event contributed it, and as the events leave it. */
  ghost predicate Agrees(t: Tables, k: Key) {
    && (k in t.contributions <==> Told(t.events, k).Some?)
    && (k in t.contributions ==> Matches(Told(t.events, k).value, t.contributions[k]))
  }

  ghost predicate Folds(t: Tables) {
    forall k {:trigger Agrees(t, k)} :: Agrees(t, k)
  }

  /** A write's event and its contribution row say the same thing. */
  ghost predicate Tells(t: Tables, w: Write) {
    match w
    case Enter(_, _, event, _) => event.detail.SeedDetail? || event.detail.RegisterDetail?
    case Bump(p, _, event, addition) =>
      (match event.detail
       case ContributeDetail(cycleId, runId, head) =>
         && addition.ContributionRow? && addition.key == (p, cycleId, runId) && addition.key !in t.contributions
         && addition.contribution.commit == head && addition.contribution.contributedBy == event.actor
       case ContributionStateDetail(cycleId, runId, state, integrated) =>
         && addition.ContributionRow? && addition.key == (p, cycleId, runId) && addition.key in t.contributions
         && addition.contribution == t.contributions[addition.key].(state := state, integratedCommit := integrated)
       case _ => !addition.ContributionRow?)
    case _ => true
  }

  lemma {:induction false} DecisionsTell(t: Tables, writable: bool, c: Call)
    ensures Tells(t, Decide(t, writable, c).0)
  {
  }

  lemma {:induction false} ToldNext(events: seq<Row<Event>>, row: Row<Event>, k: Key)
    ensures Told(events + [row], k) == Advance(Told(events, k), row, k)
  {
    assert (events + [row])[..|events|] == events;
  }

  lemma {:induction false} EnterKeepsAgreement(t: Tables, w: Write, k: Key)
    requires Tells(t, w) && Agrees(t, k) && w.Enter?
    ensures Agrees(Commit(t, w), k)
  {
    ToldNext(t.events, Row(w.projectId, 1, w.event), k);
  }

  /** What a bump leaves of the log and of the contributions. */
  lemma {:induction false} BumpWrites(t: Tables, w: Write)
    requires w.Bump? && w.projectId in t.records
    ensures Commit(t, w).events == t.events + [Row(w.projectId, t.records[w.projectId].standing.version + 1, w.event)]
    ensures Commit(t, w).contributions ==
      if w.addition.ContributionRow?
      then t.contributions[w.addition.key := w.addition.contribution]
      else t.contributions
  {
  }

  lemma {:induction false} BumpKeepsAgreement(t: Tables, w: Write, k: Key)
    requires Tells(t, w) && Agrees(t, k) && w.Bump? && w.projectId in t.records
    ensures Agrees(Commit(t, w), k)
  {
    BumpWrites(t, w);
    ToldNext(t.events, Row(w.projectId, t.records[w.projectId].standing.version + 1, w.event), k);
  }

  lemma {:induction false} WriteKeepsAgreement(t: Tables, w: Write, k: Key)
    requires Tells(t, w) && Agrees(t, k) && (w.Bump? ==> w.projectId in t.records)
    ensures Agrees(Commit(t, w), k)
  {
    match w
    case Enter(_, _, _, _) => EnterKeepsAgreement(t, w, k);
    case Bump(_, _, _, _) => BumpKeepsAgreement(t, w, k);
    case _ =>
  }

  /** Every call keeps every contribution what its events say: made once, by whom and at which commit,
      and in the last state recorded for it. */
  lemma {:induction false} CallKeepsContributions(t: Tables, writable: bool, c: Call)
    requires Folds(t)
    ensures Folds(Apply(t, writable, c))
  {
    DecisionsTell(t, writable, c);
    forall k
      ensures Agrees(Apply(t, writable, c), k)
    {
      assert Agrees(t, k);
      WriteKeepsAgreement(t, Decide(t, writable, c).0, k);
    }
  }

  lemma {:induction false} RunKeepsContributions(t: Tables, writable: bool, calls: seq<Call>)
    requires Folds(t)
    ensures Folds(Run(t, writable, calls))
    decreases calls
  {
    if calls == [] {
    } else {
      CallKeepsContributions(t, writable, calls[0]);
      RunKeepsContributions(Apply(t, writable, calls[0]), writable, calls[1..]);
    }
  }

  lemma {:induction false} EmptyFolds()
    ensures Folds(EMPTY)
  {
    forall k
      ensures Agrees(EMPTY, k)
    {
    }
  }

  /** The same of every contribution of a registry that began empty. */
  lemma {:induction false} EveryContributionIsTold(writable: bool, calls: seq<Call>, k: Key)
    ensures Agrees(Run(EMPTY, writable, calls), k)
  {
    EmptyFolds();
    RunKeepsContributions(EMPTY, writable, calls);
  }
}
