/** A keyed Project write happens once: repeating it anywhere later in a run changes no table and
    answers from what was first written. */
module ProjectReplays {
  import opened Basics
  import opened Numbering
  import opened Projects
  import opened ProjectHistory

  predicate Keyed(c: Call) {
    !c.SetContributionState? && !c.Seed?
  }

  function ProjectOf(c: Call): string {
    match c
    case Contribute(contribution, _, _) => contribution.projectId
    case Initialize(initialization, _, _) => initialization.projectId
    case _ => c.projectId
  }

  function HashOf(c: Call): RequestHash
    requires Keyed(c)
  {
    if c.Register? then Registers(c.projectId, c.about)
    else if c.Validate? then Validates(c.projectId)
    else Submits(c.digest)
  }

  /** The event a call of this kind writes. */
  predicate Fits(c: Call, detail: Detail) {
    match c
    case Register(_, _, _, _) => detail.RegisterDetail?
    case Validate(_, _, _, _, _) => detail.ValidateDetail?
    case Configure(_, _, _, _, _, _, _) => detail.ConfigureDetail?
    case CaptureBaseline(_, _, _, _, _, _) => detail.BaselineDetail?
    case Contribute(one, _, _) => detail.ContributeDetail? && detail.cycleId == one.cycleId && detail.runId == one.runId
    case Sync(_, _, _, _, _, _) => detail.SyncDetail?
    case Initialize(_, _, _) => detail.InitializeDetail?
    case _ => false
  }

  /** The log holds the call's request: an event of its kind, under its key, Project and hash. */
  ghost predicate Recorded(t: Tables, c: Call) {
    Keyed(c) &&
    match Prior(t.events, c.key)
    case None => false
    case Some(row) => row.owner == ProjectOf(c) && row.document.hash == Some(HashOf(c)) && Fits(c, row.document.detail)
  }

  /** `again` asks for what `c` asked: the same operation, key, Project and request. What a repeated
      validation found, or a repeated submission carries beside its hash, may differ. */
  ghost predicate Repeats(c: Call, again: Call) {
    && Keyed(c) && Keyed(again)
    && again.key == c.key && ProjectOf(again) == ProjectOf(c) && HashOf(again) == HashOf(c)
    && (forall detail :: Fits(c, detail) <==> Fits(again, detail))
    && (again.Validate? ==> again.commit.None? != again.diagnostic.None?)
  }

  /** The calls whose answer is the document or row they first wrote, whatever came after. */
  predicate AnswersFirst(c: Call) {
    c.Configure? || c.CaptureBaseline? || c.Sync? || c.Initialize?
  }

  /** What a recorded request answers. */
  function AnswerTo(t: Tables, c: Call): Option<Reply>
    requires Recorded(t, c)
  {
    var p, detail := ProjectOf(c), Prior(t.events, c.key).value.document.detail;
    match c
    case Configure(_, _, _, _, _, _, _) => Some(DocumentReply(Find(t.configurations, p, detail.revision)))
    case CaptureBaseline(_, _, _, _, _, _) => Some(DocumentReply(Find(t.baselines, p, detail.capturedSeq)))
    case Sync(_, _, _, _, _, _) => Some(DocumentReply(Find(t.syncs, p, detail.syncedSeq)))
    case Contribute(one, _, _) =>
      if ContributionKey(one) in t.contributions
      then Some(ContributionReply(t.contributions[ContributionKey(one)]))
      else None
    case Initialize(_, _, _) => if p in t.initializations then Some(InitializationReply(t.initializations[p])) else None
    case _ => if p in t.records then Some(ProjectReply(t.records[p])) else None
  }

  lemma {:induction false} PriorIsLinked(t: Tables, key: string)
    requires Sound(t) && Prior(t.events, key).Some?
    ensures Linked(t, Prior(t.events, key).value)
    ensures Prior(t.events, key).value.owner in t.records
  {
    PriorFinds(t.events, key);
    var i :| 0 <= i < |t.events| && t.events[i] == Prior(t.events, key).value;
    assert Linked(t, t.events[i]);
    OwnerHasRows(t.events, i);
    assert VersionedAt(t.records, t.events, t.events[i].owner);
  }

  lemma {:induction false} OwnerHasRows(events: seq<Row<Event>>, i: nat)
    requires i < |events|
    ensures RowsOf(events, events[i].owner) != []
  {
    if i < |events| - 1 {
      assert events[..|events| - 1][i] == events[i];
      OwnerHasRows(events[..|events| - 1], i);
    }
  }

  /** A recorded request, asked again of a writable registry, writes nothing and is answered. */
  lemma {:induction false} RepeatWritesNothing(t: Tables, c: Call)
    requires Sound(t) && Recorded(t, c)
    requires c.Validate? ==> c.commit.None? != c.diagnostic.None?
    ensures AnswerTo(t, c).Some?
    ensures Decide(t, true, c) == (Nothing, Done(AnswerTo(t, c).value, true))
    ensures c.Configure? || c.CaptureBaseline? || c.Sync? ==> AnswerTo(t, c).value.document.Some?
  {
    PriorIsLinked(t, c.key);
  }

  lemma {:induction false} LogGrows(t: Tables, w: Write)
    requires w.Bump? ==> w.projectId in t.records
    ensures forall key :: Prior(t.events, key).Some? ==> Prior(Commit(t, w).events, key) == Prior(t.events, key)
  {
    if w.Enter? || w.Bump? {
      forall key { PriorStays(t.events, Commit(t, w).events[|t.events|], key); }
    }
  }

  lemma {:induction false} AnswerStands(t: Tables, t': Tables, c: Call)
    requires Sound(t) && Recorded(t, c) && Extends(t, t')
    requires Prior(t'.events, c.key) == Prior(t.events, c.key)
    ensures Recorded(t', c)
    ensures AnswersFirst(c) ==> AnswerTo(t', c) == AnswerTo(t, c)
  {
    PriorIsLinked(t, c.key);
  }

  /** A recorded request stays recorded, and its first answer stands. */
  lemma {:induction false} RecordedStays(t: Tables, writable: bool, d: Call, c: Call)
    requires Sound(t) && Recorded(t, c)
    ensures var t' := Apply(t, writable, d);
      && Recorded(t', c)
      && (AnswersFirst(c) ==> AnswerTo(t', c) == AnswerTo(t, c))
  {
    LogGrows(t, Decide(t, writable, d).0);
    SoundKept(t, writable, d);
    AnswerStands(t, Apply(t, writable, d), c);
  }

  /** The write of an applied request: its event holds the key, the hash and the call's kind, and
      what it answers is the row it adds or the record it leaves. */
  ghost predicate WritesRequest(t: Tables, w: Write, c: Call, reply: Reply) {
    && Keyed(c) && (w.Enter? || w.Bump?)
    && w.projectId == ProjectOf(c)
    && w.event.key == Some(c.key) && w.event.hash == Some(HashOf(c)) && Fits(c, w.event.detail)
    && Prior(t.events, c.key).None?
    && (if w.Enter? then reply == ProjectReply(w.record)
        else w.projectId in t.records && match w.addition
          case NoRow =>
            var record := t.records[w.projectId];
            reply == ProjectReply(record.(standing := w.standing.(version := record.standing.version + 1)))
          case ContributionRow(key, contribution) =>
            c.Contribute? && key == ContributionKey(c.contribution) && reply == ContributionReply(contribution)
          case InitializationRow(initialization) => reply == InitializationReply(initialization)
          case _ => reply == DocumentReply(Some(w.addition.document)))
  }

  lemma {:induction false} AppliedWritesRequest(t: Tables, writable: bool, c: Call)
    requires Keyed(c) && Decide(t, writable, c).1.Done? && !Decide(t, writable, c).1.replayed
    ensures writable && WritesRequest(t, Decide(t, writable, c).0, c, Decide(t, writable, c).1.reply)
  {
  }

  /** The log with a request's event is where the request is found. */
  lemma {:induction false} LoggedIsRecorded(t: Tables, t': Tables, c: Call, row: Row<Event>)
    requires Keyed(c) && Prior(t.events, c.key).None? && t'.events == t.events + [row]
    requires row.owner == ProjectOf(c) && row.document.key == Some(c.key)
    requires row.document.hash == Some(HashOf(c)) && Fits(c, row.document.detail)
    ensures Recorded(t', c) && Prior(t'.events, c.key) == Some(row)
  {
    PriorStays(t.events, row, c.key);
  }

  lemma {:induction false} EnteredIsRecorded(t: Tables, w: Write, c: Call, reply: Reply)
    requires Admissible(t, w) && WritesRequest(t, w, c, reply) && w.Enter?
    ensures var t' := Commit(t, w); Recorded(t', c) && AnswerTo(t', c) == Some(reply)
  {
    LoggedIsRecorded(t, Commit(t, w), c, Row(w.projectId, 1, w.event));
  }

  lemma {:induction false} BumpedIsRecorded(t: Tables, w: Write, c: Call, reply: Reply)
    requires Sound(t) && Admissible(t, w) && WritesRequest(t, w, c, reply) && w.Bump?
    ensures var t' := Commit(t, w); Recorded(t', c) && AnswerTo(t', c) == Some(reply)
  {
    var row := Row(w.projectId, t.records[w.projectId].standing.version + 1, w.event);
    assert Commit(t, w).events == t.events + [row];
    LoggedIsRecorded(t, Commit(t, w), c, row);
    match w.addition {
      case ConfigurationRow(number, document) => DocumentJoins(t.configurations, w.projectId, number, document);
      case BaselineRow(number, document) => DocumentJoins(t.baselines, w.projectId, number, document);
      case SyncRow(number, document) => DocumentJoins(t.syncs, w.projectId, number, document);
      case _ =>
    }
  }

  lemma {:induction false} WrittenIsRecorded(t: Tables, w: Write, c: Call, reply: Reply)
    requires Sound(t) && Admissible(t, w) && WritesRequest(t, w, c, reply)
    ensures var t' := Commit(t, w); Recorded(t', c) && AnswerTo(t', c) == Some(reply)
  {
    if w.Enter? { EnteredIsRecorded(t, w, c, reply); } else { BumpedIsRecorded(t, w, c, reply); }
  }

  /** An applied keyed write is recorded, under the answer it gave. */
  lemma {:induction false} AppliedIsRecorded(t: Tables, writable: bool, c: Call)
    requires Sound(t) && Keyed(c)
    requires Decide(t, writable, c).1.Done? && !Decide(t, writable, c).1.replayed
    ensures var t' := Apply(t, writable, c);
      writable && Sound(t') && Recorded(t', c) && AnswerTo(t', c) == Some(Decide(t, writable, c).1.reply)
  {
    AppliedWritesRequest(t, writable, c);
    Admits(t, writable, c);
    SoundKept(t, writable, c);
    WrittenIsRecorded(t, Decide(t, writable, c).0, c, Decide(t, writable, c).1.reply);
  }

  lemma {:induction false} RecordedThroughout(t: Tables, writable: bool, calls: seq<Call>, c: Call)
    requires Sound(t) && Recorded(t, c)
    ensures var t' := Run(t, writable, calls);
      && Sound(t') && Recorded(t', c)
      && (AnswersFirst(c) ==> AnswerTo(t', c) == AnswerTo(t, c))
    decreases calls
  {
    if calls == [] {
    } else {
      SoundKept(t, writable, calls[0]);
      RecordedStays(t, writable, calls[0], c);
      RecordedThroughout(Apply(t, writable, calls[0]), writable, calls[1..], c);
    }
  }

  lemma {:induction false} RunConcatenates(t: Tables, writable: bool, first: seq<Call>, rest: seq<Call>)
    ensures Run(t, writable, first + rest) == Run(Run(t, writable, first), writable, rest)
    decreases first
  {
    if first == [] {
      assert first + rest == rest;
    } else {
      assert (first + rest)[1..] == first[1..] + rest;
      RunConcatenates(Apply(t, writable, first[0]), writable, first[1..], rest);
    }
  }

  lemma {:induction false} RepeatIsRecorded(t: Tables, c: Call, again: Call)
    requires Recorded(t, c) && Repeats(c, again)
    ensures Recorded(t, again)
    ensures AnswersFirst(c) ==> AnswerTo(t, again) == AnswerTo(t, c)
  {
    assert Fits(again, Prior(t.events, c.key).value.document.detail);
  }

  lemma {:induction false} SkipNothing(t: Tables, writable: bool, again: Call, after: seq<Call>)
    requires Apply(t, writable, again) == t
    ensures Run(t, writable, [again] + after) == Run(t, writable, after)
  {
    assert ([again] + after)[1..] == after;
  }

  /** A repeat of a recorded request, inserted anywhere later in a run, changes no table and is
      answered as a replay; a configuration, baseline, sync or initialization answers with what it
      first wrote, whatever was revised between. */
  lemma {:induction false} RepeatsAreFree(t: Tables, c: Call, between: seq<Call>, again: Call, after: seq<Call>)
    requires Sound(t) && Recorded(t, c) && Repeats(c, again)
    ensures Run(t, true, between + [again] + after) == Run(t, true, between + after)
    ensures var answer := Decide(Run(t, true, between), true, again).1;
      && answer.Done? && answer.replayed
      && (AnswersFirst(c) ==> AnswerTo(t, c) == Some(answer.reply))
  {
    var t' := Run(t, true, between);
    RecordedThroughout(t, true, between, c);
    RepeatIsRecorded(t', c, again);
    RepeatWritesNothing(t', again);
    SkipNothing(t', true, again, after);
    RunConcatenates(t, true, between, [again] + after);
    RunConcatenates(t, true, between, after);
    assert between + [again] + after == between + ([again] + after);
  }
}
