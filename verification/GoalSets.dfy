/** Goal-set revisions and assessments: each write is one step under its key's lock and its Project's
    or goal set's, numbered within the Project, and replayed under its key. */
module GoalSets {
  import opened Basics
  import opened Numbering

  datatype Document = Document(body: string, key: string, hash: string)

  datatype Reply =
    | Recorded(row: Row<Document>, replayed: bool)
    | ReadOnly | KeyConflict | ProjectNotFound | Stale

  function UnderKey(rows: seq<Row<Document>>, key: string): Option<Row<Document>> {
    if rows == [] then None
    else
      var earlier, last := UnderKey(rows[..|rows| - 1], key), rows[|rows| - 1];
      if earlier.None? && last.document.key == key then Some(last) else earlier
  }

  function Replay(prior: Row<Document>, project: string, document: Document): Reply {
    if prior.document.hash != document.hash || prior.owner != project then KeyConflict else Recorded(prior, true)
  }

  /** `record_revision`: the caller names the revision it follows. */
  function Revise(rows: seq<Row<Document>>, projects: set<string>, writable: bool, project: string, revision: int,
                  document: Document): Reply {
    if !writable then ReadOnly
    else
      var prior := UnderKey(rows, document.key);
      if prior.Some? then Replay(prior.value, project, document)
      else if project !in projects then ProjectNotFound
      else if revision != Latest(rows, project) + 1 then Stale
      else Recorded(Row(project, revision, document), false)
  }

  /** `record_assessment`: the next number is the registry's to give. */
  function Assess(rows: seq<Row<Document>>, writable: bool, project: string, document: Document): Reply {
    if !writable then ReadOnly
    else
      var prior := UnderKey(rows, document.key);
      if prior.Some? then Replay(prior.value, project, document)
      else Recorded(Row(project, Latest(rows, project) + 1, document), false)
  }

  function Added(rows: seq<Row<Document>>, reply: Reply): seq<Row<Document>> {
    if reply.Recorded? && !reply.replayed then rows + [reply.row] else rows
  }

  class PostgresGoalSetRegistry {
    var revisions: seq<Row<Document>>
    var assessments: seq<Row<Document>>
    var projects: set<string>
    const writable: bool

    ghost predicate Valid()
      reads this
    {
      Exact(revisions) && Exact(assessments)
    }

    constructor (writable: bool)
      ensures Valid() && revisions == [] && assessments == [] && projects == {} && this.writable == writable
    {
      this.writable := writable;
      revisions, assessments, projects := [], [], {};
    }

    method RecordRevision(project: string, revision: int, document: Document) returns (reply: Reply)
      requires Valid()
      modifies this`revisions
      ensures Valid()
      ensures reply == Revise(old(revisions), projects, writable, project, revision, document)
        && revisions == Added(old(revisions), reply)
    {
      RevisionKeepsExact(revisions, projects, writable, project, revision, document);
      if !writable {
        return ReadOnly;
      }
      var prior := UnderKey(revisions, document.key);
      if prior.Some? {
        if prior.value.document.hash != document.hash || prior.value.owner != project {
          return KeyConflict;
        }
        return Recorded(prior.value, true);
      }
      if project !in projects {
        return ProjectNotFound;
      }
      var latest := Latest(revisions, project);
      if revision != latest + 1 {
        return Stale;
      }
      revisions := revisions + [Row(project, revision, document)];
      return Recorded(Row(project, revision, document), false);
    }

    method RecordAssessment(project: string, document: Document) returns (reply: Reply)
      requires Valid()
      modifies this`assessments
      ensures Valid()
      ensures reply == Assess(old(assessments), writable, project, document)
        && assessments == Added(old(assessments), reply)
    {
      AssessmentKeepsExact(assessments, writable, project, document);
      if !writable {
        return ReadOnly;
      }
      var prior := UnderKey(assessments, document.key);
      if prior.Some? {
        if prior.value.document.hash != document.hash || prior.value.owner != project {
          return KeyConflict;
        }
        return Recorded(prior.value, true);
      }
      var row := Row(project, 1 + Latest(assessments, project), document);
      assessments := assessments + [row];
      return Recorded(row, false);
    }
  }

  /** A Project's numbers are exactly 1..n, and a key names one row. */
  ghost predicate Exact(rows: seq<Row<Document>>) {
    Sequential(rows) && forall i, j :: 0 <= i < j < |rows| ==> rows[i].document.key != rows[j].document.key
  }

  lemma {:induction false} KeyNames(rows: seq<Row<Document>>, key: string)
    ensures var found := UnderKey(rows, key);
      if found.Some? then found.value in rows && found.value.document.key == key
      else forall i :: 0 <= i < |rows| ==> rows[i].document.key != key
  {
    if rows == [] {
    } else {
      KeyNames(rows[..|rows| - 1], key);
    }
  }

  lemma {:induction false} RowKeepsExact(rows: seq<Row<Document>>, row: Row<Document>)
    requires Exact(rows) && UnderKey(rows, row.document.key).None? && row.number == Latest(rows, row.owner) + 1
    ensures Exact(rows + [row])
  {
    KeyNames(rows, row.document.key);
    NextKeepsSequential(rows, row);
  }

  lemma {:induction false} RevisionKeepsExact(rows: seq<Row<Document>>, projects: set<string>, writable: bool,
                                              project: string, revision: int, document: Document)
    requires Exact(rows)
    ensures Exact(Added(rows, Revise(rows, projects, writable, project, revision, document)))
  {
    var reply := Revise(rows, projects, writable, project, revision, document);
    if reply.Recorded? && !reply.replayed { RowKeepsExact(rows, reply.row); }
  }

  lemma {:induction false} AssessmentKeepsExact(rows: seq<Row<Document>>, writable: bool, project: string,
                                                document: Document)
    requires Exact(rows)
    ensures Exact(Added(rows, Assess(rows, writable, project, document)))
  {
    var reply := Assess(rows, writable, project, document);
    if reply.Recorded? && !reply.replayed { RowKeepsExact(rows, reply.row); }
  }

  // --- writers racing on a Project ---

  /** The revision a writer read: none is number 0. */
  datatype Reading = Reading(project: string, number: int, body: string)

  /** An accepted revision, as the edit it is and the revision it was computed from. */
  datatype Accepted = Accepted(edit: string -> string, base: int)

  /** The revisions, what each writer last read, and what was accepted of each Project. */
  datatype World = World(rows: seq<Row<Document>>, readings: map<nat, Reading>, accepted: map<string, seq<Accepted>>)

  datatype Event =
    | Read(writer: nat, project: string)
    | Submit(writer: nat, edit: string -> string, key: string, hash: string)

  function AcceptedOf(w: World, project: string): seq<Accepted> {
    if project in w.accepted then w.accepted[project] else []
  }

  function BodyAt(rows: seq<Row<Document>>, project: string, number: int): string {
    var found := Find(rows, project, number);
    if found.Some? then found.value.body else ""
  }

  /** A writer's submission: its edit of the revision it read, as the next. */
  function Submission(r: Reading, edit: string -> string, key: string, hash: string): (int, Document) {
    (r.number + 1, Document(edit(r.body), key, hash))
  }

  function After(w: World, projects: set<string>, e: Event): World {
    match e
    case Read(writer, project) =>
      var latest := Latest(w.rows, project);
      w.(readings := w.readings[writer := Reading(project, latest, BodyAt(w.rows, project, latest))])
    case Submit(writer, edit, key, hash) =>
      if writer !in w.readings then w
      else
        var r := w.readings[writer];
        var (revision, document) := Submission(r, edit, key, hash);
        var reply := Revise(w.rows, projects, true, r.project, revision, document);
        if reply.Recorded? && !reply.replayed
        then World(w.rows + [reply.row], w.readings,
                   w.accepted[r.project := AcceptedOf(w, r.project) + [Accepted(edit, r.number)]])
        else w
  }

  function RunAll(w: World, projects: set<string>, events: seq<Event>): World
    decreases events
  {
    if events == [] then w else RunAll(After(w, projects, events[0]), projects, events[1..])
  }

  /** The edits applied in turn, each to what the one before it left. */
  function Chain(edits: seq<Accepted>): string {
    if edits == [] then "" else edits[|edits| - 1].edit(Chain(edits[..|edits| - 1]))
  }

  /** A Project's revisions are the chain of its accepted edits, each computed from the one before. */
  ghost predicate ChainedAt(w: World, project: string) {
    var mine, edits := RowsOf(w.rows, project), AcceptedOf(w, project);
    && |mine| == |edits|
    && (forall i :: 0 <= i < |mine| ==> mine[i].document.body == Chain(edits[..i + 1]))
    && (forall i :: 0 <= i < |edits| ==> edits[i].base == i)
  }

  /** What a writer holds is a revision as it stands. */
  ghost predicate ReadAs(rows: seq<Row<Document>>, r: Reading) {
    0 <= r.number <= |RowsOf(rows, r.project)| && r.body == BodyAt(rows, r.project, r.number)
  }

  ghost predicate Chained(w: World) {
    && Exact(w.rows)
    && (forall p {:trigger ChainedAt(w, p)} :: ChainedAt(w, p))
    && (forall writer :: writer in w.readings ==> ReadAs(w.rows, w.readings[writer]))
  }

  lemma {:induction false} BodyIsChain(w: World, project: string)
    requires Sequential(w.rows) && ChainedAt(w, project)
    ensures BodyAt(w.rows, project, |AcceptedOf(w, project)|) == Chain(AcceptedOf(w, project))
  {
    SequentialIsCounted(w.rows, project);
    var edits := AcceptedOf(w, project);
    if edits != [] { assert edits[..|edits|] == edits; }
  }

  lemma {:induction false} ReadStands(rows: seq<Row<Document>>, row: Row<Document>, r: Reading)
    requires Sequential(rows) && ReadAs(rows, r) && row.number == Latest(rows, row.owner) + 1
    ensures ReadAs(rows + [row], r)
  {
    Unfold(rows, row);
    SequentialIsCounted(rows, r.project);
  }

  lemma {:induction false} OthersStayChained(w: World, w': World, row: Row<Document>, project: string)
    requires ChainedAt(w, project) && w'.rows == w.rows + [row] && row.owner != project
      && AcceptedOf(w', project) == AcceptedOf(w, project)
    ensures ChainedAt(w', project)
  {
    Unfold(w.rows, row);
  }

  lemma {:induction false} ChainNext(edits: seq<Accepted>, next: Accepted)
    ensures Chain(edits + [next]) == next.edit(Chain(edits))
    ensures forall i :: 0 <= i <= |edits| ==> (edits + [next])[..i] == edits[..i]
  {
    assert (edits + [next])[..|edits|] == edits;
  }

  /** Bodies that are a chain of edits stay one, with the next edit's. */
  lemma {:induction false} BodiesJoin(mine: seq<Row<Document>>, edits: seq<Accepted>, row: Row<Document>,
                                      next: Accepted)
    requires |mine| == |edits| && row.document.body == next.edit(Chain(edits))
    requires forall i :: 0 <= i < |mine| ==> mine[i].document.body == Chain(edits[..i + 1])
    ensures forall i :: 0 <= i < |mine + [row]| ==> (mine + [row])[i].document.body == Chain((edits + [next])[..i + 1])
  {
    ChainNext(edits, next);
    forall i | 0 <= i <= |mine|
      ensures (mine + [row])[i].document.body == Chain((edits + [next])[..i + 1])
    {
      if i < |mine| {
        assert (edits + [next])[..i + 1] == edits[..i + 1];
      } else {
        assert (edits + [next])[..i + 1] == edits + [next];
      }
    }
  }

  lemma {:induction false} NextStaysChained(w: World, w': World, row: Row<Document>, next: Accepted)
    requires ChainedAt(w, row.owner) && w'.rows == w.rows + [row]
      && AcceptedOf(w', row.owner) == AcceptedOf(w, row.owner) + [next]
    requires next.base == |AcceptedOf(w, row.owner)| && row.document.body == next.edit(Chain(AcceptedOf(w, row.owner)))
    ensures ChainedAt(w', row.owner)
  {
    Unfold(w.rows, row);
    BodiesJoin(RowsOf(w.rows, row.owner), AcceptedOf(w, row.owner), row, next);
  }

  /** A submission is accepted exactly when its key is new, its Project known, and the revision it was
      computed from is still the latest. */
  lemma {:induction false} AcceptedExactlyWhenLatest(w: World, projects: set<string>, e: Event)
    requires Chained(w) && e.Submit? && e.writer in w.readings
    ensures var r := w.readings[e.writer];
      After(w, projects, e).rows != w.rows <==>
        UnderKey(w.rows, e.key).None? && r.project in projects && r.number == |AcceptedOf(w, r.project)|
  {
    var r := w.readings[e.writer];
    assert ChainedAt(w, r.project);
    SequentialIsCounted(w.rows, r.project);
  }

  lemma {:induction false} SubmitKeepsChain(w: World, projects: set<string>, e: Event)
    requires Chained(w) && e.Submit? && After(w, projects, e) != w
    ensures Chained(After(w, projects, e))
  {
    var w', r := After(w, projects, e), w.readings[e.writer];
    var (revision, document) := Submission(r, e.edit, e.key, e.hash);
    var row := Row(r.project, revision, document);
    assert w'.rows == w.rows + [row];
    assert ChainedAt(w, r.project);
    SequentialIsCounted(w.rows, r.project);
    BodyIsChain(w, r.project);
    RowKeepsExact(w.rows, row);
    forall p
      ensures ChainedAt(w', p)
    {
      assert ChainedAt(w, p);
      if p == r.project {
        NextStaysChained(w, w', row, Accepted(e.edit, r.number));
      } else {
        OthersStayChained(w, w', row, p);
      }
    }
    forall writer | writer in w'.readings
      ensures ReadAs(w'.rows, w'.readings[writer])
    {
      ReadStands(w.rows, row, w.readings[writer]);
    }
  }

  lemma {:induction false} EventKeepsChain(w: World, projects: set<string>, e: Event)
    requires Chained(w)
    ensures Chained(After(w, projects, e))
  {
    if e.Read? {
      SequentialIsCounted(w.rows, e.project);
      forall p
        ensures ChainedAt(After(w, projects, e), p)
      {
        assert ChainedAt(w, p);
      }
    } else if After(w, projects, e) != w {
      SubmitKeepsChain(w, projects, e);
    }
  }

  /** Over any interleaving of writers that read a Project's latest revision and submit an edit of what
      they read as the next: its revisions are the chain of the accepted edits, none lost, and the i-th
      was computed from revision i, so of the writers that read one revision at most one is accepted. */
  lemma {:induction false} NoRevisionIsLost(w: World, projects: set<string>, events: seq<Event>)
    requires Chained(w)
    ensures Chained(RunAll(w, projects, events))
    decreases events
  {
    if events == [] {
    } else {
      EventKeepsChain(w, projects, events[0]);
      NoRevisionIsLost(After(w, projects, events[0]), projects, events[1..]);
    }
  }

  lemma {:induction false} StartsChained()
    ensures Chained(World([], map[], map[]))
  {
    forall p
      ensures ChainedAt(World([], map[], map[]), p)
    {
    }
  }

  /** The same of every Project's revisions, from an empty table. */
  lemma {:induction false} EveryRevisionIsItsChain(projects: set<string>, events: seq<Event>, project: string)
    ensures var w := RunAll(World([], map[], map[]), projects, events); Exact(w.rows) && ChainedAt(w, project)
  {
    StartsChained();
    NoRevisionIsLost(World([], map[], map[]), projects, events);
  }

  // --- retries ---

  /** One write of a revision: the Project, the number it claims, and the document. */
  datatype Write = Write(project: string, revision: int, document: Document)

  function AfterAll(rows: seq<Row<Document>>, projects: set<string>, writes: seq<Write>): seq<Row<Document>>
    decreases writes
  {
    if writes == [] then rows
    else
      var reply := Revise(rows, projects, true, writes[0].project, writes[0].revision, writes[0].document);
      AfterAll(Added(rows, reply), projects, writes[1..])
  }

  lemma {:induction false} RowsStay(rows: seq<Row<Document>>, projects: set<string>, writes: seq<Write>, key: string)
    requires Exact(rows) && UnderKey(rows, key).Some?
    ensures Exact(AfterAll(rows, projects, writes))
    ensures UnderKey(AfterAll(rows, projects, writes), key) == UnderKey(rows, key)
    decreases writes
  {
    if writes == [] {
    } else {
      var w := writes[0];
      var reply := Revise(rows, projects, true, w.project, w.revision, w.document);
      RevisionKeepsExact(rows, projects, true, w.project, w.revision, w.document);
      var rows' := Added(rows, reply);
      if rows' != rows { assert rows'[..|rows|] == rows; }
      RowsStay(rows', projects, writes[1..], key);
    }
  }

  /** A revision accepted once is answered with its own row for ever after, and writes nothing, however
      many revisions follow it. */
  lemma {:induction false} RetryReplays(rows: seq<Row<Document>>, projects: set<string>, w: Write, later: seq<Write>)
    requires Exact(rows) && UnderKey(rows, w.document.key).None?
    requires Revise(rows, projects, true, w.project, w.revision, w.document).Recorded?
    ensures var after := AfterAll(rows + [Row(w.project, w.revision, w.document)], projects, later);
      var again := Revise(after, projects, true, w.project, w.revision, w.document);
      again == Recorded(Row(w.project, w.revision, w.document), true) && Added(after, again) == after
  {
    var row := Row(w.project, w.revision, w.document);
    RevisionKeepsExact(rows, projects, true, w.project, w.revision, w.document);
    assert (rows + [row])[..|rows|] == rows;
    RowsStay(rows + [row], projects, later, w.document.key);
  }

  /** One assessment: the Project and the document. The registry gives the number. */
  datatype Assessment = Assessment(project: string, document: Document)

  function AssessAll(rows: seq<Row<Document>>, writes: seq<Assessment>): seq<Row<Document>>
    decreases writes
  {
    if writes == [] then rows
    else AssessAll(Added(rows, Assess(rows, true, writes[0].project, writes[0].document)), writes[1..])
  }

  lemma {:induction false} AssessmentsStay(rows: seq<Row<Document>>, writes: seq<Assessment>, key: string)
    requires Exact(rows) && UnderKey(rows, key).Some?
    ensures Exact(AssessAll(rows, writes)) && UnderKey(AssessAll(rows, writes), key) == UnderKey(rows, key)
    decreases writes
  {
    if writes == [] {
    } else {
      var a := writes[0];
      AssessmentKeepsExact(rows, true, a.project, a.document);
      var rows' := Added(rows, Assess(rows, true, a.project, a.document));
      if rows' != rows { assert rows'[..|rows|] == rows; }
      AssessmentsStay(rows', writes[1..], key);
    }
  }

  /** An assessment under a new key is given the next number, and a retry of it is answered with that
      row for ever after and writes nothing, however many assessments follow it. */
  lemma {:induction false} AssessmentRetryReplays(rows: seq<Row<Document>>, a: Assessment, later: seq<Assessment>)
    requires Exact(rows) && KeyFree(rows, a.document.key)
    ensures var row := Row(a.project, |RowsOf(rows, a.project)| + 1, a.document);
      var after := AssessAll(Added(rows, Assess(rows, true, a.project, a.document)), later);
      var again := Assess(after, true, a.project, a.document);
      row in after && again == Recorded(row, true) && Added(after, again) == after
  {
    var row := Row(a.project, |RowsOf(rows, a.project)| + 1, a.document);
    AssessIsExact(rows, true, a.project, a.document);
    AssessmentKeepsExact(rows, true, a.project, a.document);
    KeyNames(rows, a.document.key);
    assert (rows + [row])[..|rows|] == rows;
    AssessmentsStay(rows + [row], later, a.document.key);
    KeyNames(AssessAll(rows + [row], later), a.document.key);
  }

  // --- what each call comes to ---

  ghost predicate KeyFree(rows: seq<Row<Document>>, key: string) {
    forall i :: 0 <= i < |rows| ==> rows[i].document.key != key
  }

  /** A held key's one row answers the request it was recorded for, and refuses every other. */
  ghost predicate Answers(held: Row<Document>, project: string, hash: string, reply: Reply) {
    reply == if held.owner == project && held.document.hash == hash then Recorded(held, true) else KeyConflict
  }

  lemma {:induction false} HeldKeyNames(rows: seq<Row<Document>>, key: string, i: int)
    requires Exact(rows) && 0 <= i < |rows| && rows[i].document.key == key
    ensures UnderKey(rows, key) == Some(rows[i])
  {
    KeyNames(rows, key);
    var found := UnderKey(rows, key).value;
    var j :| 0 <= j < |rows| && rows[j] == found;
    assert j < i ==> rows[j].document.key != rows[i].document.key;
    assert i < j ==> rows[i].document.key != rows[j].document.key;
  }

  /** An assessment is the Project's next row under a new key, and under a held one the held row's
      answer, with nothing written. */
  lemma {:induction false} AssessIsExact(rows: seq<Row<Document>>, writable: bool, project: string, document: Document)
    requires Exact(rows)
    ensures var reply := Assess(rows, writable, project, document);
      var row, unseen := Row(project, |RowsOf(rows, project)| + 1, document), KeyFree(rows, document.key);
      && (!writable ==> reply == ReadOnly)
      && (writable && unseen ==> reply == Recorded(row, false))
      && Added(rows, reply) == rows + (if writable && unseen then [row] else [])
      && forall i :: writable && 0 <= i < |rows| && rows[i].document.key == document.key ==>
           Answers(rows[i], project, document.hash, reply)
  {
    KeyNames(rows, document.key);
    SequentialIsCounted(rows, project);
    forall i | 0 <= i < |rows| && rows[i].document.key == document.key
      ensures UnderKey(rows, document.key) == Some(rows[i])
    {
      HeldKeyNames(rows, document.key, i);
    }
  }

  /** A revision under a new key is recorded exactly when its Project is known and it is the next;
      under a held key it is the held row's answer, with nothing written. */
  lemma {:induction false} ReviseIsExact(rows: seq<Row<Document>>, projects: set<string>, writable: bool,
                                         project: string, revision: int, document: Document)
    requires Exact(rows)
    ensures var reply := Revise(rows, projects, writable, project, revision, document);
      var row, isNext := Row(project, revision, document), revision == |RowsOf(rows, project)| + 1;
      var unseen := KeyFree(rows, document.key);
      && (!writable ==> reply == ReadOnly)
      && (writable && unseen ==>
            reply == if project !in projects then ProjectNotFound else if isNext then Recorded(row, false) else Stale)
      && Added(rows, reply) == rows + (if writable && unseen && project in projects && isNext then [row] else [])
      && forall i :: writable && 0 <= i < |rows| && rows[i].document.key == document.key ==>
           Answers(rows[i], project, document.hash, reply)
  {
    KeyNames(rows, document.key);
    SequentialIsCounted(rows, project);
    forall i | 0 <= i < |rows| && rows[i].document.key == document.key
      ensures UnderKey(rows, document.key) == Some(rows[i])
    {
      HeldKeyNames(rows, document.key, i);
    }
  }
}
