/** The locks the Postgres registries take, transaction by transaction, and hold to the transaction's
    end. Control operations lock a campaign's row first, then the lease's or an intent's; goal-set
    writes take the advisory locks of a key and of a Project, and then, by their foreign keys, a share
    of the rows they name. */
module LockOrder {
  import opened Basics
  import opened Listings

  /** Advisory locks are named by a class and a hash, so a collision only shares a lock. One class
      serves the keys of both goal-set writes. */
  datatype Resource =
    | CampaignRow(campaignId: string)
    | LeaseRow
    | IntentRow(launchId: string)
    | KeyLock(hash: int)
    | ProjectLock(hash: int)
    | AssessmentsLock(hash: int)
    | ProjectRow(projectId: string)

  /** `FOR UPDATE` and advisory locks are exclusive; a foreign key's `FOR KEY SHARE` is shared. */
  datatype Lock = Lock(resource: Resource, shared: bool)

  predicate Clash(a: Lock, b: Lock) {
    a.resource == b.resource && !(a.shared && b.shared)
  }

  datatype Op =
    | CreateCampaign(campaignId: string)
    | Transition(campaignId: string, supersedes: Option<string>)
    | Refuse(campaignId: string)
    | ChangeLease(campaignId: string)
    | MarkLaunched(campaignId: string, launchId: string)
    /** A write of the Project registry. */
    | WriteProject(projectId: string)
    | Revise(key: int, project: int, projectId: string)
    | Assess(key: int, project: int, projectId: string, assessed: string)
    /** The Project's live campaigns `ORDER BY campaign_id`, and inside them a revision. */
    | Hold(campaignIds: seq<string>, key: int, project: int, projectId: string)

  function Takes(r: Resource): Lock {
    Lock(r, false)
  }

  function Shares(r: Resource): Lock {
    Lock(r, true)
  }

  function CampaignRows(ids: seq<string>): (r: seq<Lock>)
    ensures |r| == |ids| && forall i :: 0 <= i < |r| ==> r[i] == Takes(CampaignRow(ids[i]))
  {
    seq(|ids|, i requires 0 <= i < |ids| => Takes(CampaignRow(ids[i])))
  }

  function Revision(key: int, project: int, projectId: string): seq<Lock> {
    [Takes(KeyLock(key)), Takes(ProjectLock(project)), Shares(ProjectRow(projectId))]
  }

  /** What an operation locks, in the order it locks it. An assessment's insert checks its foreign keys
      once both advisory locks are held: its Project's row and its campaign's. */
  function Program(op: Op): seq<Lock> {
    match op
    case CreateCampaign(id) => [Takes(CampaignRow(id))]
    case Transition(id, supersedes) =>
      [Takes(CampaignRow(id))] + if supersedes.Some? then [Takes(IntentRow(supersedes.value))] else []
    case Refuse(id) => [Takes(CampaignRow(id))]
    case ChangeLease(id) => [Takes(CampaignRow(id)), Takes(LeaseRow)]
    case MarkLaunched(id, launchId) => [Takes(CampaignRow(id)), Takes(IntentRow(launchId))]
    case WriteProject(projectId) => [Takes(ProjectRow(projectId))]
    case Revise(key, project, projectId) => Revision(key, project, projectId)
    case Assess(key, project, projectId, assessed) =>
      [Takes(KeyLock(key)), Takes(AssessmentsLock(project)), Shares(ProjectRow(projectId)),
       Shares(CampaignRow(assessed))]
    case Hold(ids, key, project, projectId) => CampaignRows(ids) + Revision(key, project, projectId)
  }

  predicate Proper(op: Op) {
    op.Hold? ==> forall i, j :: 0 <= i < j < |op.campaignIds| ==>
      LexLeq(op.campaignIds[i], op.campaignIds[j]) && op.campaignIds[i] != op.campaignIds[j]
  }

  /** The campaign an operation's commit may change. */
  function Writes(op: Op): Option<string> {
    if op.WriteProject? || op.Revise? || op.Assess? || op.Hold? then None else Some(op.campaignId)
  }

  datatype Session = Session(op: Op, next: nat, held: set<Lock>)
  {
    predicate Waiting() {
      next < |Program(op)|
    }

    function Wants(): Lock
      requires Waiting()
    {
      Program(op)[next]
    }
  }

  /** The campaigns' versions, and every open session. */
  datatype World = World(versions: map<string, int>, sessions: map<nat, Session>)

  datatype Event =
    | Start(session: nat, op: Op)
    | Acquire(session: nat)
    | EndNested(session: nat)
    | Commit(session: nat, version: int)
    | Abort(session: nat)

  /** Some lock the session holds is in the way. */
  predicate Blocks(held: set<Lock>, wanted: Lock) {
    exists l :: l in held && Clash(wanted, l)
  }

  predicate Free(w: World, s: nat, wanted: Lock) {
    forall t :: t in w.sessions && t != s ==> !Blocks(w.sessions[t].held, wanted)
  }

  predicate Enabled(w: World, e: Event) {
    match e
    case Start(s, op) => s !in w.sessions && Proper(op)
    case Acquire(s) => s in w.sessions && w.sessions[s].Waiting() && Free(w, s, w.sessions[s].Wants())
    case EndNested(s) => s in w.sessions && w.sessions[s].op.Hold? && !w.sessions[s].Waiting()
    case Commit(s, _) => s in w.sessions && !w.sessions[s].Waiting()
    case Abort(s) => s in w.sessions
  }

  /** A commit and an abort end the session and free its locks; the end of a holder's revision frees
      its locks and keeps the campaigns'. */
  function After(w: World, e: Event): World
    requires Enabled(w, e)
  {
    match e
    case Start(s, op) => w.(sessions := w.sessions[s := Session(op, 0, {})])
    case Acquire(s) =>
      var mine := w.sessions[s];
      w.(sessions := w.sessions[s := mine.(next := mine.next + 1, held := mine.held + {mine.Wants()})])
    case EndNested(s) =>
      var mine := w.sessions[s];
      w.(sessions := w.sessions[s := mine.(held := set l | l in mine.held && l.resource.CampaignRow?)])
    case Commit(s, version) =>
      var written := Writes(w.sessions[s].op);
      World(if written.Some? then w.versions[written.value := version] else w.versions, w.sessions - {s})
    case Abort(s) => w.(sessions := w.sessions - {s})
  }

  ghost predicate Happens(w: World, events: seq<Event>)
    decreases events
  {
    events == [] || (Enabled(w, events[0]) && Happens(After(w, events[0]), events[1..]))
  }

  ghost function AfterAll(w: World, events: seq<Event>): World
    requires Happens(w, events)
    decreases events
  {
    if events == [] then w else AfterAll(After(w, events[0]), events[1..])
  }

  lemma {:induction false} StepThen(w: World, e: Event, rest: seq<Event>)
    requires Enabled(w, e) && Happens(After(w, e), rest)
    ensures Happens(w, [e] + rest) && AfterAll(w, [e] + rest) == AfterAll(After(w, e), rest)
  {
    assert ([e] + rest)[0] == e && ([e] + rest)[1..] == rest;
  }

  // --- locks are exclusive ---

  ghost predicate Behind(s: Session) {
    && Proper(s.op)
    && s.next <= |Program(s.op)|
    && forall l :: l in s.held ==> Passed(s.op, s.next, l)
  }

  ghost predicate Passed(op: Op, n: nat, l: Lock) {
    exists i :: 0 <= i < n && i < |Program(op)| && Program(op)[i] == l
  }

  lemma {:induction false} PassedNext(op: Op, n: nat)
    requires n < |Program(op)|
    ensures Passed(op, n + 1, Program(op)[n])
    ensures forall l :: Passed(op, n, l) ==> Passed(op, n + 1, l)
  {
  }

  ghost predicate Compatible(a: set<Lock>, b: set<Lock>) {
    forall l, k :: l in a && k in b ==> !Clash(l, k)
  }

  /** Every session holds only what its program has passed, and no two hold locks that clash. */
  ghost predicate Exclusive(w: World) {
    && (forall s :: s in w.sessions ==> Behind(w.sessions[s]))
    && (forall s, t {:trigger Agree(w, s, t)} :: Agree(w, s, t))
  }

  ghost predicate Agree(w: World, s: nat, t: nat) {
    s in w.sessions && t in w.sessions && s != t ==> Compatible(w.sessions[s].held, w.sessions[t].held)
  }

  lemma {:induction false} SessionChanges(w: World, s: nat, session: Session)
    requires Exclusive(w) && Behind(session)
    requires forall t :: t in w.sessions && t != s ==> Compatible(session.held, w.sessions[t].held)
    ensures Exclusive(w.(sessions := w.sessions[s := session]))
  {
    var w' := w.(sessions := w.sessions[s := session]);
    forall t, u
      ensures Agree(w', t, u)
    {
      assert Agree(w, t, u);
      if t in w'.sessions && u in w'.sessions && t != u && u == s { Mirrored(session.held, w.sessions[t].held); }
    }
  }

  lemma {:induction false} Mirrored(a: set<Lock>, b: set<Lock>)
    requires Compatible(a, b)
    ensures Compatible(b, a)
  {
    assert forall l, k :: l in b && k in a ==> !Clash(k, l);
  }

  lemma {:induction false} SessionEnds(w: World, s: nat, versions: map<string, int>)
    requires Exclusive(w)
    ensures Exclusive(World(versions, w.sessions - {s}))
  {
    var w' := World(versions, w.sessions - {s});
    forall t, u
      ensures Agree(w', t, u)
    {
      assert Agree(w, t, u);
    }
  }

  lemma {:induction false} CompatibleGrows(a: set<Lock>, b: set<Lock>, l: Lock)
    requires Compatible(a, b) && !Blocks(b, l)
    ensures Compatible(a + {l}, b)
  {
  }

  lemma {:induction false} BehindGrows(s: Session)
    requires Behind(s) && s.Waiting()
    ensures Behind(s.(next := s.next + 1, held := s.held + {s.Wants()}))
  {
    PassedNext(s.op, s.next);
  }

  lemma {:induction false} AcquireKeepsExclusive(w: World, s: nat)
    requires Exclusive(w) && Enabled(w, Acquire(s))
    ensures Exclusive(After(w, Acquire(s)))
  {
    var mine := w.sessions[s];
    BehindGrows(mine);
    forall t | t in w.sessions && t != s
      ensures Compatible(mine.held + {mine.Wants()}, w.sessions[t].held)
    {
      assert Agree(w, s, t);
      CompatibleGrows(mine.held, w.sessions[t].held, mine.Wants());
    }
    SessionChanges(w, s, mine.(next := mine.next + 1, held := mine.held + {mine.Wants()}));
  }

  lemma {:induction false} EndNestedKeepsExclusive(w: World, s: nat)
    requires Exclusive(w) && Enabled(w, EndNested(s))
    ensures Exclusive(After(w, EndNested(s)))
  {
    assert Behind(w.sessions[s]);
    var next := After(w, EndNested(s)).sessions[s];
    forall t | t in w.sessions && t != s
      ensures Compatible(next.held, w.sessions[t].held)
    {
      assert Agree(w, s, t);
    }
    SessionChanges(w, s, next);
  }

  lemma {:induction false} EventKeepsExclusive(w: World, e: Event)
    requires Exclusive(w) && Enabled(w, e)
    ensures Exclusive(After(w, e))
  {
    match e
    case Start(s, op) => SessionChanges(w, s, Session(op, 0, {}));
    case Acquire(s) => AcquireKeepsExclusive(w, s);
    case EndNested(s) => EndNestedKeepsExclusive(w, s);
    case Commit(s, _) => SessionEnds(w, s, After(w, e).versions);
    case Abort(s) => SessionEnds(w, s, w.versions);
  }

  // --- what a wait cycle must hold ---

  /** The key's lock is an assessment's. */
  ghost predicate AssessmentHolds(w: World, key: int) {
    exists a :: a in w.sessions && w.sessions[a].op.Assess? && Takes(KeyLock(key)) in w.sessions[a].held
  }

  /** The order every wait climbs: assessments' keys, their Projects, campaigns, the lease and intents,
      other keys, their Projects. */
  ghost function Tier(w: World, r: Resource): nat {
    match r
    case KeyLock(hash) => if AssessmentHolds(w, hash) then 0 else 4
    case AssessmentsLock(_) => 1
    case CampaignRow(_) => 2
    case LeaseRow => 3
    case IntentRow(_) => 3
    case ProjectLock(_) => 5
    case ProjectRow(_) => 6
  }

  ghost predicate Below(w: World, a: Resource, b: Resource) {
    || Tier(w, a) < Tier(w, b)
    || (a.CampaignRow? && b.CampaignRow? && LexLeq(a.campaignId, b.campaignId) && a != b)
  }

  lemma {:induction false} BelowIsStrict(w: World, a: Resource, b: Resource, c: Resource)
    ensures !Below(w, a, a)
    ensures Below(w, a, b) && Below(w, b, c) ==> Below(w, a, c)
  {
    if a.CampaignRow? && b.CampaignRow? && c.CampaignRow? && Below(w, a, b) && Below(w, b, c) {
      LexIsTransitive(a.campaignId, b.campaignId, c.campaignId);
      LexIsTotal(a.campaignId, b.campaignId);
    }
  }

  ghost predicate WaitsFor(w: World, s: nat, t: nat) {
    && s in w.sessions && t in w.sessions && s != t && w.sessions[s].Waiting()
    && Blocks(w.sessions[t].held, w.sessions[s].Wants())
  }

  /** A holder wants its key, and an assessment holds it. */
  ghost predicate WantsAssessmentsKey(w: World, s: nat) {
    && s in w.sessions && w.sessions[s].op.Hold? && w.sessions[s].Waiting()
    && w.sessions[s].Wants() == Takes(KeyLock(w.sessions[s].op.key)) && AssessmentHolds(w, w.sessions[s].op.key)
  }

  /** What a holder holds is below what it waits for, unless that is its key and an assessment's. */
  lemma {:induction false} HolderClimbs(w: World, op: Op, i: nat, n: nat)
    requires op.Hold? && Proper(op) && i < n < |Program(op)| && !Program(op)[i].resource.ProjectRow?
    requires Program(op)[i].resource == KeyLock(op.key) || n == |op.campaignIds| ==> !AssessmentHolds(w, op.key)
    ensures Below(w, Program(op)[i].resource, Program(op)[n].resource)
  {
    var m := |op.campaignIds|;
    assert forall j :: m <= j < m + 3 ==> Program(op)[j] == Revision(op.key, op.project, op.projectId)[j - m];
    assert i == m ==> Program(op)[i].resource == KeyLock(op.key);
  }

  /** What any other session holds is below what it waits for. */
  lemma {:induction false} OthersClimb(w: World, op: Op, i: nat, n: nat)
    requires !op.Hold? && i < n < |Program(op)| && !Program(op)[i].resource.ProjectRow?
    requires Program(op)[i].resource.KeyLock? ==> (op.Assess? <==> AssessmentHolds(w, Program(op)[i].resource.hash))
    ensures Below(w, Program(op)[i].resource, Program(op)[n].resource)
  {
  }

  /** What a session holds is below what it waits for, but for an assessment's share of its Project's
      row, and for a holder whose key an assessment holds. */
  lemma {:induction false} HeldIsBelow(w: World, t: nat, l: Lock)
    requires Exclusive(w) && t in w.sessions && w.sessions[t].Waiting() && l in w.sessions[t].held
    requires !WantsAssessmentsKey(w, t) && !l.resource.ProjectRow?
    ensures Below(w, l.resource, w.sessions[t].Wants().resource)
  {
    var u := w.sessions[t];
    assert Behind(u) && Passed(u.op, u.next, l);
    var i :| 0 <= i < u.next && i < |Program(u.op)| && Program(u.op)[i] == l;
    if u.op.Hold? {
      if u.next == |u.op.campaignIds| { assert u.Wants() == Takes(KeyLock(u.op.key)); }
      if l.resource == KeyLock(u.op.key) { HoldersKeyIsTaken(w, t, l, i); }
      HolderClimbs(w, u.op, i, u.next);
    } else {
      if l.resource.KeyLock? { KeyIsOfItsKind(w, t, l, i); }
      OthersClimb(w, u.op, i, u.next);
    }
  }

  lemma {:induction false} HoldersKeyIsTaken(w: World, t: nat, l: Lock, i: nat)
    requires Exclusive(w) && t in w.sessions && w.sessions[t].op.Hold? && l in w.sessions[t].held
    requires i < |Program(w.sessions[t].op)| && Program(w.sessions[t].op)[i] == l && l.resource.KeyLock?
    ensures !AssessmentHolds(w, l.resource.hash)
  {
    var op := w.sessions[t].op;
    var m := |op.campaignIds|;
    assert forall j :: m <= j < m + 3 ==> Program(op)[j] == Revision(op.key, op.project, op.projectId)[j - m];
    KeyIsNotAssessments(w, t, l.resource.hash);
  }

  lemma {:induction false} KeyIsOfItsKind(w: World, t: nat, l: Lock, i: nat)
    requires Exclusive(w) && t in w.sessions && !w.sessions[t].op.Hold? && l in w.sessions[t].held
    requires i < |Program(w.sessions[t].op)| && Program(w.sessions[t].op)[i] == l && l.resource.KeyLock?
    ensures w.sessions[t].op.Assess? <==> AssessmentHolds(w, l.resource.hash)
  {
    if !w.sessions[t].op.Assess? { KeyIsNotAssessments(w, t, l.resource.hash); }
  }

  lemma {:induction false} KeyIsNotAssessments(w: World, t: nat, key: int)
    requires Exclusive(w) && t in w.sessions && !w.sessions[t].op.Assess? && Takes(KeyLock(key)) in w.sessions[t].held
    ensures !AssessmentHolds(w, key)
  {
    forall a | a in w.sessions && w.sessions[a].op.Assess?
      ensures Takes(KeyLock(key)) !in w.sessions[a].held
    {
      assert Agree(w, a, t);
      assert Clash(Takes(KeyLock(key)), Takes(KeyLock(key)));
    }
  }

  /** A session that holds something and waits is not a write of the Project registry, which takes one
      lock. */
  lemma {:induction false} WaitersHold(w: World, t: nat)
    requires Exclusive(w) && t in w.sessions && w.sessions[t].held != {} && w.sessions[t].Waiting()
    ensures !w.sessions[t].op.WriteProject?
  {
    var l :| l in w.sessions[t].held;
    assert Behind(w.sessions[t]) && Passed(w.sessions[t].op, w.sessions[t].next, l);
  }

  /** Only a write of the Project registry is kept waiting by a share of the Project's row. */
  lemma {:induction false} RowIsWaitedForByWriter(w: World, s: nat, l: Lock)
    requires Exclusive(w) && s in w.sessions && w.sessions[s].Waiting() && Clash(w.sessions[s].Wants(), l)
    requires l.resource.ProjectRow? && l.shared
    ensures w.sessions[s].op.WriteProject?
  {
    assert Behind(w.sessions[s]);
  }

  /** A Project's row is taken whole by its registry alone. */
  lemma {:induction false} WholeRowIsWriters(w: World, t: nat, l: Lock)
    requires Exclusive(w) && t in w.sessions && l in w.sessions[t].held && l.resource.ProjectRow? && !l.shared
    ensures w.sessions[t].op.WriteProject?
  {
    assert Behind(w.sessions[t]) && Passed(w.sessions[t].op, w.sessions[t].next, l);
  }

  /** Along a wait, what is wanted climbs. */
  lemma {:induction false} WaitsClimb(w: World, s: nat, t: nat)
    requires Exclusive(w) && WaitsFor(w, s, t) && w.sessions[t].Waiting()
    requires !w.sessions[s].op.WriteProject? && !WantsAssessmentsKey(w, t)
    ensures Below(w, w.sessions[s].Wants().resource, w.sessions[t].Wants().resource)
  {
    var l :| l in w.sessions[t].held && Clash(w.sessions[s].Wants(), l);
    WaitersHold(w, t);
    if l.resource.ProjectRow? {
      if l.shared { RowIsWaitedForByWriter(w, s, l); } else { WholeRowIsWriters(w, t, l); }
    } else {
      HeldIsBelow(w, t, l);
    }
  }

  ghost predicate WaitPath(w: World, path: seq<nat>) {
    forall i, j :: 0 <= i < j < |path| && j == i + 1 ==> WaitsFor(w, path[i], path[j])
  }

  /** No session of the path but the first wants a key an assessment holds, and none is a write of the
      Project registry. */
  ghost predicate Climbable(w: World, path: seq<nat>) {
    && (forall i :: 1 <= i < |path| ==> !WantsAssessmentsKey(w, path[i]))
    && (forall i :: 0 <= i < |path| ==> path[i] in w.sessions && !w.sessions[path[i]].op.WriteProject?)
  }

  lemma {:induction false} PathsClimb(w: World, path: seq<nat>)
    requires Exclusive(w) && WaitPath(w, path) && 2 <= |path| && Climbable(w, path)
    requires w.sessions[path[|path| - 1]].Waiting()
    ensures w.sessions[path[0]].Waiting()
    ensures Below(w, w.sessions[path[0]].Wants().resource, w.sessions[path[|path| - 1]].Wants().resource)
  {
    var n := |path| - 1;
    assert WaitsFor(w, path[n - 1], path[n]);
    WaitsClimb(w, path[n - 1], path[n]);
    if 2 <= n {
      PathsClimb(w, path[..n]);
      BelowIsStrict(w, w.sessions[path[0]].Wants().resource, w.sessions[path[n - 1]].Wants().resource,
                    w.sessions[path[n]].Wants().resource);
    }
  }

  ghost predicate Cycle(w: World, path: seq<nat>) {
    2 <= |path| && WaitPath(w, path) && path[0] == path[|path| - 1]
  }

  /** Somewhere in the path a holder waits for an assessment, for the key both were given. */
  ghost predicate SharesAKey(w: World, path: seq<nat>, i: int) {
    && 0 <= i < |path| - 1 && WaitsFor(w, path[i], path[i + 1])
    && w.sessions[path[i]].op.Hold? && w.sessions[path[i + 1]].op.Assess?
    && w.sessions[path[i]].op.key == w.sessions[path[i + 1]].op.key
  }

  lemma {:induction false} AssessmentsKeyIsItsOwn(w: World, a: nat, key: int)
    requires Exclusive(w) && a in w.sessions && w.sessions[a].op.Assess?
    requires Takes(KeyLock(key)) in w.sessions[a].held
    ensures w.sessions[a].op.key == key
  {
    assert Behind(w.sessions[a]) && Passed(w.sessions[a].op, w.sessions[a].next, Takes(KeyLock(key)));
  }

  lemma {:induction false} KeyIsItsAssessments(w: World, s: nat, t: nat)
    requires Exclusive(w) && WaitsFor(w, s, t) && WantsAssessmentsKey(w, s)
    ensures w.sessions[t].op.Assess? && w.sessions[t].op.key == w.sessions[s].op.key
  {
    var key := w.sessions[s].op.key;
    var a :| a in w.sessions && w.sessions[a].op.Assess? && Takes(KeyLock(key)) in w.sessions[a].held;
    var l :| l in w.sessions[t].held && Clash(Takes(KeyLock(key)), l);
    AssessmentsKeyIsItsOwn(w, a, key);
    assert Agree(w, a, t);
    assert a != t ==> Clash(Takes(KeyLock(key)), l);
  }

  lemma {:induction false} CycleMembersHold(w: World, path: seq<nat>, i: nat)
    requires Exclusive(w) && Cycle(w, path) && i < |path|
    ensures path[i] in w.sessions && w.sessions[path[i]].Waiting() && !w.sessions[path[i]].op.WriteProject?
  {
    var before, at := if i == 0 then |path| - 2 else i - 1, if i == 0 then |path| - 1 else i;
    assert WaitsFor(w, path[before], path[at]);
    assert WaitsFor(w, path[0], path[1]);
    if i < |path| - 1 { assert WaitsFor(w, path[i], path[i + 1]); }
    WaitersHold(w, path[i]);
  }

  /** Every wait cycle goes through a holder that waits for its key, held by an assessment under the
      same key. */
  lemma {:induction false} CyclesShareAKey(w: World, path: seq<nat>)
    requires Exclusive(w) && Cycle(w, path)
    ensures exists i :: SharesAKey(w, path, i)
  {
    forall i | 0 <= i < |path|
      ensures path[i] in w.sessions && w.sessions[path[i]].Waiting() && !w.sessions[path[i]].op.WriteProject?
    {
      CycleMembersHold(w, path, i);
    }
    if i :| 0 <= i < |path| - 1 && WantsAssessmentsKey(w, path[i]) {
      assert WaitsFor(w, path[i], path[i + 1]);
      KeyIsItsAssessments(w, path[i], path[i + 1]);
      assert SharesAKey(w, path, i);
    } else {
      assert Climbable(w, path);
      PathsClimb(w, path);
      var r := w.sessions[path[0]].Wants().resource;
      BelowIsStrict(w, r, r, r);
    }
  }

  // --- keys apart ---

  /** No assessment is under a holder's key. */
  ghost predicate KeysApart(ops: set<Op>) {
    forall a, h :: a in ops && h in ops && a.Assess? && h.Hold? ==> a.key != h.key
  }

  ghost function Open(w: World): set<Op> {
    set s | s in w.sessions :: w.sessions[s].op
  }

  function Started(events: seq<Event>): set<Op> {
    set e | e in events && e.Start? :: e.op
  }

  lemma {:induction false} CycleIsNotApart(w: World, path: seq<nat>)
    requires Exclusive(w) && Cycle(w, path)
    ensures !KeysApart(Open(w))
  {
    CyclesShareAKey(w, path);
    var i :| SharesAKey(w, path, i);
    assert w.sessions[path[i]].op in Open(w) && w.sessions[path[i + 1]].op in Open(w);
  }

  /** No session waits, through any others, for itself, while keys are apart. */
  lemma {:induction false} NoWaitCycle(w: World, path: seq<nat>)
    requires Exclusive(w) && KeysApart(Open(w))
    ensures !Cycle(w, path)
  {
    if Cycle(w, path) { CycleIsNotApart(w, path); }
  }

  /** Of some waiting sessions, one wants what none of the others' wants is above. */
  lemma {:induction false} Highest(w: World, waiting: set<nat>) returns (top: nat)
    requires waiting != {} && forall s :: s in waiting ==> s in w.sessions && w.sessions[s].Waiting()
    ensures top in waiting
    ensures forall s :: s in waiting ==> !Below(w, w.sessions[top].Wants().resource, w.sessions[s].Wants().resource)
  {
    var s :| s in waiting;
    var others := waiting - {s};
    var mine := w.sessions[s].Wants().resource;
    BelowIsStrict(w, mine, mine, mine);
    if others == {} {
      top := s;
      assert waiting == {s};
    } else {
      var best := Highest(w, others);
      if Below(w, w.sessions[best].Wants().resource, mine) {
        top := s;
        forall t | t in waiting
          ensures !Below(w, mine, w.sessions[t].Wants().resource)
        {
          BelowIsStrict(w, w.sessions[best].Wants().resource, mine, w.sessions[t].Wants().resource);
        }
      } else {
        top := best;
      }
    }
  }

  lemma {:induction false} WantedIsNotApart(w: World, s: nat)
    requires Exclusive(w) && WantsAssessmentsKey(w, s)
    ensures !KeysApart(Open(w))
  {
    var key := w.sessions[s].op.key;
    var a :| a in w.sessions && w.sessions[a].op.Assess? && Takes(KeyLock(key)) in w.sessions[a].held;
    assert w.sessions[a].op in Open(w) && w.sessions[s].op in Open(w);
    AssessmentsKeyIsItsOwn(w, a, key);
  }

  lemma {:induction false} WritersHoldNothing(w: World, t: nat)
    requires Exclusive(w) && t in w.sessions && w.sessions[t].op.WriteProject? && w.sessions[t].Waiting()
    ensures w.sessions[t].held == {}
  {
    assert Behind(w.sessions[t]);
    assert forall l :: l in w.sessions[t].held ==> Passed(w.sessions[t].op, w.sessions[t].next, l);
  }

  /** The highest waiting session waits for none that waits. */
  lemma {:induction false} HighestIsFree(w: World, waiting: set<nat>, top: nat, t: nat)
    requires Exclusive(w) && KeysApart(Open(w)) && top in waiting && t in w.sessions && t != top
    requires forall s :: s in w.sessions ==> w.sessions[s].Waiting()
    requires waiting == set s | s in w.sessions && !w.sessions[s].op.WriteProject?
    requires forall s :: s in waiting ==> !Below(w, w.sessions[top].Wants().resource, w.sessions[s].Wants().resource)
    ensures !Blocks(w.sessions[t].held, w.sessions[top].Wants())
  {
    if w.sessions[t].op.WriteProject? {
      WritersHoldNothing(w, t);
    } else if WantsAssessmentsKey(w, t) {
      WantedIsNotApart(w, t);
    } else if WaitsFor(w, top, t) {
      WaitsClimb(w, top, t);
    }
  }

  /** While a session is open and keys are apart, one can take its next lock or commit. */
  lemma {:induction false} SomeoneMoves(w: World) returns (e: Event)
    requires Exclusive(w) && w.sessions.Keys != {} && KeysApart(Open(w))
    ensures Enabled(w, e) && (e.Acquire? || e.Commit?)
  {
    if s :| s in w.sessions && !w.sessions[s].Waiting() {
      e := Commit(s, 0);
    } else {
      var waiting := set s | s in w.sessions && !w.sessions[s].op.WriteProject?;
      var top;
      if t :| t in waiting {
        top := Highest(w, waiting);
        forall t | t in w.sessions && t != top
          ensures !Blocks(w.sessions[t].held, w.sessions[top].Wants())
        {
          HighestIsFree(w, waiting, top, t);
        }
      } else {
        top :| top in w.sessions;
        forall t | t in w.sessions && t != top
          ensures !Blocks(w.sessions[t].held, w.sessions[top].Wants())
        {
          assert t !in waiting;
          WritersHoldNothing(w, t);
        }
      }
      e := Acquire(top);
    }
  }

  // --- a shared key ---

  /** Two sessions that wait for each other stay so, whatever else happens, until one is aborted. */
  lemma {:induction false} DeadlockLasts(w: World, s: nat, t: nat, e: Event)
    requires WaitsFor(w, s, t) && WaitsFor(w, t, s) && Enabled(w, e) && e != Abort(s) && e != Abort(t)
    ensures WaitsFor(After(w, e), s, t) && WaitsFor(After(w, e), t, s)
  {
    if e.Acquire? { assert e.session != s && e.session != t; }
  }

  /** A holder of a campaign that has come to its key, and an assessment of that campaign under the
      same key, not begun: nothing else is in the assessment's way to the campaign. */
  ghost predicate Collide(w: World, h: nat, a: nat) {
    && h in w.sessions && a in w.sessions && h != a
    && w.sessions[h].op.Hold? && w.sessions[h].next == |w.sessions[h].op.campaignIds|
    && w.sessions[a].op.Assess? && w.sessions[a].next == 0
    && w.sessions[a].op.key == w.sessions[h].op.key
    && Takes(CampaignRow(w.sessions[a].op.assessed)) in w.sessions[h].held
    && Free(w, a, Takes(KeyLock(w.sessions[a].op.key)))
    && Free(w, a, Takes(AssessmentsLock(w.sessions[a].op.project)))
    && Free(w, a, Shares(ProjectRow(w.sessions[a].op.projectId)))
  }

  lemma {:induction false} AcquireNext(w: World, s: nat, n: nat)
    requires s in w.sessions && w.sessions[s].next == n < |Program(w.sessions[s].op)|
    requires Free(w, s, Program(w.sessions[s].op)[n])
    ensures Enabled(w, Acquire(s))
    ensures var w' := After(w, Acquire(s));
      && w'.sessions.Keys == w.sessions.Keys
      && (forall t :: t in w.sessions && t != s ==> w'.sessions[t] == w.sessions[t])
      && w'.sessions[s] == w.sessions[s].(next := n + 1, held := w.sessions[s].held + {Program(w.sessions[s].op)[n]})
  {
  }

  lemma {:induction false} ThreeAcquires(w: World, a: nat, w1: World, w2: World)
    requires Enabled(w, Acquire(a)) && w1 == After(w, Acquire(a))
    requires Enabled(w1, Acquire(a)) && w2 == After(w1, Acquire(a)) && Enabled(w2, Acquire(a))
    ensures Happens(w, [Acquire(a), Acquire(a), Acquire(a)])
    ensures AfterAll(w, [Acquire(a), Acquire(a), Acquire(a)]) == After(w2, Acquire(a))
  {
    StepThen(w2, Acquire(a), []);
    StepThen(w1, Acquire(a), [Acquire(a)]);
    StepThen(w, Acquire(a), [Acquire(a), Acquire(a)]);
    assert [Acquire(a)] + [] == [Acquire(a)];
    assert [Acquire(a)] + [Acquire(a)] == [Acquire(a), Acquire(a)];
    assert [Acquire(a)] + [Acquire(a), Acquire(a)] == [Acquire(a), Acquire(a), Acquire(a)];
  }

  /** With its first three locks, the assessment and the holder wait for each other. */
  lemma {:induction false} CollidedWait(w: World, h: nat, a: nat)
    requires h in w.sessions && a in w.sessions && h != a
    requires w.sessions[h].op.Hold? && w.sessions[h].next == |w.sessions[h].op.campaignIds|
    requires w.sessions[a].op.Assess? && w.sessions[a].next == 3 && w.sessions[a].op.key == w.sessions[h].op.key
    requires Takes(KeyLock(w.sessions[a].op.key)) in w.sessions[a].held
    requires Takes(CampaignRow(w.sessions[a].op.assessed)) in w.sessions[h].held
    ensures WaitsFor(w, h, a) && WaitsFor(w, a, h)
  {
    var op := w.sessions[a].op;
    assert w.sessions[h].Wants() == Takes(KeyLock(op.key));
    assert w.sessions[a].Wants() == Shares(CampaignRow(op.assessed));
    assert Clash(w.sessions[h].Wants(), Takes(KeyLock(op.key)));
    assert Clash(w.sessions[a].Wants(), Takes(CampaignRow(op.assessed)));
  }

  /** From there the assessment's next three locks are free, and once it has them the two wait for each
      other. */
  lemma {:induction false} SharedKeyDeadlocks(w: World, h: nat, a: nat)
    requires Collide(w, h, a)
    ensures Happens(w, [Acquire(a), Acquire(a), Acquire(a)])
    ensures var w' := AfterAll(w, [Acquire(a), Acquire(a), Acquire(a)]); WaitsFor(w', h, a) && WaitsFor(w', a, h)
  {
    AcquireNext(w, a, 0);
    var w1 := After(w, Acquire(a));
    AcquireNext(w1, a, 1);
    var w2 := After(w1, Acquire(a));
    AcquireNext(w2, a, 2);
    ThreeAcquires(w, a, w1, w2);
    CollidedWait(After(w2, Acquire(a)), h, a);
  }

  // --- one holder and one assessment ---

  /** The next session around a cycle. */
  lemma {:induction false} NextInCycle(w: World, path: seq<nat>, i: nat) returns (j: nat)
    requires Exclusive(w) && Cycle(w, path) && i < |path|
    ensures j < |path| && WaitsFor(w, path[i], path[j]) && w.sessions[path[j]].Waiting()
  {
    j := if i == |path| - 1 then 1 else i + 1;
    assert WaitsFor(w, path[j - 1], path[j]);
    CycleMembersHold(w, path, j);
  }

  /** The last lock of a control operation. */
  predicate IsLast(r: Resource) {
    r.LeaseRow? || r.IntentRow?
  }

  lemma {:induction false} LastIsNotWaiting(w: World, t: nat, l: Lock)
    requires Exclusive(w) && t in w.sessions && l in w.sessions[t].held && IsLast(l.resource)
    ensures !w.sessions[t].Waiting()
  {
    assert Behind(w.sessions[t]) && Passed(w.sessions[t].op, w.sessions[t].next, l);
    HoldTakesNoLast(w.sessions[t].op);
  }

  lemma {:induction false} HoldTakesNoLast(op: Op)
    ensures op.Hold? ==> forall i :: 0 <= i < |Program(op)| ==> !IsLast(Program(op)[i].resource)
  {
  }

  /** A control operation that holds its campaign and waits, waits for its last lock. */
  lemma {:induction false} ControlWantsLast(w: World, t: nat)
    requires Exclusive(w) && t in w.sessions && w.sessions[t].Waiting() && w.sessions[t].held != {}
    requires Writes(w.sessions[t].op).Some?
    ensures IsLast(w.sessions[t].Wants().resource)
  {
    var l :| l in w.sessions[t].held;
    assert Behind(w.sessions[t]) && Passed(w.sessions[t].op, w.sessions[t].next, l);
  }

  /** No control operation is part of a cycle: what it would wait for is somebody's last. */
  lemma {:induction false} NoControlInCycle(w: World, path: seq<nat>, j: nat)
    requires Exclusive(w) && Cycle(w, path) && j < |path| && path[j] in w.sessions
    requires w.sessions[path[j]].Waiting() && w.sessions[path[j]].held != {}
    ensures Writes(w.sessions[path[j]].op).None?
  {
    if Writes(w.sessions[path[j]].op).Some? {
      ControlWantsLast(w, path[j]);
      var k := NextInCycle(w, path, j);
      var m :| m in w.sessions[path[k]].held && Clash(w.sessions[path[j]].Wants(), m);
      LastIsNotWaiting(w, path[k], m);
    }
  }

  /** An assessment past its first lock wants its Project's lock or row, or its campaign. */
  lemma {:induction false} AssessmentWants(w: World, a: nat)
    requires Exclusive(w) && a in w.sessions && w.sessions[a].op.Assess?
    requires w.sessions[a].Waiting() && w.sessions[a].held != {}
    ensures var r := w.sessions[a].Wants().resource;
      r.AssessmentsLock? || r.ProjectRow? || r == CampaignRow(w.sessions[a].op.assessed)
  {
    var b :| b in w.sessions[a].held;
    assert Behind(w.sessions[a]) && Passed(w.sessions[a].op, w.sessions[a].next, b);
  }

  /** The campaign's row, held by a session that is no assessment and no control operation, is a
      holder's. */
  lemma {:induction false} RowIsHolders(w: World, t: nat, l: Lock)
    requires Exclusive(w) && t in w.sessions && l in w.sessions[t].held
    requires Writes(w.sessions[t].op).None? && !w.sessions[t].op.Assess?
    requires l.resource.CampaignRow? || l.resource.AssessmentsLock?
    ensures l.resource.CampaignRow? && w.sessions[t].op.Hold? && l.resource.campaignId in w.sessions[t].op.campaignIds
  {
    var op := w.sessions[t].op;
    assert Behind(w.sessions[t]) && Passed(op, w.sessions[t].next, l);
    var i :| 0 <= i < w.sessions[t].next && i < |Program(op)| && Program(op)[i] == l;
    if op.Hold? {
      var m := |op.campaignIds|;
      assert forall j :: m <= j < m + 3 ==> Program(op)[j] == Revision(op.key, op.project, op.projectId)[j - m];
    }
  }

  /** In a cycle an assessment waits for its campaign, and for a holder. */
  lemma {:induction false} AssessmentWaitsForHolder(w: World, path: seq<nat>, i: nat, j: nat)
    requires Exclusive(w) && Cycle(w, path) && i < |path| && j < |path| && WaitsFor(w, path[i], path[j])
    requires w.sessions[path[i]].op.Assess? && w.sessions[path[i]].held != {} && w.sessions[path[j]].Waiting()
    requires !w.sessions[path[j]].op.Assess?
    ensures w.sessions[path[j]].op.Hold? && w.sessions[path[i]].op.assessed in w.sessions[path[j]].op.campaignIds
  {
    var l :| l in w.sessions[path[j]].held && Clash(w.sessions[path[i]].Wants(), l);
    AssessmentWants(w, path[i]);
    NoControlInCycle(w, path, j);
    WaitersHold(w, path[j]);
    if l.resource.ProjectRow? {
      AssessmentSharesRow(w, path[i]);
      WholeRowIsWriters(w, path[j], l);
    } else {
      RowIsHolders(w, path[j], l);
    }
  }

  lemma {:induction false} AssessmentSharesRow(w: World, a: nat)
    requires Exclusive(w) && a in w.sessions && w.sessions[a].op.Assess? && w.sessions[a].Waiting()
    ensures w.sessions[a].Wants().resource.ProjectRow? ==> w.sessions[a].Wants().shared
  {
    assert Behind(w.sessions[a]);
  }

  /** One holder and one assessment are open, among any other operations. */
  ghost predicate Pair(w: World, h: nat, a: nat) {
    && h in w.sessions && a in w.sessions && w.sessions[h].op.Hold? && w.sessions[a].op.Assess?
    && forall s {:trigger OneOf(w, s, h, a)} :: OneOf(w, s, h, a)
  }

  ghost predicate OneOf(w: World, s: nat, h: nat, a: nat) {
    s in w.sessions ==> (w.sessions[s].op.Hold? ==> s == h) && (w.sessions[s].op.Assess? ==> s == a)
  }

  lemma {:induction false} PairShares(w: World, path: seq<nat>, h: nat, a: nat) returns (i: nat)
    requires Exclusive(w) && Cycle(w, path) && Pair(w, h, a)
    ensures i < |path| && path[i] == a && w.sessions[a].held != {} && w.sessions[h].op.key == w.sessions[a].op.key
  {
    CyclesShareAKey(w, path);
    var k :| SharesAKey(w, path, k);
    assert OneOf(w, path[k], h, a) && OneOf(w, path[k + 1], h, a);
    i := k + 1;
    assert Blocks(w.sessions[a].held, w.sessions[h].Wants());
  }

  /** With one holder and one assessment among any other operations, a wait cycle needs both: one key
      for the two, and the assessed campaign among those held. */
  lemma {:induction false} PairDeadlocksOnlySharing(w: World, path: seq<nat>, h: nat, a: nat)
    requires Exclusive(w) && Cycle(w, path) && Pair(w, h, a)
    ensures w.sessions[h].op.key == w.sessions[a].op.key
    ensures w.sessions[a].op.assessed in w.sessions[h].op.campaignIds
  {
    var i := PairShares(w, path, h, a);
    var j := NextInCycle(w, path, i);
    assert OneOf(w, path[j], h, a);
    AssessmentWaitsForHolder(w, path, i, j);
  }

  lemma {:induction false} RunThen(w: World, events: seq<Event>, e: Event)
    requires Happens(w, events) && Enabled(AfterAll(w, events), e)
    ensures Happens(w, events + [e]) && AfterAll(w, events + [e]) == After(AfterAll(w, events), e)
    decreases events
  {
    if events == [] {
      StepThen(w, e, []);
      assert events + [e] == [e] && [e] + [] == [e];
    } else {
      RunThen(After(w, events[0]), events[1..], e);
      StepThen(w, events[0], events[1..] + [e]);
      assert [events[0]] + (events[1..] + [e]) == events + [e];
    }
  }

  function FirstRows(ids: seq<string>, n: nat): set<Lock>
    requires n <= |ids|
  {
    set i | 0 <= i < n :: Takes(CampaignRow(ids[i]))
  }

  /** A holder alone takes its campaigns one by one. */
  lemma {:induction false} HolderAlone(versions: map<string, int>, op: Op, n: nat) returns (events: seq<Event>)
    requires op.Hold? && Proper(op) && n <= |op.campaignIds|
    ensures Happens(World(versions, map[]), events)
    ensures AfterAll(World(versions, map[]), events) ==
      World(versions, map[0 := Session(op, n, FirstRows(op.campaignIds, n))])
  {
    var w := World(versions, map[]);
    if n == 0 {
      events := [Start(0, op)];
      StepThen(w, Start(0, op), []);
      assert [Start(0, op)] + [] == events;
      assert FirstRows(op.campaignIds, 0) == {};
      assert After(w, Start(0, op)).sessions == map[0 := Session(op, 0, {})];
    } else {
      var before := HolderAlone(versions, op, n - 1);
      var w1 := AfterAll(w, before);
      AcquireNext(w1, 0, n - 1);
      RunThen(w, before, Acquire(0));
      events := before + [Acquire(0)];
      var rows, next := FirstRows(op.campaignIds, n - 1), Takes(CampaignRow(op.campaignIds[n - 1]));
      assert FirstRows(op.campaignIds, n) == rows + {next};
      assert After(w1, Acquire(0)).sessions == map[0 := Session(op, n, rows + {next})];
    }
  }

  /** And whenever they do share, the two alone come to wait for each other. */
  lemma {:induction false} SharingPairDeadlocks(versions: map<string, int>, hold: Op, assess: Op)
    returns (events: seq<Event>)
    requires hold.Hold? && Proper(hold) && assess.Assess?
    requires hold.key == assess.key && assess.assessed in hold.campaignIds
    ensures Happens(World(versions, map[]), events)
    ensures var w := AfterAll(World(versions, map[]), events);
      w.sessions.Keys == {0, 1} && w.sessions[0].op == hold && w.sessions[1].op == assess && Collide(w, 0, 1)
  {
    var before := HolderAlone(versions, hold, |hold.campaignIds|);
    var w := AfterAll(World(versions, map[]), before);
    events := before + [Start(1, assess)];
    RunThen(World(versions, map[]), before, Start(1, assess));
    var w' := After(w, Start(1, assess));
    assert w'.sessions[0].held == FirstRows(hold.campaignIds, |hold.campaignIds|);
    assert forall l :: l in w'.sessions[0].held ==> l.resource.CampaignRow?;
    var i :| 0 <= i < |hold.campaignIds| && hold.campaignIds[i] == assess.assessed;
    assert Takes(CampaignRow(assess.assessed)) in w'.sessions[0].held;
  }

  // --- a held campaign stands still ---

  /** The holder's body runs: it holds every campaign it read. */
  ghost predicate Holding(w: World, h: nat) {
    && h in w.sessions && w.sessions[h].op.Hold?
    && |w.sessions[h].op.campaignIds| <= w.sessions[h].next
    && forall id :: id in w.sessions[h].op.campaignIds ==> Takes(CampaignRow(id)) in w.sessions[h].held
  }

  /** A committing session holds the campaign it writes. */
  ghost predicate WritersHold(w: World) {
    forall s :: s in w.sessions && Writes(w.sessions[s].op).Some? && 1 <= w.sessions[s].next ==>
      Takes(CampaignRow(Writes(w.sessions[s].op).value)) in w.sessions[s].held
  }

  ghost predicate Sound(w: World) {
    Exclusive(w) && WritersHold(w)
  }

  lemma {:induction false} EventKeepsSound(w: World, e: Event)
    requires Sound(w) && Enabled(w, e)
    ensures Sound(After(w, e))
  {
    EventKeepsExclusive(w, e);
  }

  lemma {:induction false} HolderStays(w: World, e: Event, h: nat)
    requires Holding(w, h) && Enabled(w, e) && e != Abort(h) && !(e.Commit? && e.session == h)
    ensures Holding(After(w, e), h) && After(w, e).sessions[h].op == w.sessions[h].op
  {
  }

  lemma {:induction false} CommitSparesHeld(w: World, s: nat, version: int, h: nat, id: string)
    requires Sound(w) && Holding(w, h) && id in w.sessions[h].op.campaignIds && Enabled(w, Commit(s, version)) && s != h
    ensures Writes(w.sessions[s].op) != Some(id)
  {
    assert Agree(w, s, h);
    assert Clash(Takes(CampaignRow(id)), Takes(CampaignRow(id))) && Takes(CampaignRow(id)) in w.sessions[h].held;
  }

  lemma {:induction false} HeldStandsStill(w: World, e: Event, h: nat, id: string)
    requires Sound(w) && Holding(w, h) && id in w.sessions[h].op.campaignIds
    requires Enabled(w, e) && e != Abort(h) && !(e.Commit? && e.session == h)
    ensures Holding(After(w, e), h) && After(w, e).sessions[h].op == w.sessions[h].op
    ensures id in w.versions ==> id in After(w, e).versions && After(w, e).versions[id] == w.versions[id]
  {
    HolderStays(w, e, h);
    if e.Commit? { CommitSparesHeld(w, e.session, e.version, h, id); }
  }

  /** From the moment a holder's body starts until it ends, whatever else happens, no campaign it
      holds changes. */
  lemma {:induction false} BodySeesOneVersion(w: World, events: seq<Event>, h: nat, id: string)
    requires Sound(w) && Holding(w, h) && id in w.sessions[h].op.campaignIds && id in w.versions && Happens(w, events)
    requires forall e :: e in events ==> e != Abort(h) && !(e.Commit? && e.session == h)
    ensures var w' := AfterAll(w, events); Holding(w', h) && id in w'.versions && w'.versions[id] == w.versions[id]
    decreases events
  {
    if events == [] {
    } else {
      HeldStandsStill(w, events[0], h, id);
      EventKeepsSound(w, events[0]);
      BodySeesOneVersion(After(w, events[0]), events[1..], h, id);
    }
  }

  lemma {:induction false} RunsStaySound(w: World, events: seq<Event>)
    requires Sound(w) && Happens(w, events)
    ensures Sound(AfterAll(w, events))
    decreases events
  {
    if events == [] {
    } else {
      EventKeepsSound(w, events[0]);
      RunsStaySound(After(w, events[0]), events[1..]);
    }
  }

  lemma {:induction false} OpenWasStarted(w: World, events: seq<Event>)
    requires Happens(w, events)
    ensures Open(AfterAll(w, events)) <= Open(w) + Started(events)
    decreases events
  {
    if events == [] {
    } else {
      var w' := After(w, events[0]);
      OpenWasStarted(w', events[1..]);
      assert Open(w') <= Open(w) + Started(events) by {
        assert events[0] in events;
        assert forall s :: s in w'.sessions && s in w.sessions ==> w'.sessions[s].op == w.sessions[s].op;
      }
      assert Started(events[1..]) <= Started(events);
    }
  }

  /** From no sessions at all, over any interleaving: a wait cycle is reached only where an assessment
      and a holder were started under one key, so while keys are apart there is none, and someone can
      always move. */
  lemma {:induction false} NeverDeadlocked(versions: map<string, int>, events: seq<Event>, path: seq<nat>)
    requires Happens(World(versions, map[]), events) && KeysApart(Started(events))
    ensures !Cycle(AfterAll(World(versions, map[]), events), path)
  {
    RunsStaySound(World(versions, map[]), events);
    OpenWasStarted(World(versions, map[]), events);
    NoWaitCycle(AfterAll(World(versions, map[]), events), path);
  }

  /** A backlog item's split holds a campaign; an assessment of that campaign comes under the split's
      key; each then waits for the other. */
  lemma {:induction false} SharedKeyExample(versions: map<string, int>) returns (events: seq<Event>)
    ensures Happens(World(versions, map[]), events)
    ensures var w := AfterAll(World(versions, map[]), events);
      && w.sessions.Keys == {0, 1}
      && w.sessions[0].op == Hold(["c"], 7, 1, "p") && w.sessions[1].op == Assess(7, 1, "p", "c")
      && Happens(w, [Acquire(1), Acquire(1), Acquire(1)])
      && var w' := AfterAll(w, [Acquire(1), Acquire(1), Acquire(1)]); WaitsFor(w', 0, 1) && WaitsFor(w', 1, 0)
  {
    events := SharingPairDeadlocks(versions, Hold(["c"], 7, 1, "p"), Assess(7, 1, "p", "c"));
    SharedKeyDeadlocks(AfterAll(World(versions, map[]), events), 0, 1);
  }
}
