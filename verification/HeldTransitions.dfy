/** `transitions_held`, twice: in memory it takes the Project's lock, which transitions alone take; in
    Postgres it takes the rows of the campaigns it finds live, which every control operation takes.
    Which calls can commit while a body runs, in each. */
module HeldTransitions {
  import opened Basics
  import opened LockOrder

  /** A control operation, and the campaign it is on. */
  predicate Control(op: Op) {
    Writes(op).Some?
  }

  // --- in memory ---

  /** The campaigns' versions, and the Projects held. Every operation is one step under the registry's
      own lock. */
  datatype Memory = Memory(versions: map<string, int>, held: set<string>)

  datatype MemoryEvent =
    | Begin(projectId: string)
    | End(projectId: string)
    | Call(op: Op, version: int)

  type Projects = string -> string

  predicate CanHappen(m: Memory, e: MemoryEvent, projects: Projects) {
    match e
    case Begin(p) => p !in m.held
    case End(p) => p in m.held
    case Call(op, _) => Control(op) && (op.Transition? ==> projects(op.campaignId) !in m.held)
  }

  function Next(m: Memory, e: MemoryEvent, projects: Projects): Memory
    requires CanHappen(m, e, projects)
  {
    match e
    case Begin(p) => m.(held := m.held + {p})
    case End(p) => m.(held := m.held - {p})
    case Call(op, version) => m.(versions := m.versions[op.campaignId := version])
  }

  ghost predicate Occur(m: Memory, events: seq<MemoryEvent>, projects: Projects)
    decreases events
  {
    events == [] || (CanHappen(m, events[0], projects) && Occur(Next(m, events[0], projects), events[1..], projects))
  }

  /** What a body in memory lets commit: all but a transition of a campaign of its Project. */
  predicate MemoryAllows(projectId: string, op: Op, projects: Projects)
    requires Control(op)
  {
    !(op.Transition? && projects(op.campaignId) == projectId)
  }

  /** From the start of a body to its end, in memory: a call that commits is one it lets. */
  lemma {:induction false} MemoryBodyLets(m: Memory, events: seq<MemoryEvent>, projectId: string, projects: Projects,
                                          i: nat)
    requires projectId in m.held && Occur(m, events, projects) && End(projectId) !in events
    requires i < |events| && events[i].Call?
    ensures Control(events[i].op) && MemoryAllows(projectId, events[i].op, projects)
    decreases events
  {
    if i > 0 {
      assert events[0] in events;
      MemoryBodyLets(Next(m, events[0], projects), events[1..], projectId, projects, i - 1);
    }
  }

  /** And each of those can. */
  lemma {:induction false} MemoryBodyLetsEach(versions: map<string, int>, projectId: string, op: Op, version: int,
                                              projects: Projects)
    requires Control(op)
    ensures CanHappen(Memory(versions, {projectId}), Call(op, version), projects) <==>
      MemoryAllows(projectId, op, projects)
  {
  }

  // --- in Postgres ---

  /** What a body in Postgres lets commit: whatever is on no campaign it holds. */
  predicate PostgresAllows(campaignIds: seq<string>, op: Op)
    requires Control(op)
  {
    Writes(op).value !in campaignIds
  }

  /** The operation commits in this run. */
  ghost predicate CommitsIn(w: World, events: seq<Event>, op: Op)
    requires Happens(w, events)
    decreases events
  {
    events != [] &&
    ((events[0].Commit? && w.sessions[events[0].session].op == op) || CommitsIn(After(w, events[0]), events[1..], op))
  }

  ghost predicate SparesHolder(events: seq<Event>, h: nat) {
    forall e :: e in events ==> e != Abort(h) && !(e.Commit? && e.session == h)
  }

  /** From the start of a body to its end, in Postgres: a call that commits is one it lets. */
  lemma {:induction false} PostgresBodyLets(w: World, events: seq<Event>, h: nat, op: Op)
    requires Sound(w) && Holding(w, h) && Happens(w, events) && SparesHolder(events, h)
    requires Control(op) && CommitsIn(w, events, op)
    ensures PostgresAllows(w.sessions[h].op.campaignIds, op)
    decreases events
  {
    var e := events[0];
    assert e in events;
    if e.Commit? && w.sessions[e.session].op == op {
      if id :| id in w.sessions[h].op.campaignIds && id == Writes(op).value {
        CommitSparesHeld(w, e.session, e.version, h, id);
      }
    } else {
      EventKeepsSound(w, e);
      HolderStays(w, e, h);
      PostgresBodyLets(After(w, e), events[1..], h, op);
    }
  }

  /** A holder's body, with nothing else open. */
  function BodyAlone(versions: map<string, int>, hold: Op): World
    requires hold.Hold?
  {
    var n := |hold.campaignIds|;
    World(versions, map[0 := Session(hold, n, FirstRows(hold.campaignIds, n))])
  }

  lemma {:induction false} CommitsLater(w: World, e: Event, rest: seq<Event>, op: Op)
    requires Enabled(w, e) && Happens(After(w, e), rest) && CommitsIn(After(w, e), rest, op)
    ensures Happens(w, [e] + rest) && CommitsIn(w, [e] + rest, op)
  {
    StepThen(w, e, rest);
    assert ([e] + rest)[0] == e && ([e] + rest)[1..] == rest;
  }

  /** Nothing another session holds is in the way of what this one has still to take. */
  ghost predicate Unhindered(w: World, s: nat) {
    && s in w.sessions && w.sessions[s].next <= |Program(w.sessions[s].op)|
    && forall k :: w.sessions[s].next <= k < |Program(w.sessions[s].op)| ==> Free(w, s, Program(w.sessions[s].op)[k])
  }

  lemma {:induction false} UnhinderedNext(w: World, s: nat)
    requires Unhindered(w, s) && w.sessions[s].Waiting()
    ensures Enabled(w, Acquire(s)) && Unhindered(After(w, Acquire(s)), s)
    ensures var mine, next := w.sessions[s], After(w, Acquire(s)).sessions[s];
      next.op == mine.op && next.next == mine.next + 1
  {
    AcquireNext(w, s, w.sessions[s].next);
    var w', op := After(w, Acquire(s)), w.sessions[s].op;
    forall k | w'.sessions[s].next <= k < |Program(op)|
      ensures Free(w', s, Program(op)[k])
    {
      assert Free(w, s, Program(op)[k]);
    }
  }

  /** An unhindered session takes its locks and commits. */
  lemma {:induction false} Finishes(w: World, s: nat, version: int) returns (events: seq<Event>)
    requires Unhindered(w, s)
    ensures Happens(w, events) && CommitsIn(w, events, w.sessions[s].op)
    ensures forall e :: e in events ==> e == Acquire(s) || e == Commit(s, version)
    decreases |Program(w.sessions[s].op)| - w.sessions[s].next
  {
    if w.sessions[s].Waiting() {
      UnhinderedNext(w, s);
      var rest := Finishes(After(w, Acquire(s)), s, version);
      CommitsLater(w, Acquire(s), rest, w.sessions[s].op);
      events := [Acquire(s)] + rest;
    } else {
      events := [Commit(s, version)];
      StepThen(w, Commit(s, version), []);
      assert [Commit(s, version)] + [] == events;
    }
  }

  /** And each of those can. */
  lemma {:induction false} PostgresBodyLetsEach(versions: map<string, int>, hold: Op, op: Op, version: int)
    returns (events: seq<Event>)
    requires hold.Hold? && Proper(hold) && Control(op) && PostgresAllows(hold.campaignIds, op)
    ensures var w := BodyAlone(versions, hold);
      Happens(w, events) && SparesHolder(events, 0) && CommitsIn(w, events, op)
  {
    var w := BodyAlone(versions, hold);
    var w1 := After(w, Start(1, op));
    assert forall l :: l in w.sessions[0].held ==> l.resource.CampaignRow? && l.resource.campaignId in hold.campaignIds;
    var rest := Finishes(w1, 1, version);
    CommitsLater(w, Start(1, op), rest, op);
    events := [Start(1, op)] + rest;
  }

  // --- where the two differ ---

  /** The two bodies let the same operation commit if and only if it is a transition of the Project's
      exactly where its campaign is one of those held. */
  lemma {:induction false} BodiesAgreeExactly(projectId: string, campaignIds: seq<string>, op: Op, projects: Projects)
    requires Control(op)
    ensures MemoryAllows(projectId, op, projects) == PostgresAllows(campaignIds, op) <==>
      (op.Transition? && projects(op.campaignId) == projectId <==> Writes(op).value in campaignIds)
  {
  }

  /** A mark of a held campaign's intent, which adds to the log the body read, commits in memory and
      waits in Postgres; a transition of a campaign created inside the body waits in memory and commits
      in Postgres. */
  lemma {:induction false} BodiesDifferExample()
    ensures var projects := (id: string) => "p";
      && MemoryAllows("p", MarkLaunched("c", "l"), projects) && !PostgresAllows(["c"], MarkLaunched("c", "l"))
      && !MemoryAllows("p", Transition("new", None), projects) && PostgresAllows(["c"], Transition("new", None))
  {
    assert "new" != "c" by { assert |"new"| == 3; }
  }
}
