/** The in-memory cycle registry: dictionaries changed in place, against the Postgres tables. */
module CycleRegistry {
  import opened Basics
  import opened Launches
  import opened Checkpoints

  /** The cycles by id, and each launch's cycle id. */
  datatype Dictionaries = Dictionaries(cycles: map<string, Cycle>, byLaunch: map<string, string>)
  {
    predicate Known() {
      forall l :: l in byLaunch ==> byLaunch[l] in cycles
    }
  }

  /** `create_cycle`, which looks for nothing. */
  function MemoryCreate(m: Dictionaries, cycle: Cycle): Dictionaries {
    m.(cycles := m.cycles[cycle.cycleId := cycle])
  }

  function MemoryLaunch(m: Dictionaries, cycle: Cycle, launchId: string): (Dictionaries, CycleReply)
    requires m.Known()
  {
    if launchId == "" || cycle.campaignId == "" then (m, Invalid)
    else if launchId in m.byLaunch then (m, CycleReply.Stored(m.cycles[m.byLaunch[launchId]]))
    else if cycle.cycleId in m.cycles then (m, IdTaken)
    else (Dictionaries(m.cycles[cycle.cycleId := cycle], m.byLaunch[launchId := cycle.cycleId]),
          CycleReply.Stored(cycle))
  }

  // --- against the table ---

  ghost predicate SameCycles(rows: seq<CycleRow>, m: Dictionaries) {
    forall id ::
      if id in m.cycles then FindCycle(rows, id).Some? && FindCycle(rows, id).value.cycle == m.cycles[id]
      else FindCycle(rows, id).None?
  }

  ghost predicate SameLaunches(rows: seq<CycleRow>, m: Dictionaries)
    requires m.Known()
  {
    forall l ::
      if l in m.byLaunch then FindLaunch(rows, l).Some? && FindLaunch(rows, l).value.cycle == m.cycles[m.byLaunch[l]]
      else FindLaunch(rows, l).None?
  }

  /** The dictionaries answer every lookup as the table does. */
  ghost predicate Mirrors(rows: seq<CycleRow>, m: Dictionaries) {
    m.Known() && SameCycles(rows, m) && SameLaunches(rows, m)
  }

  lemma {:induction false} RowFound(rows: seq<CycleRow>, row: CycleRow)
    ensures forall id ::
      FindCycle(rows + [row], id) == if row.cycle.cycleId == id then Some(row) else FindCycle(rows, id)
    ensures forall l ::
      FindLaunch(rows + [row], l) == if row.launchId == Some(l) then Some(row) else FindLaunch(rows, l)
  {
    assert (rows + [row])[..|rows|] == rows;
  }

  lemma {:induction false} LaunchesAlike(rows: seq<CycleRow>, m: Dictionaries, cycle: Cycle, launchId: string)
    requires Mirrors(rows, m)
    ensures var (m', reply) := MemoryLaunch(m, cycle, launchId);
      var (rows', reply') := CreateForLaunch(rows, cycle, launchId);
      reply == reply' && Mirrors(rows', m')
  {
    RowFound(rows, CycleRow(cycle, Some(launchId)));
  }

  /** The in-memory `create_cycle` answers and leaves what the table's does if and only if the id is
      new: a taken one it overwrites. */
  lemma {:induction false} CreatesAlikeExactlyWhenNew(rows: seq<CycleRow>, m: Dictionaries, cycle: Cycle)
    requires Mirrors(rows, m)
    ensures var (rows', reply) := CreateCycle(rows, cycle);
      reply == CycleReply.Stored(cycle) && Mirrors(rows', MemoryCreate(m, cycle)) <==> cycle.cycleId !in m.cycles
  {
    RowFound(rows, CycleRow(cycle, None));
  }

  // --- what an overwrite does to a launch ---

  datatype Event = LaunchCycle(cycle: Cycle, launchId: string) | PlainCycle(cycle: Cycle)

  /** The dictionaries, and every answer a launch was given. */
  datatype MemoryWorld = MemoryWorld(m: Dictionaries, answers: seq<(string, Cycle)>)

  function After(w: MemoryWorld, e: Event): MemoryWorld
    requires w.m.Known()
  {
    match e
    case PlainCycle(cycle) => w.(m := MemoryCreate(w.m, cycle))
    case LaunchCycle(cycle, launchId) =>
      var (m, reply) := MemoryLaunch(w.m, cycle, launchId);
      MemoryWorld(m, if reply.Stored? then w.answers + [(launchId, reply.cycle)] else w.answers)
  }

  /** What a launch has been answered is what it is answered next. */
  ghost predicate AnswersStand(m: Dictionaries, answers: seq<(string, Cycle)>)
    requires m.Known()
  {
    forall i :: 0 <= i < |answers| ==> answers[i].0 in m.byLaunch && m.cycles[m.byLaunch[answers[i].0]] == answers[i].1
  }

  ghost predicate Answered(answers: seq<(string, Cycle)>, launchId: string) {
    exists i :: 0 <= i < |answers| && answers[i].0 == launchId
  }

  ghost predicate OneCycleEach(byLaunch: map<string, string>) {
    forall l, k :: l in byLaunch && k in byLaunch && l != k ==> byLaunch[l] != byLaunch[k]
  }

  /** Answers stand, every launch known has been answered, and no two launches share a cycle. */
  ghost predicate Settled(w: MemoryWorld) {
    && w.m.Known() && AnswersStand(w.m, w.answers) && OneCycleEach(w.m.byLaunch)
    && forall l :: l in w.m.byLaunch ==> Answered(w.answers, l)
  }

  /** A plain creation that puts another cycle under a launch's id. */
  ghost predicate Overwrites(m: Dictionaries, e: Event) {
    && e.PlainCycle? && e.cycle.cycleId in m.cycles && m.cycles[e.cycle.cycleId] != e.cycle
    && exists l :: l in m.byLaunch && m.byLaunch[l] == e.cycle.cycleId
  }

  lemma {:induction false} PlainSettledUnlessOverwritten(w: MemoryWorld, cycle: Cycle)
    requires Settled(w)
    ensures Settled(After(w, PlainCycle(cycle))) <==> !Overwrites(w.m, PlainCycle(cycle))
  {
    var w' := After(w, PlainCycle(cycle));
    if Overwrites(w.m, PlainCycle(cycle)) {
      var l :| l in w.m.byLaunch && w.m.byLaunch[l] == cycle.cycleId;
      assert Answered(w.answers, l);
      var i :| 0 <= i < |w.answers| && w.answers[i].0 == l;
      assert w'.m.cycles[w'.m.byLaunch[w'.answers[i].0]] != w.answers[i].1;
    } else {
      forall i | 0 <= i < |w.answers|
        ensures w'.m.cycles[w'.m.byLaunch[w.answers[i].0]] == w.answers[i].1
      {
        assert w.answers[i].0 in w.m.byLaunch;
      }
    }
  }

  lemma {:induction false} AnsweredStays(answers: seq<(string, Cycle)>, answer: (string, Cycle))
    ensures Answered(answers + [answer], answer.0)
    ensures forall l :: Answered(answers, l) ==> Answered(answers + [answer], l)
  {
    var all := answers + [answer];
    assert all[|answers|] == answer;
    forall l | Answered(answers, l)
      ensures Answered(all, l)
    {
      var i :| 0 <= i < |answers| && answers[i].0 == l;
      assert all[i].0 == l;
    }
  }

  lemma {:induction false} NewLaunchSettles(w: MemoryWorld, cycle: Cycle, launchId: string)
    requires Settled(w) && launchId !in w.m.byLaunch && cycle.cycleId !in w.m.cycles
    ensures var m := Dictionaries(w.m.cycles[cycle.cycleId := cycle], w.m.byLaunch[launchId := cycle.cycleId]);
      Settled(MemoryWorld(m, w.answers + [(launchId, cycle)]))
  {
    AnsweredStays(w.answers, (launchId, cycle));
  }

  lemma {:induction false} LaunchStaysSettled(w: MemoryWorld, cycle: Cycle, launchId: string)
    requires Settled(w)
    ensures Settled(After(w, LaunchCycle(cycle, launchId)))
  {
    if launchId != "" && cycle.campaignId != "" {
      if launchId in w.m.byLaunch {
        AnsweredStays(w.answers, (launchId, w.m.cycles[w.m.byLaunch[launchId]]));
      } else if cycle.cycleId !in w.m.cycles {
        NewLaunchSettles(w, cycle, launchId);
      }
    }
  }

  lemma {:induction false} SettledUnlessOverwritten(w: MemoryWorld, e: Event)
    requires Settled(w)
    ensures After(w, e).m.Known()
    ensures Settled(After(w, e)) <==> !Overwrites(w.m, e)
  {
    match e
    case PlainCycle(cycle) => PlainSettledUnlessOverwritten(w, cycle);
    case LaunchCycle(cycle, launchId) => LaunchStaysSettled(w, cycle, launchId);
  }

  ghost predicate SettledThroughout(w: MemoryWorld, events: seq<Event>)
    decreases events
  {
    Settled(w) && (events != [] ==> SettledThroughout(After(w, events[0]), events[1..]))
  }

  ghost predicate NoneOverwrites(w: MemoryWorld, events: seq<Event>)
    requires w.m.Known()
    decreases events
  {
    events != [] ==>
      !Overwrites(w.m, events[0]) && After(w, events[0]).m.Known() && NoneOverwrites(After(w, events[0]), events[1..])
  }

  /** In memory, every caller of a launch is answered alike throughout a run, and callers of two
      launches with two cycles, if and only if no plain creation overwrote a launch's cycle. */
  lemma {:induction false} LaunchesHoldExactlyUnlessOverwritten(w: MemoryWorld, events: seq<Event>)
    requires Settled(w)
    ensures SettledThroughout(w, events) <==> NoneOverwrites(w, events)
    decreases events
  {
    if events == [] {
    } else {
      SettledUnlessOverwritten(w, events[0]);
      if Settled(After(w, events[0])) { LaunchesHoldExactlyUnlessOverwritten(After(w, events[0]), events[1..]); }
    }
  }

  const NOTHING := MemoryWorld(Dictionaries(map[], map[]), [])

  /** The same from an empty registry. */
  lemma {:induction false} LaunchesHoldFromEmpty(events: seq<Event>)
    ensures SettledThroughout(NOTHING, events) <==> NoneOverwrites(NOTHING, events)
  {
    LaunchesHoldExactlyUnlessOverwritten(NOTHING, events);
  }

  /** One launch, answered with two cycles. */
  lemma {:induction false} OverwriteExample()
    ensures var first, other := Cycle("c", "campaign", "launched"), Cycle("c", "", "overwritten");
      var w1 := After(NOTHING, LaunchCycle(first, "l"));
      var w2 := After(w1, PlainCycle(other));
      var w3 := After(w2, LaunchCycle(first, "l"));
      w3.answers == [("l", first), ("l", other)]
  {
  }

  // --- checkpoints, by run ---

  /** The indexes one run retains. */
  function RetainedBy(retained: set<(string, int)>, runId: string): set<int> {
    set p | p in retained && p.0 == runId :: p.1
  }

  lemma {:induction false} RetainedApart(before: set<(string, int)>, after: set<(string, int)>, runId: string,
                                         indexes: set<int>)
    requires after == before + set i | i in indexes :: (runId, i)
    ensures RetainedBy(after, runId) == RetainedBy(before, runId) + indexes
    ensures forall other :: other != runId ==> RetainedBy(after, other) == RetainedBy(before, other)
  {
    assert RetainedBy(after, runId) <= RetainedBy(before, runId) + indexes;
    forall i | i in indexes
      ensures i in RetainedBy(after, runId)
    {
      assert (runId, i) in after;
    }
    forall i | i in RetainedBy(before, runId)
      ensures i in RetainedBy(after, runId)
    {
      assert (runId, i) in after;
    }
    forall other | other != runId
      ensures RetainedBy(after, other) == RetainedBy(before, other)
    {
    }
  }

  class MemoryCycleRegistry {
    var cycles: map<string, Cycle>
    var cycleByLaunch: map<string, string>
    var checkpoints: map<string, seq<Checkpoint>>
    var retained: set<(string, int)>

    ghost function Contents(): Dictionaries
      reads this
    {
      Dictionaries(cycles, cycleByLaunch)
    }

    constructor ()
      ensures Contents() == Dictionaries(map[], map[]) && Mirrors([], Contents()) && checkpoints == map[]
        && retained == {}
    {
      cycles, cycleByLaunch, checkpoints, retained := map[], map[], map[], {};
    }

    /** An id already stored is overwritten, where the table refuses it. */
    method CreateCycle(cycle: Cycle, ghost rows: seq<CycleRow>) returns (stored: Cycle)
      requires Mirrors(rows, Contents())
      modifies this`cycles
      ensures stored == cycle && Contents() == MemoryCreate(old(Contents()), cycle)
      ensures var (rows', reply) := Launches.CreateCycle(rows, cycle);
        reply == CycleReply.Stored(stored) && Mirrors(rows', Contents()) <==> cycle.cycleId !in old(cycles)
    {
      CreatesAlikeExactlyWhenNew(rows, Contents(), cycle);
      cycles := cycles[cycle.cycleId := cycle];
      stored := cycle;
    }

    method CreateCycleForLaunch(cycle: Cycle, launchId: string, ghost rows: seq<CycleRow>) returns (reply: CycleReply)
      requires Mirrors(rows, Contents())
      modifies this`cycles, this`cycleByLaunch
      ensures (Contents(), reply) == MemoryLaunch(old(Contents()), cycle, launchId)
      ensures Mirrors(CreateForLaunch(rows, cycle, launchId).0, Contents())
        && reply == CreateForLaunch(rows, cycle, launchId).1
    {
      LaunchesAlike(rows, Contents(), cycle, launchId);
      if launchId == "" || cycle.campaignId == "" {
        return Invalid;
      }
      if launchId in cycleByLaunch {
        return CycleReply.Stored(cycles[cycleByLaunch[launchId]]);
      }
      if cycle.cycleId in cycles {
        return IdTaken;
      }
      cycleByLaunch := cycleByLaunch[launchId := cycle.cycleId];
      cycles := cycles[cycle.cycleId := cycle];
      return CycleReply.Stored(cycle);
    }

    /** One run's checkpoints. */
    ghost function RunMemory(runId: string): Memory
      reads this
    {
      Memory(if runId in checkpoints then checkpoints[runId] else [], RetainedBy(retained, runId))
    }

    method SaveCheckpoint(runId: string, checkpoint: Checkpoint, maxKeep: nat, retain: bool)
      modifies this`checkpoints, this`retained
      ensures RunMemory(runId) == MemorySave(old(RunMemory(runId)), Save(checkpoint, maxKeep, retain))
      ensures forall other :: other != runId ==> RunMemory(other) == old(RunMemory(other))
    {
      if runId !in checkpoints {
        checkpoints := checkpoints[runId := []];
      }
      checkpoints := checkpoints[runId := checkpoints[runId] + [checkpoint]];
      if retain {
        retained := retained + {(runId, checkpoint.index)};
      }
      var mine := RetainedBy(retained, runId);
      var rows := checkpoints[runId];
      if |rows| > maxKeep {
        checkpoints := checkpoints[runId := Select(rows, Indexes(Newest(rows, maxKeep)) + mine)];
      }
      RetainedApart(old(retained), retained, runId, if retain then {checkpoint.index} else {});
    }
  }
}
