/** Launching an intent across the boundary no transaction spans: the cycle is created under its
    launch id, then the intent is marked. Any number of launchers repeat and crash in between. */
module Launches {
  import opened Basics
  import opened CampaignLifecycle
  import opened Campaigns
  import opened CampaignHistory

  /** What a caller stores and gets back. */
  datatype Cycle = Cycle(cycleId: string, campaignId: string, about: string)

  /** A row of the table: the cycle, and the launch it was created for. */
  datatype CycleRow = CycleRow(cycle: Cycle, launchId: Option<string>)

  function FindCycle(rows: seq<CycleRow>, cycleId: string): Option<CycleRow> {
    if rows == [] then None
    else if rows[|rows| - 1].cycle.cycleId == cycleId then Some(rows[|rows| - 1])
    else FindCycle(rows[..|rows| - 1], cycleId)
  }

  function FindLaunch(rows: seq<CycleRow>, launchId: string): Option<CycleRow> {
    if rows == [] then None
    else if rows[|rows| - 1].launchId == Some(launchId) then Some(rows[|rows| - 1])
    else FindLaunch(rows[..|rows| - 1], launchId)
  }

  datatype CycleReply = Stored(cycle: Cycle) | Invalid | IdTaken

  /** `INSERT … ON CONFLICT (source_launch_id) DO NOTHING`, then the winner's row: the arbiter is the
      launch id alone, so a cycle id already taken raises. */
  function CreateForLaunch(rows: seq<CycleRow>, cycle: Cycle, launchId: string): (seq<CycleRow>, CycleReply) {
    if launchId == "" || cycle.campaignId == "" then (rows, Invalid)
    else if FindLaunch(rows, launchId).Some? then (rows, Stored(FindLaunch(rows, launchId).value.cycle))
    else if FindCycle(rows, cycle.cycleId).Some? then (rows, IdTaken)
    else (rows + [CycleRow(cycle, Some(launchId))], Stored(cycle))
  }

  /** `create_cycle`, of no launch. */
  function CreateCycle(rows: seq<CycleRow>, cycle: Cycle): (seq<CycleRow>, CycleReply) {
    if FindCycle(rows, cycle.cycleId).Some? then (rows, IdTaken) else (rows + [CycleRow(cycle, None)], Stored(cycle))
  }

  /** The two tables, what each launcher that created and has not yet marked holds, and every answer
      `create_cycle_for_launch` has given. */
  datatype World = World(registry: Registry, rows: seq<CycleRow>, held: map<nat, CycleRow>,
                         answers: seq<(string, Cycle)>)

  datatype Event =
    | CreateFor(launcher: nat, cycle: Cycle, launchId: string)
    | MarkHeld(launcher: nat, actor: string, stamp: Stamp)
    | Crash(launcher: nat)
    | Plain(cycle: Cycle)
    | Control(call: Call, stamp: Stamp)

  /** One event. A launcher marks what it was answered; nobody else marks. */
  function After(w: World, e: Event, closing: Closing): World {
    match e
    case CreateFor(launcher, cycle, launchId) =>
      var (rows, reply) := CreateForLaunch(w.rows, cycle, launchId);
      if reply.Stored? then
        World(w.registry, rows, w.held[launcher := CycleRow(reply.cycle, Some(launchId))],
              w.answers + [(launchId, reply.cycle)])
      else w
    case MarkHeld(launcher, actor, stamp) =>
      if launcher !in w.held || w.held[launcher].launchId.None? then w
      else
        var row := w.held[launcher];
        w.(registry := Step(w.registry, Mark(row.launchId.value, row.cycle.cycleId, actor), stamp, closing),
           held := w.held - {launcher})
    case Crash(launcher) => w.(held := w.held - {launcher})
    case Plain(cycle) => w.(rows := CreateCycle(w.rows, cycle).0)
    case Control(call, stamp) => if call.Mark? then w else w.(registry := Step(w.registry, call, stamp, closing))
  }

  function AfterAll(w: World, events: seq<Event>, closing: Closing): World
    decreases events
  {
    if events == [] then w else AfterAll(After(w, events[0], closing), events[1..], closing)
  }

  // --- exactly once ---

  ghost predicate Unique(rows: seq<CycleRow>) {
    && (forall i, j :: 0 <= i < j < |rows| ==> rows[i].cycle.cycleId != rows[j].cycle.cycleId)
    && (forall i, j :: 0 <= i < j < |rows| && rows[i].launchId.Some? ==> rows[i].launchId != rows[j].launchId)
  }

  /** The launch's cycle, in the table. */
  ghost predicate IsLaunched(rows: seq<CycleRow>, launchId: string, cycle: Cycle) {
    CycleRow(cycle, Some(launchId)) in rows
  }

  ghost predicate NamesItsCycle(rows: seq<CycleRow>, intent: Intent) {
    intent.cycleId.Some? ==> exists c :: IsLaunched(rows, intent.launchId, c) && c.cycleId == intent.cycleId.value
  }

  ghost predicate IntentsNamed(rows: seq<CycleRow>, intents: map<string, Intent>) {
    forall l :: l in intents ==>
      (intents[l].state == Launched ==> intents[l].cycleId.Some?) && NamesItsCycle(rows, intents[l])
  }

  ghost predicate Exact(w: World) {
    && Sound(w.registry)
    && Unique(w.rows)
    && (forall launcher :: launcher in w.held ==> w.held[launcher] in w.rows && w.held[launcher].launchId.Some?)
    && (forall i :: 0 <= i < |w.answers| ==> IsLaunched(w.rows, w.answers[i].0, w.answers[i].1))
    && IntentsNamed(w.rows, w.registry.intents)
  }

  lemma {:induction false} Finds(rows: seq<CycleRow>, cycleId: string, launchId: string)
    ensures var c := FindCycle(rows, cycleId);
      if c.Some? then c.value in rows && c.value.cycle.cycleId == cycleId
      else forall r :: r in rows ==> r.cycle.cycleId != cycleId
    ensures var c := FindLaunch(rows, launchId);
      if c.Some? then c.value in rows && c.value.launchId == Some(launchId)
      else forall r :: r in rows ==> r.launchId != Some(launchId)
  {
    if rows == [] {
    } else {
      Finds(rows[..|rows| - 1], cycleId, launchId);
      assert rows == rows[..|rows| - 1] + [rows[|rows| - 1]];
    }
  }

  lemma {:induction false} RowJoins(rows: seq<CycleRow>, row: CycleRow, intents: map<string, Intent>)
    requires Unique(rows) && IntentsNamed(rows, intents)
    requires FindCycle(rows, row.cycle.cycleId).None?
      && (row.launchId.Some? ==> FindLaunch(rows, row.launchId.value).None?)
    ensures Unique(rows + [row]) && IntentsNamed(rows + [row], intents)
  {
    Finds(rows, row.cycle.cycleId, row.launchId.Or(""));
    forall l | l in intents && intents[l].cycleId.Some?
      ensures NamesItsCycle(rows + [row], intents[l])
    {
      assert NamesItsCycle(rows, intents[l]);
      var c :| IsLaunched(rows, intents[l].launchId, c) && c.cycleId == intents[l].cycleId.value;
      assert IsLaunched(rows + [row], intents[l].launchId, c);
    }
  }

  /** Every control operation but a mark leaves the intents named: it writes a pending intent, or
      supersedes one that keeps its cycle. A mark names the launcher's cycle. */
  lemma {:induction false} StepKeepsNamed(rows: seq<CycleRow>, r: Registry, c: Call, stamp: Stamp, closing: Closing)
    requires Sound(r) && IntentsNamed(rows, r.intents)
    requires c.Mark? ==> exists cycle :: IsLaunched(rows, c.launchId, cycle) && cycle.cycleId == c.cycleId
    ensures IntentsNamed(rows, Step(r, c, stamp, closing).intents)
  {
    var id, w := Target(r, c), Decide(r, c, stamp, closing).0;
    if w.Move? {
      assert Good(r, id);
      WritesNamed(rows, r, c, stamp, closing);
      PutKeepsNamed(rows, r.intents, w.intent);
      PutKeepsNamed(rows, Put(r.intents, w.intent), w.superseded);
    }
  }

  ghost predicate Named(rows: seq<CycleRow>, intent: Option<Intent>) {
    intent.Some? ==>
      (intent.value.state == Launched ==> intent.value.cycleId.Some?) && NamesItsCycle(rows, intent.value)
  }

  lemma {:induction false} PutKeepsNamed(rows: seq<CycleRow>, intents: map<string, Intent>, intent: Option<Intent>)
    requires IntentsNamed(rows, intents) && Named(rows, intent)
    ensures IntentsNamed(rows, Put(intents, intent))
  {
  }

  lemma {:induction false} WritesNamed(rows: seq<CycleRow>, r: Registry, c: Call, stamp: Stamp, closing: Closing)
    requires Sound(r) && IntentsNamed(rows, r.intents) && Decide(r, c, stamp, closing).0.Move?
    requires c.Mark? ==> exists cycle :: IsLaunched(rows, c.launchId, cycle) && cycle.cycleId == c.cycleId
    ensures var w := Decide(r, c, stamp, closing).0; Named(rows, w.intent) && Named(rows, w.superseded)
  {
    match c
    case Mark(l, cycleId, actor) =>
      MoveNamed(rows, r, Target(r, c), MarkTransition(l, cycleId, actor), Some((r.intents[l], cycleId)), [], stamp,
                closing);
    case Transit(id, t) => MoveNamed(rows, r, id, t, None, [], stamp, closing);
    case ChangeLease(id, t, runsInFlight) => MoveNamed(rows, r, id, t, None, runsInFlight, stamp, closing);
  }

  lemma {:induction false} MoveNamed(rows: seq<CycleRow>, r: Registry, id: string, t: Transition,
                                     marks: Option<(Intent, string)>, runsInFlight: seq<string>, stamp: Stamp,
                                     closing: Closing)
    requires id in r.campaigns && id in r.log && IntentsNamed(rows, r.intents)
    requires marks.Some? ==>
      exists cycle :: IsLaunched(rows, marks.value.0.launchId, cycle) && cycle.cycleId == marks.value.1
    ensures var w := DecideCommit(r, id, t, marks, runsInFlight, stamp, closing).0;
      w.Move? ==> Named(rows, w.intent) && Named(rows, w.superseded)
  {
    var superseded := IntentAt(r.intents, t.supersedes);
    if superseded.Some? { assert NamesItsCycle(rows, superseded.value); }
  }

  lemma {:induction false} CreateKeepsExact(w: World, e: Event, closing: Closing)
    requires Exact(w) && e.CreateFor?
    ensures Exact(After(w, e, closing))
  {
    Finds(w.rows, e.cycle.cycleId, e.launchId);
    if FindLaunch(w.rows, e.launchId).None? && FindCycle(w.rows, e.cycle.cycleId).None? {
      RowJoins(w.rows, CycleRow(e.cycle, Some(e.launchId)), w.registry.intents);
    }
  }

  /** Every event, in any order, keeps launches exact. */
  lemma {:induction false} EventKeepsExact(w: World, e: Event, closing: Closing)
    requires Exact(w)
    ensures Exact(After(w, e, closing))
  {
    match e
    case CreateFor(_, _, _) => CreateKeepsExact(w, e, closing);
    case MarkHeld(launcher, actor, stamp) =>
      if launcher in w.held {
        var row := w.held[launcher];
        assert IsLaunched(w.rows, row.launchId.value, row.cycle);
        var c := Mark(row.launchId.value, row.cycle.cycleId, actor);
        StepKeepsNamed(w.rows, w.registry, c, stamp, closing);
        SoundKept(w.registry, c, stamp, closing);
      }
    case Crash(_) =>
    case Plain(cycle) =>
      if FindCycle(w.rows, cycle.cycleId).None? { RowJoins(w.rows, CycleRow(cycle, None), w.registry.intents); }
    case Control(c, stamp) =>
      if !c.Mark? {
        StepKeepsNamed(w.rows, w.registry, c, stamp, closing);
        SoundKept(w.registry, c, stamp, closing);
      }
  }

  lemma {:induction false} RunKeepsExact(w: World, events: seq<Event>, closing: Closing)
    requires Exact(w)
    ensures Exact(AfterAll(w, events, closing))
    decreases events
  {
    if events == [] {
    } else {
      EventKeepsExact(w, events[0], closing);
      RunKeepsExact(After(w, events[0], closing), events[1..], closing);
    }
  }

  const START := World(EMPTY, [], map[], [])

  lemma {:induction false} OneRow(rows: seq<CycleRow>, row: CycleRow)
    requires Unique(rows) && row in rows
    ensures forall r :: r in rows && r.cycle.cycleId == row.cycle.cycleId ==> r == row
    ensures forall r :: r in rows && r.launchId == row.launchId && r.launchId.Some? ==> r == row
  {
  }

  /** From the empty tables, whatever launchers do: every caller of one launch was answered with the
      same cycle, callers of two launches with two, and a launched intent names its launch's only
      cycle, the one its callers were answered with. */
  lemma {:induction false} LaunchedExactlyOnce(events: seq<Event>, closing: Closing, i: nat, j: nat)
    requires var w := AfterAll(START, events, closing); i < |w.answers| && j < |w.answers|
    ensures var w := AfterAll(START, events, closing);
      && (w.answers[i].0 == w.answers[j].0 ==> w.answers[i].1 == w.answers[j].1)
      && (w.answers[i].0 != w.answers[j].0 ==> w.answers[i].1.cycleId != w.answers[j].1.cycleId)
      && (forall r :: r in w.rows && r.launchId == Some(w.answers[i].0) ==> r.cycle == w.answers[i].1)
      && (forall l :: l in w.registry.intents && w.registry.intents[l].state == Launched ==>
            && w.registry.intents[l].cycleId.Some?
            && (l == w.answers[i].0 ==> w.registry.intents[l].cycleId.value == w.answers[i].1.cycleId))
  {
    RunKeepsExact(START, events, closing);
    var w := AfterAll(START, events, closing);
    OneRow(w.rows, CycleRow(w.answers[i].1, Some(w.answers[i].0)));
    OneRow(w.rows, CycleRow(w.answers[j].1, Some(w.answers[j].0)));
    forall l | l in w.registry.intents && w.registry.intents[l].state == Launched && l == w.answers[i].0
      ensures w.registry.intents[l].cycleId.value == w.answers[i].1.cycleId
    {
      assert NamesItsCycle(w.rows, w.registry.intents[l]);
    }
  }

  /** The intent is known, and no applied row of its campaign holds its mark's key. */
  predicate MarkFree(r: Registry, launchId: string) {
    && launchId in r.intents && r.intents[launchId].campaignId in r.log
    && AppliedWithKey(r.log[r.intents[launchId].campaignId], MarkKey(launchId)).None?
  }

  /** A mark launches its intent when no row holds its key, and leaves the intents alone otherwise. */
  lemma {:induction false} MarkLaunches(r: Registry, launchId: string, cycleId: string, actor: string, stamp: Stamp,
                                        closing: Closing)
    requires Sound(r) && launchId in r.intents
    ensures var marked := LaunchedIntent(r.intents[launchId], cycleId, stamp.now);
      Step(r, Mark(launchId, cycleId, actor), stamp, closing).intents ==
        if MarkFree(r, launchId) then r.intents[launchId := marked] else r.intents
  {
    assert Good(r, r.intents[launchId].campaignId);
  }

  lemma {:induction false} CreateFinds(rows: seq<CycleRow>, cycle: Cycle, launchId: string)
    requires launchId != "" && cycle.campaignId != ""
    requires FindLaunch(rows, launchId).Some? || FindCycle(rows, cycle.cycleId).None?
    ensures var (rows', reply) := CreateForLaunch(rows, cycle, launchId);
      && FindLaunch(rows', launchId).Some? && reply == Stored(FindLaunch(rows', launchId).value.cycle)
      && (FindLaunch(rows, launchId).Some? ==> rows' == rows)
  {
    assert (rows + [CycleRow(cycle, Some(launchId))])[..|rows|] == rows;
  }

  lemma {:induction false} LaunchedIsFound(w: World, launchId: string)
    requires Exact(w) && launchId in w.registry.intents && w.registry.intents[launchId].state == Launched
    ensures FindLaunch(w.rows, launchId).Some?
    ensures w.registry.intents[launchId].cycleId == Some(FindLaunch(w.rows, launchId).value.cycle.cycleId)
  {
    var intent := w.registry.intents[launchId];
    assert NamesItsCycle(w.rows, intent) && intent.launchId == launchId;
    var c :| IsLaunched(w.rows, launchId, c) && c.cycleId == intent.cycleId.value;
    Finds(w.rows, "", launchId);
    OneRow(w.rows, CycleRow(c, Some(launchId)));
  }

  /** The world after a launcher creates and marks without crashing. */
  function Launch(w: World, cycle: Cycle, launchId: string, launcher: nat, actor: string, stamp: Stamp,
                  closing: Closing): World {
    After(After(w, CreateFor(launcher, cycle, launchId), closing), MarkHeld(launcher, actor, stamp), closing)
  }

  lemma {:induction false} LaunchIs(w: World, cycle: Cycle, launchId: string, launcher: nat, actor: string,
                                    stamp: Stamp, closing: Closing)
    requires launchId != "" && cycle.campaignId != ""
    requires FindLaunch(w.rows, launchId).Some? || FindCycle(w.rows, cycle.cycleId).None?
    ensures var w' := Launch(w, cycle, launchId, launcher, actor, stamp, closing);
      var made := FindLaunch(w'.rows, launchId);
      && made.Some? && w'.rows == CreateForLaunch(w.rows, cycle, launchId).0
      && w'.answers == w.answers + [(launchId, made.value.cycle)]
      && w'.registry == Step(w.registry, Mark(launchId, made.value.cycle.cycleId, actor), stamp, closing)
  {
    CreateFinds(w.rows, cycle, launchId);
  }

  /** A launcher that creates and marks, first or again, is answered with the launch's one cycle,
      whoever created it. The intent is then launched if and only if it was or no row held the mark's
      key, and it names that cycle: an intent already launched keeps the cycle it named. */
  lemma {:induction false} LaunchCompletes(w: World, cycle: Cycle, launchId: string, launcher: nat, actor: string,
                                           stamp: Stamp, closing: Closing)
    requires Exact(w) && launchId in w.registry.intents && launchId != "" && cycle.campaignId != ""
    requires FindLaunch(w.rows, launchId).Some? || FindCycle(w.rows, cycle.cycleId).None?
    ensures var w' := Launch(w, cycle, launchId, launcher, actor, stamp, closing);
      var made := FindLaunch(w'.rows, launchId);
      var before := w.registry.intents[launchId];
      && made.Some? && w'.answers == w.answers + [(launchId, made.value.cycle)]
      && launchId in w'.registry.intents
      && (w'.registry.intents[launchId].state == Launched <==>
            before.state == Launched || MarkFree(w.registry, launchId))
      && (w'.registry.intents[launchId].state == Launched ==>
            w'.registry.intents[launchId].cycleId == Some(made.value.cycle.cycleId))
      && (before.state == Launched ==> w'.registry.intents[launchId].cycleId == before.cycleId && w'.rows == w.rows)
  {
    CreateFinds(w.rows, cycle, launchId);
    LaunchIs(w, cycle, launchId, launcher, actor, stamp, closing);
    var made := FindLaunch(CreateForLaunch(w.rows, cycle, launchId).0, launchId).value;
    MarkLaunches(w.registry, launchId, made.cycle.cycleId, actor, stamp, closing);
    if w.registry.intents[launchId].state == Launched { LaunchedIsFound(w, launchId); }
  }

  // --- what each creation comes to ---

  /** A launch id names one row, and a cycle id too. */
  lemma {:induction false} FindsTheOne(rows: seq<CycleRow>, i: nat)
    requires Unique(rows) && i < |rows|
    ensures FindCycle(rows, rows[i].cycle.cycleId) == Some(rows[i])
    ensures rows[i].launchId.Some? ==> FindLaunch(rows, rows[i].launchId.value) == Some(rows[i])
  {
    if i < |rows| - 1 { FindsTheOne(rows[..|rows| - 1], i); }
  }

  ghost predicate HasCycle(rows: seq<CycleRow>, cycleId: string) {
    exists i :: 0 <= i < |rows| && rows[i].cycle.cycleId == cycleId
  }

  ghost predicate HasLaunch(rows: seq<CycleRow>, launchId: string) {
    exists i :: 0 <= i < |rows| && rows[i].launchId == Some(launchId)
  }

  /** A launch that has a cycle is answered with it; one that has none gets the cycle given, unless
      another has its id; and nothing is written in any other case. */
  lemma {:induction false} LaunchIsExact(rows: seq<CycleRow>, cycle: Cycle, launchId: string)
    requires Unique(rows)
    ensures var (rows', reply) := CreateForLaunch(rows, cycle, launchId);
      var named, again := launchId != "" && cycle.campaignId != "", HasLaunch(rows, launchId);
      && (reply.Invalid? <==> !named)
      && (forall i :: named && 0 <= i < |rows| && rows[i].launchId == Some(launchId) ==> reply == Stored(rows[i].cycle))
      && (reply.IdTaken? <==> named && !again && HasCycle(rows, cycle.cycleId))
      && (named && !again && !HasCycle(rows, cycle.cycleId) ==> reply == Stored(cycle))
      && (if reply == Stored(cycle) && !again then rows' == rows + [CycleRow(cycle, Some(launchId))] else rows' == rows)
  {
    Finds(rows, cycle.cycleId, launchId);
    forall i | 0 <= i < |rows|
      ensures rows[i].launchId == Some(launchId) ==> FindLaunch(rows, launchId) == Some(rows[i])
    {
      FindsTheOne(rows, i);
    }
  }

  /** A plain creation is stored, of no launch, exactly when its id is new. */
  lemma {:induction false} CreateIsExact(rows: seq<CycleRow>, cycle: Cycle)
    ensures var (rows', reply) := CreateCycle(rows, cycle);
      if HasCycle(rows, cycle.cycleId) then reply == IdTaken && rows' == rows
      else reply == Stored(cycle) && rows' == rows + [CycleRow(cycle, None)]
  {
    Finds(rows, cycle.cycleId, "");
  }
}
