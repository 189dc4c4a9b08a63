/** `create_run` from many callers at once: each transaction numbers its run from the highest number
    in its own snapshot, and the unique index refuses a number another committed first. */
module RunNumbers {
  import opened Basics
  import opened Numbering

  /** The database: which cycles are cancelled, and every committed run. A row's document is its
      run id, the table's primary key. */
  datatype Database = Database(cancelled: map<string, bool>, runs: seq<Row<string>>)

  datatype Failure = CycleNotFound | CycleCancelled | RunExists | NumberTaken | RolledBack

  datatype Phase =
    | Between
    | Open(snapshot: Database)
    | Done(number: int)
    | Failed(failure: Failure)

  /** One caller. `began` and `losses` are bookkeeping: the cycle's runs when the call began, and the
      attempts that met the index. */
  datatype Caller = Caller(cycle: string, runId: string, left: nat, phase: Phase, began: nat, losses: nat)

  datatype World = World(db: Database, callers: map<nat, Caller>)

  datatype Event =
    | Call(caller: nat, cycle: string, runId: string, attempts: nat)
    | Begin(caller: nat)
    | Finish(caller: nat)
    | RollBack(caller: nat)
    | AddCycle(cycle: string)
    | CancelCycle(cycle: string)

  predicate Committed(runs: seq<Row<string>>, runId: string) {
    exists i :: 0 <= i < |runs| && runs[i].document == runId
  }

  datatype Outcome = Commits(number: int) | Loses | Conflicts | Fails(failure: Failure)

  /** What one transaction comes to: its reads are its snapshot's, the row lock meets a cycle changed
      since, and the insert meets the committed rows. */
  function Attempt(snapshot: Database, db: Database, cycle: string, runId: string): Outcome {
    if cycle !in snapshot.cancelled then Fails(CycleNotFound)
    else if cycle !in db.cancelled || db.cancelled[cycle] != snapshot.cancelled[cycle] then Conflicts
    else if snapshot.cancelled[cycle] then Fails(CycleCancelled)
    else if Committed(db.runs, runId) then Fails(RunExists)
    else
      var number := Latest(snapshot.runs, cycle) + 1;
      if Find(db.runs, cycle, number).Some? then Loses else Commits(number)
  }

  /** A rolled-back attempt is tried again while tries are left. */
  function Again(c: Caller, failure: Failure): Caller {
    c.(phase := if c.left == 0 then Failed(failure) else Between)
  }

  function AfterAttempt(w: World, id: nat): World
    requires id in w.callers && w.callers[id].phase.Open?
  {
    var c := w.callers[id];
    match Attempt(c.phase.snapshot, w.db, c.cycle, c.runId)
    case Commits(number) =>
      World(w.db.(runs := w.db.runs + [Row(c.cycle, number, c.runId)]), w.callers[id := c.(phase := Done(number))])
    case Loses => w.(callers := w.callers[id := Again(c.(losses := c.losses + 1), NumberTaken)])
    case Conflicts => w.(callers := w.callers[id := Again(c, RolledBack)])
    case Fails(failure) => w.(callers := w.callers[id := c.(phase := Failed(failure))])
  }

  function After(w: World, e: Event): World {
    match e
    case Call(id, cycle, runId, attempts) =>
      if id in w.callers then w
      else w.(callers := w.callers[id := Caller(cycle, runId, attempts, Between, |RowsOf(w.db.runs, cycle)|, 0)])
    case Begin(id) =>
      if id !in w.callers || !w.callers[id].phase.Between? || w.callers[id].left == 0 then w
      else w.(callers := w.callers[id := w.callers[id].(left := w.callers[id].left - 1, phase := Open(w.db))])
    case Finish(id) => if id !in w.callers || !w.callers[id].phase.Open? then w else AfterAttempt(w, id)
    case RollBack(id) =>
      if id !in w.callers || !w.callers[id].phase.Open? then w
      else w.(callers := w.callers[id := Again(w.callers[id], RolledBack)])
    case AddCycle(cycle) =>
      if cycle in w.db.cancelled then w else w.(db := w.db.(cancelled := w.db.cancelled[cycle := false]))
    case CancelCycle(cycle) =>
      if cycle !in w.db.cancelled then w else w.(db := w.db.(cancelled := w.db.cancelled[cycle := true]))
  }

  function AfterAll(w: World, events: seq<Event>): World
    decreases events
  {
    if events == [] then w else AfterAll(After(w, events[0]), events[1..])
  }

  // --- snapshots lag, numbers do not ---

  ghost predicate Prefix(before: seq<Row<string>>, after: seq<Row<string>>) {
    |before| <= |after| && before == after[..|before|]
  }

  lemma {:induction false} RowsGrow(before: seq<Row<string>>, after: seq<Row<string>>, cycle: string)
    requires Prefix(before, after)
    ensures |RowsOf(before, cycle)| <= |RowsOf(after, cycle)|
    ensures RowsOf(before, cycle) == RowsOf(after, cycle)[..|RowsOf(before, cycle)|]
    decreases |after|
  {
    if |before| == |after| {
      assert before == after;
    } else {
      RowsGrow(before, after[..|after| - 1], cycle);
    }
  }

  lemma {:induction false} PrefixSequential(before: seq<Row<string>>, after: seq<Row<string>>)
    requires Prefix(before, after) && Sequential(after)
    ensures Sequential(before)
  {
    forall owner, i | 0 <= i < |RowsOf(before, owner)|
      ensures RowsOf(before, owner)[i].number == i + 1
    {
      RowsGrow(before, after, owner);
      assert RowsOf(after, owner)[i] == RowsOf(before, owner)[i];
    }
  }

  /** A number drawn from a snapshot is taken exactly when the cycle gained a run since. Otherwise it
      is the next. */
  lemma {:induction false} LosesExactlyWhenBehind(snapshot: seq<Row<string>>, runs: seq<Row<string>>, cycle: string)
    requires Prefix(snapshot, runs) && Sequential(runs)
    ensures Find(runs, cycle, Latest(snapshot, cycle) + 1).Some? <==> |RowsOf(snapshot, cycle)| < |RowsOf(runs, cycle)|
    ensures Find(runs, cycle, Latest(snapshot, cycle) + 1).None? ==> Latest(snapshot, cycle) == Latest(runs, cycle)
  {
    RowsGrow(snapshot, runs, cycle);
    PrefixSequential(snapshot, runs);
    SequentialIsCounted(snapshot, cycle);
    SequentialIsCounted(runs, cycle);
  }

  /** A caller's snapshot is a past of the table, and every lost number was another's commit during
      the call. */
  ghost predicate Accounted(db: Database, c: Caller) {
    match c.phase
    case Open(snapshot) => Prefix(snapshot.runs, db.runs) && c.began + c.losses <= |RowsOf(snapshot.runs, c.cycle)|
    case Done(number) => Find(db.runs, c.cycle, number) == Some(c.runId) && c.began + c.losses < number
    case Failed(failure) => c.began + c.losses <= |RowsOf(db.runs, c.cycle)| && (failure.NumberTaken? ==> 0 < c.losses)
    case Between => c.began + c.losses <= |RowsOf(db.runs, c.cycle)|
  }

  ghost predicate Exact(w: World) {
    && Sequential(w.db.runs)
    && (forall i, j :: 0 <= i < j < |w.db.runs| ==> w.db.runs[i].document != w.db.runs[j].document)
    && (forall id :: id in w.callers ==> Accounted(w.db, w.callers[id]))
  }

  lemma {:induction false} StaysAccounted(db: Database, row: Row<string>, c: Caller)
    requires Accounted(db, c)
    ensures Accounted(db.(runs := db.runs + [row]), c)
  {
    Unfold(db.runs, row);
  }

  /** The next number keeps the table exact, and every other caller accounted. */
  lemma {:induction false} CommitKeepsExact(w: World, row: Row<string>)
    requires Exact(w) && row.number == Latest(w.db.runs, row.owner) + 1 && !Committed(w.db.runs, row.document)
    ensures Exact(w.(db := w.db.(runs := w.db.runs + [row])))
  {
    NextKeepsSequential(w.db.runs, row);
    forall id | id in w.callers
      ensures Accounted(w.db.(runs := w.db.runs + [row]), w.callers[id])
    {
      StaysAccounted(w.db, row, w.callers[id]);
    }
  }

  lemma {:induction false} AttemptAccounted(db: Database, c: Caller)
    requires Sequential(db.runs) && c.phase.Open? && Accounted(db, c)
    ensures match Attempt(c.phase.snapshot, db, c.cycle, c.runId)
      case Commits(number) =>
        && number == Latest(db.runs, c.cycle) + 1 && !Committed(db.runs, c.runId)
        && Accounted(db.(runs := db.runs + [Row(c.cycle, number, c.runId)]), c.(phase := Done(number)))
      case Loses => Accounted(db, Again(c.(losses := c.losses + 1), NumberTaken))
      case Conflicts => Accounted(db, Again(c, RolledBack))
      case Fails(failure) => Accounted(db, c.(phase := Failed(failure)))
  {
    var snapshot := c.phase.snapshot;
    RowsGrow(snapshot.runs, db.runs, c.cycle);
    LosesExactlyWhenBehind(snapshot.runs, db.runs, c.cycle);
    SequentialIsCounted(db.runs, c.cycle);
    var outcome := Attempt(snapshot, db, c.cycle, c.runId);
    if outcome.Commits? { Unfold(db.runs, Row(c.cycle, outcome.number, c.runId)); }
  }

  lemma {:induction false} AttemptKeepsExact(w: World, id: nat)
    requires Exact(w) && id in w.callers && w.callers[id].phase.Open?
    ensures Exact(AfterAttempt(w, id))
  {
    var c := w.callers[id];
    AttemptAccounted(w.db, c);
    var outcome := Attempt(c.phase.snapshot, w.db, c.cycle, c.runId);
    if outcome.Commits? { CommitKeepsExact(w, Row(c.cycle, outcome.number, c.runId)); }
  }

  lemma {:induction false} EventKeepsExact(w: World, e: Event)
    requires Exact(w)
    ensures Exact(After(w, e))
  {
    match e
    case Finish(id) => if id in w.callers && w.callers[id].phase.Open? { AttemptKeepsExact(w, id); }
    case RollBack(id) =>
      if id in w.callers && w.callers[id].phase.Open? {
        RowsGrow(w.callers[id].phase.snapshot.runs, w.db.runs, w.callers[id].cycle);
      }
    case _ =>
  }

  lemma {:induction false} RunKeepsExact(w: World, events: seq<Event>)
    requires Exact(w)
    ensures Exact(AfterAll(w, events))
    decreases events
  {
    if events == [] {
    } else {
      EventKeepsExact(w, events[0]);
      RunKeepsExact(After(w, events[0]), events[1..]);
    }
  }

  const START := World(Database(map[], []), map[])

  /** After any interleaving, a cycle's run numbers are exactly 1..n, each under its own run; a caller
      that returned a number has that run under it; and each time a call met the index, the cycle had
      gained one more run since the call began. */
  lemma {:induction false} NumbersAreExact(events: seq<Event>, cycle: string, i: nat, id: nat)
    ensures var w := AfterAll(START, events); var mine := RowsOf(w.db.runs, cycle);
      && (i < |mine| ==> mine[i].number == i + 1)
      && (id in w.callers && w.callers[id].phase.Done? ==>
            Find(w.db.runs, w.callers[id].cycle, w.callers[id].phase.number) == Some(w.callers[id].runId))
      && (id in w.callers && w.callers[id].phase.Failed? ==>
            && w.callers[id].began + w.callers[id].losses <= |RowsOf(w.db.runs, w.callers[id].cycle)|
            && (w.callers[id].phase.failure.NumberTaken? ==> 0 < w.callers[id].losses))
  {
    RunKeepsExact(START, events);
    var w := AfterAll(START, events);
    if id in w.callers { assert Accounted(w.db, w.callers[id]); }
  }

  /** An attempt either adds its one run, numbered next, or adds nothing. */
  lemma {:induction false} AttemptAddsOneOrNothing(w: World, id: nat)
    requires Exact(w) && id in w.callers && w.callers[id].phase.Open?
    ensures var c := w.callers[id]; var w' := AfterAttempt(w, id);
      if w'.callers[id].phase.Done?
      then w'.db.runs == w.db.runs + [Row(c.cycle, |RowsOf(w.db.runs, c.cycle)| + 1, c.runId)]
        && !Committed(w.db.runs, c.runId)
      else w'.db == w.db
    ensures var c := w.callers[id];
      Attempt(c.phase.snapshot, w.db, c.cycle, c.runId) == Loses ==>
        |RowsOf(c.phase.snapshot.runs, c.cycle)| < |RowsOf(w.db.runs, c.cycle)|
  {
    var c := w.callers[id];
    LosesExactlyWhenBehind(c.phase.snapshot.runs, w.db.runs, c.cycle);
    SequentialIsCounted(w.db.runs, c.cycle);
  }

  /** The cycle is there, and cancelled or not as the snapshot has it. */
  ghost predicate Stands(c: Caller, db: Database, cancelled: bool)
    requires c.phase.Open?
  {
    && c.cycle in c.phase.snapshot.cancelled && c.cycle in db.cancelled
    && c.phase.snapshot.cancelled[c.cycle] == db.cancelled[c.cycle] == cancelled
  }

  /** An attempt commits exactly when its cycle stands and is not cancelled, its run id is new and the
      cycle gained no run since the snapshot; it meets the index exactly when only the last fails. That,
      and a cycle changed since the snapshot, are tried again while tries are left; nothing else is. */
  lemma {:induction false} AttemptIsExact(w: World, id: nat)
    requires Exact(w) && id in w.callers && w.callers[id].phase.Open?
    ensures var c := w.callers[id]; var w' := AfterAttempt(w, id); var c' := w'.callers[id];
      var live := Stands(c, w.db, false);
      var isNew := !exists i :: 0 <= i < |w.db.runs| && w.db.runs[i].document == c.runId;
      var gained := |RowsOf(c.phase.snapshot.runs, c.cycle)| < |RowsOf(w.db.runs, c.cycle)|;
      && (c'.phase.Done? <==> live && isNew && !gained)
      && (c'.phase.Done? ==> c'.phase.number == |RowsOf(w.db.runs, c.cycle)| + 1)
      && (c'.losses == c.losses + (if live && isNew && gained then 1 else 0))
      && (c'.phase == Failed(CycleNotFound) <==> c.cycle !in c.phase.snapshot.cancelled)
      && (c'.phase == Failed(CycleCancelled) <==> Stands(c, w.db, true))
      && (c'.phase == Failed(RunExists) <==> live && !isNew)
      && (c'.phase == Failed(NumberTaken) <==> live && isNew && gained && c.left == 0)
      && (c'.phase == Failed(RolledBack) <==>
            c.cycle in c.phase.snapshot.cancelled && !live && !Stands(c, w.db, true) && c.left == 0)
      && c'.left == c.left && w'.callers == w.callers[id := c']
  {
    var c := w.callers[id];
    assert Accounted(w.db, c);
    RowsGrow(c.phase.snapshot.runs, w.db.runs, c.cycle);
    LosesExactlyWhenBehind(c.phase.snapshot.runs, w.db.runs, c.cycle);
    SequentialIsCounted(w.db.runs, c.cycle);
  }
}
