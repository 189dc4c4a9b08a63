/** A unit's memory snapshot, re-bound by writers that read it, compute from what they read, and
    write: the write lands only on the version it was read from. */
module Snapshots {
  import opened Basics

  datatype Snapshot = Snapshot(snapshotId: string, version: int, body: string)

  datatype Reply = Done | Moved | NotPinned

  /** A unit is a kind and an id. */
  type Unit = (string, string)

  /** One bound instruction's row: its entry, its unit and when it was bound. */
  datatype Bound = Bound(entry: string, unit: Unit, boundAt: int)

  /** An instruction's record and revision, and its entry. */
  datatype Instruction = Instruction(recordId: string, revision: int, entry: string)
  {
    function Key(): (string, int) {
      (recordId, revision)
    }
  }

  /** `setdefault`: the first pin is the unit's. */
  function Pinned(held: map<Unit, Snapshot>, unit: Unit, snapshot: Snapshot): map<Unit, Snapshot> {
    if unit in held then held else held[unit := snapshot]
  }

  function Landing(held: map<Unit, Snapshot>, unit: Unit, next: Snapshot): Reply {
    if unit !in held then NotPinned
    else if held[unit].snapshotId != next.snapshotId || held[unit].version != next.version - 1 then Moved
    else Done
  }

  /** The rows of a cycle's binding once these instructions are bound: one written first stays. */
  function Binding(held: map<(string, int), Bound>, entries: seq<Instruction>, unit: Unit,
                   boundAt: int): map<(string, int), Bound> {
    if entries == [] then held
    else
      var before, last := Binding(held, entries[..|entries| - 1], unit, boundAt), entries[|entries| - 1];
      if last.Key() in before then before else before[last.Key() := Bound(last.entry, unit, boundAt)]
  }

  class InMemoryStore {
    var snapshots: map<Unit, Snapshot>
    var cycleBindings: map<string, map<(string, int), Bound>>

    constructor ()
      ensures snapshots == map[] && cycleBindings == map[]
    {
      snapshots, cycleBindings := map[], map[];
    }

    /** The first snapshot pinned is the unit's, and a later caller gets what has become of it. */
    method RecordSnapshot(unit: Unit, snapshot: Snapshot) returns (held: Snapshot)
      modifies this`snapshots
      ensures unit in snapshots && held == snapshots[unit]
      ensures snapshots == Pinned(old(snapshots), unit, snapshot)
    {
      if unit !in snapshots {
        snapshots := snapshots[unit := snapshot];
      }
      held := snapshots[unit];
    }

    method RebindSnapshot(unit: Unit, next: Snapshot) returns (reply: Reply)
      modifies this`snapshots
      ensures reply == Landing(old(snapshots), unit, next)
      ensures snapshots == if reply.Done? then old(snapshots)[unit := next] else old(snapshots)
    {
      if unit !in snapshots {
        return NotPinned;
      }
      var held := snapshots[unit];
      if held.snapshotId != next.snapshotId || held.version != next.version - 1 {
        return Moved;
      }
      snapshots := snapshots[unit := next];
      return Done;
    }

    method RecordCycleBindings(cycleId: string, unit: Unit, entries: seq<Instruction>, boundAt: int)
      modifies this`cycleBindings
      ensures cycleId in cycleBindings
      ensures cycleBindings[cycleId] ==
        Binding(if cycleId in old(cycleBindings) then old(cycleBindings)[cycleId] else map[], entries, unit, boundAt)
      ensures cycleBindings - {cycleId} == old(cycleBindings) - {cycleId}
    {
      var held := if cycleId in cycleBindings then cycleBindings[cycleId] else map[];
      ghost var before := held;
      for i := 0 to |entries|
        invariant held == Binding(before, entries[..i], unit, boundAt)
      {
        assert entries[..i + 1][..i] == entries[..i];
        var key := entries[i].Key();
        if key !in held {
          held := held[key := Bound(entries[i].entry, unit, boundAt)];
        }
      }
      assert entries[..|entries|] == entries;
      cycleBindings := cycleBindings[cycleId := held];
    }
  }

  /** The first of the instructions under a key. */
  ghost predicate First(entries: seq<Instruction>, i: int, key: (string, int)) {
    0 <= i < |entries| && entries[i].Key() == key && forall j :: 0 <= j < i ==> entries[j].Key() != key
  }

  lemma {:induction false} FirstStays(entries: seq<Instruction>, key: (string, int))
    requires entries != []
    ensures var n := |entries| - 1;
      && (forall i :: First(entries[..n], i, key) ==> First(entries, i, key))
      && ((exists i :: First(entries, i, key)) <==> (exists i :: First(entries[..n], i, key)) || First(entries, n, key))
  {
    var n := |entries| - 1;
    forall i | First(entries, i, key) && i < n
      ensures First(entries[..n], i, key)
    {
    }
  }

  /** An entry a cycle holds never changes; every instruction asked for is held afterwards; and a row
      that is new is the first of its instructions. */
  lemma {:induction false} BindingOnlyAdds(held: map<(string, int), Bound>, entries: seq<Instruction>, unit: Unit,
                                           boundAt: int, key: (string, int))
    ensures var after := Binding(held, entries, unit, boundAt);
      && (key in held ==> key in after && after[key] == held[key])
      && (key in after <==> key in held || exists i :: First(entries, i, key))
      && (key in after && key !in held ==> forall i :: First(entries, i, key) ==>
            after[key] == Bound(entries[i].entry, unit, boundAt))
  {
    if entries == [] {
    } else {
      var n := |entries| - 1;
      BindingOnlyAdds(held, entries[..n], unit, boundAt, key);
      FirstStays(entries, key);
      if entries[n].Key() == key && key !in Binding(held, entries[..n], unit, boundAt) {
        FirstOrEarlier(entries, key);
      }
    }
  }

  lemma {:induction false} FirstOrEarlier(entries: seq<Instruction>, key: (string, int))
    requires entries != [] && entries[|entries| - 1].Key() == key
    ensures var n := |entries| - 1; First(entries, n, key) || exists i :: First(entries[..n], i, key)
  {
    var n := |entries| - 1;
    if j :| 0 <= j < n && entries[j].Key() == key {
      var i := LeastWith(entries[..n], key, j);
    }
  }

  lemma {:induction false} LeastWith(entries: seq<Instruction>, key: (string, int), j: nat) returns (i: nat)
    requires j < |entries| && entries[j].Key() == key
    ensures First(entries, i, key)
  {
    if k :| 0 <= k < j && entries[k].Key() == key {
      i := LeastWith(entries, key, k);
    } else {
      i := j;
    }
  }

  // --- pins and writers racing on any number of units ---

  /** A writer's copy: the unit, and its snapshot as it was read. */
  datatype Copy = Copy(unit: Unit, snapshot: Snapshot)

  /** The store, what each writer last got from it, and the history: each unit's first pin, and the
      edits accepted of it since. */
  datatype World = World(
    held: map<Unit, Snapshot>, copies: map<nat, Copy>, first: map<Unit, Snapshot>,
    accepted: map<Unit, seq<string -> string>>)

  datatype Event =
    | Pin(writer: nat, unit: Unit, snapshot: Snapshot)
    | Read(writer: nat, unit: Unit)
    | Rebind(writer: nat, edit: string -> string)

  function AcceptedOf(w: World, unit: Unit): seq<string -> string> {
    if unit in w.accepted then w.accepted[unit] else []
  }

  /** A writer's new snapshot: its edit of what it read, one version on. */
  function Edited(s: Snapshot, edit: string -> string): Snapshot {
    s.(version := s.version + 1, body := edit(s.body))
  }

  function After(w: World, e: Event): World {
    match e
    case Pin(writer, unit, snapshot) =>
      var held := Pinned(w.held, unit, snapshot);
      World(held, w.copies[writer := Copy(unit, held[unit])],
            if unit in w.held then w.first else w.first[unit := snapshot], w.accepted)
    case Read(writer, unit) => if unit in w.held then w.(copies := w.copies[writer := Copy(unit, w.held[unit])]) else w
    case Rebind(writer, edit) =>
      if writer !in w.copies then w
      else
        var unit, next := w.copies[writer].unit, Edited(w.copies[writer].snapshot, edit);
        if Landing(w.held, unit, next).Done?
        then w.(held := w.held[unit := next], accepted := w.accepted[unit := AcceptedOf(w, unit) + [edit]])
        else w
  }

  function AfterAll(w: World, events: seq<Event>): World
    decreases events
  {
    if events == [] then w else AfterAll(After(w, events[0]), events[1..])
  }

  /** The edits applied in turn, each to what the one before it left. */
  function Chain(body: string, edits: seq<string -> string>): string {
    if edits == [] then body else edits[|edits| - 1](Chain(body, edits[..|edits| - 1]))
  }

  /** The first pin, and every accepted edit since. */
  function Grown(first: Snapshot, edits: seq<string -> string>): Snapshot {
    Snapshot(first.snapshotId, first.version + |edits|, Chain(first.body, edits))
  }

  /** A unit is held exactly when it was pinned, as its first pin's chain; none is edited before. */
  ghost predicate ChainedAt(w: World, unit: Unit) {
    && (unit in w.held <==> unit in w.first) && (unit !in w.held ==> AcceptedOf(w, unit) == [])
    && (unit in w.held ==> w.held[unit] == Grown(w.first[unit], AcceptedOf(w, unit)))
  }

  /** A copy is of a unit still held, and at the held version it is what is held. */
  ghost predicate CopyOf(held: map<Unit, Snapshot>, c: Copy) {
    && c.unit in held && c.snapshot.snapshotId == held[c.unit].snapshotId && c.snapshot.version <= held[c.unit].version
    && (c.snapshot.version == held[c.unit].version ==> c.snapshot == held[c.unit])
  }

  ghost predicate Chained(w: World) {
    && (forall unit {:trigger ChainedAt(w, unit)} :: ChainedAt(w, unit))
    && (forall writer :: writer in w.copies ==> CopyOf(w.held, w.copies[writer]))
  }

  lemma {:induction false} GrownNext(first: Snapshot, edits: seq<string -> string>, edit: string -> string)
    ensures Grown(first, edits + [edit]) == Edited(Grown(first, edits), edit)
  {
    assert (edits + [edit])[..|edits|] == edits;
  }

  lemma {:induction false} PinKeepsChain(w: World, e: Event)
    requires Chained(w) && !e.Rebind?
    ensures Chained(After(w, e))
  {
    var w' := After(w, e);
    forall unit
      ensures ChainedAt(w', unit)
    {
      assert ChainedAt(w, unit);
    }
  }

  /** A re-bind lands exactly when the writer's copy is what is held, and it adds its edit. */
  lemma {:induction false} RebindLandsExactlyOnCurrent(w: World, writer: nat, edit: string -> string)
    requires Chained(w) && writer in w.copies
    ensures var c := w.copies[writer];
      Landing(w.held, c.unit, Edited(c.snapshot, edit)).Done? <==> c.snapshot == w.held[c.unit]
  {
    assert CopyOf(w.held, w.copies[writer]);
  }

  lemma {:induction false} RebindKeepsChain(w: World, e: Event)
    requires Chained(w) && e.Rebind? && e.writer in w.copies
    ensures Chained(After(w, e))
  {
    var w', unit := After(w, e), w.copies[e.writer].unit;
    RebindLandsExactlyOnCurrent(w, e.writer, e.edit);
    if w' != w {
      assert ChainedAt(w, unit);
      GrownNext(w.first[unit], AcceptedOf(w, unit), e.edit);
      forall u
        ensures ChainedAt(w', u)
      {
        assert ChainedAt(w, u);
      }
    }
  }

  lemma {:induction false} EventKeepsChain(w: World, e: Event)
    requires Chained(w)
    ensures Chained(After(w, e))
  {
    if !e.Rebind? {
      PinKeepsChain(w, e);
    } else if e.writer in w.copies {
      RebindKeepsChain(w, e);
    }
  }

  /** Over any interleaving of pins, reads and re-binds: every unit's snapshot is its first pin with
      every accepted edit applied in turn, each to the result of the one before it. No accepted edit
      is lost, and a later pin gets the unit as it then stands. */
  lemma {:induction false} NoEditIsLost(w: World, events: seq<Event>)
    requires Chained(w)
    ensures Chained(AfterAll(w, events))
    decreases events
  {
    if events == [] {
    } else {
      EventKeepsChain(w, events[0]);
      NoEditIsLost(After(w, events[0]), events[1..]);
    }
  }

  lemma {:induction false} FirstStands(w: World, e: Event, unit: Unit)
    requires ChainedAt(w, unit) && unit in w.first
    ensures unit in After(w, e).first && After(w, e).first[unit] == w.first[unit]
    ensures AcceptedOf(w, unit) <= AcceptedOf(After(w, e), unit)
  {
  }

  /** Whoever pins a unit, at any later point of any run, gets the first pin with the edits accepted
      since: never its own, and never one edit fewer than an earlier caller got. */
  lemma {:induction false} LaterPinsGetTheFirst(w: World, events: seq<Event>, unit: Unit, writer: nat,
                                                snapshot: Snapshot)
    requires Chained(w) && unit in w.first
    ensures var w' := AfterAll(w, events); var got := After(w', Pin(writer, unit, snapshot));
      && got.held == w'.held && writer in got.copies
      && got.copies[writer] == Copy(unit, Grown(w.first[unit], AcceptedOf(w', unit)))
      && AcceptedOf(w, unit) <= AcceptedOf(w', unit)
    decreases events
  {
    assert ChainedAt(w, unit);
    if events == [] {
    } else {
      FirstStands(w, events[0], unit);
      EventKeepsChain(w, events[0]);
      LaterPinsGetTheFirst(After(w, events[0]), events[1..], unit, writer, snapshot);
    }
  }

  const START := World(map[], map[], map[], map[])

  /** The same from the empty store, over any run. */
  lemma {:induction false} EverySnapshotIsItsChain(events: seq<Event>, unit: Unit)
    ensures ChainedAt(AfterAll(START, events), unit)
  {
    forall u
      ensures ChainedAt(START, u)
    {
    }
    NoEditIsLost(START, events);
  }

  /** After any run, what lands on a unit is exactly the next version of the snapshot first pinned:
      never another snapshot's, and never one computed from an earlier version. */
  lemma {:induction false} LandsExactlyAsNext(w: World, events: seq<Event>, unit: Unit, next: Snapshot)
    requires Chained(w)
    ensures var w' := AfterAll(w, events); var reply := Landing(w'.held, unit, next);
      && (reply.NotPinned? <==> unit !in w'.first)
      && (reply.Done? <==>
            && unit in w'.first && next.snapshotId == w'.first[unit].snapshotId
            && next.version == w'.first[unit].version + |AcceptedOf(w', unit)| + 1)
  {
    NoEditIsLost(w, events);
    assert ChainedAt(AfterAll(w, events), unit);
  }
}
