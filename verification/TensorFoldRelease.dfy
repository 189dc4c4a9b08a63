/** One request at a time: a TensorFold request left before its `[DONE]` must be gone from the server
    before the adapter sends another. */
module TensorFoldRelease {
  import opened Basics

  // --- waiting for an abandoned request ---

  /** One look at the server's gauges, unreadable as `None`, and whether it was the last in time. */
  datatype Look = Look(seen: Option<int>, late: bool)

  function Allowed(unreleased: int): int {
    if unreleased < 0 then 0 else unreleased
  }

  predicate Quiet(unreleased: int, look: Look) {
    look.seen.Some? && look.seen.value <= Allowed(unreleased)
  }

  /** Some look before the deadline's saw no more than the request found when it was sent. */
  ghost predicate SeenQuiet(unreleased: int, looks: seq<Look>) {
    exists k :: 0 <= k < |looks| && Quiet(unreleased, looks[k]) && forall i :: 0 <= i < k ==> !looks[i].late
  }

  class Adapter {
    var unreleased: Option<int>

    /** `_confirm_released`: polls until the server is quiet or time is up. Unconfirmed stays
        pending for the next call. */
    method ConfirmReleased(looks: seq<Look>) returns (confirmed: bool)
      modifies this
      ensures confirmed <==> old(unreleased).None? || SeenQuiet(old(unreleased).value, looks)
      ensures unreleased == if confirmed then None else old(unreleased)
    {
      if unreleased.None? {
        return true;
      }
      for i := 0 to |looks|
        invariant unreleased == old(unreleased)
        invariant forall k :: 0 <= k < i ==> !Quiet(unreleased.value, looks[k]) && !looks[k].late
      {
        if Quiet(unreleased.value, looks[i]) {
          unreleased := None;
          return true;
        }
        if looks[i].late {
          return false;
        }
      }
      return false;
    }
  }

  // --- the protocol ---

  datatype Phase =
    | Idle
    | Confirmed
    | Ready(before: int)
    | Streaming(before: int)

  /** The adapter's mark and where its call is, and the requests the server is running. */
  datatype World = World(unreleased: Option<int>, phase: Phase, running: nat)

  /** `Lost` is a call cancelled before its 200 was read, whether the server took the request or
      not. A `Finish` may be read before the server lets the request go. */
  datatype Event =
    | Confirm(readable: bool)
    | Count(readable: bool)
    | GiveUp
    | Accepted
    | Lost(taken: bool)
    | Finish(released: bool)
    | Abandon
    | Vanish

  function Fewer(n: nat): nat {
    if n == 0 then 0 else n - 1
  }

  function After(w: World, e: Event): World {
    match e
    case Confirm(readable) =>
      if !w.phase.Idle? then w
      else if w.unreleased.None? then w.(phase := Confirmed)
      else if readable && w.running <= Allowed(w.unreleased.value) then w.(unreleased := None, phase := Confirmed)
      else w
    case Count(readable) => if w.phase.Confirmed? then w.(phase := Ready(if readable then w.running else -1)) else w
    case GiveUp => if w.phase.Confirmed? || w.phase.Ready? then w.(phase := Idle) else w
    case Accepted => if w.phase.Ready? then w.(phase := Streaming(w.phase.before), running := w.running + 1) else w
    case Lost(taken) =>
      if w.phase.Ready? then w.(phase := Idle, running := if taken then w.running + 1 else w.running) else w
    case Finish(released) =>
      if w.phase.Streaming? then w.(phase := Idle, running := if released then Fewer(w.running) else w.running) else w
    case Abandon => if w.phase.Streaming? then World(Some(w.phase.before), Idle, w.running) else w
    case Vanish => w.(running := Fewer(w.running))
  }

  function AfterAll(w: World, events: seq<Event>): World
    decreases events
  {
    if events == [] then w else AfterAll(After(w, events[0]), events[1..])
  }

  /** At most one request runs, and only where the adapter knows of it. */
  predicate Safe(w: World) {
    match w.phase
    case Idle => if w.unreleased.Some? then w.unreleased.value <= 0 && w.running <= 1 else w.running == 0
    case Confirmed => w.unreleased.None? && w.running == 0
    case Ready(before) => w.unreleased.None? && w.running == 0 && before <= 0
    case Streaming(before) => w.unreleased.None? && w.running <= 1 && before <= 0
  }

  /** The server runs a request the adapter has no reason to wait for. */
  predicate Slips(w: World, e: Event) {
    || (e == Lost(true) && w.phase.Ready?)
    || (e == Finish(false) && w.phase.Streaming? && w.running == 1)
  }

  /** One step keeps the protocol safe exactly when no request slips. */
  lemma {:induction false} StepSafeUnlessSlips(w: World, e: Event)
    requires Safe(w)
    ensures Safe(After(w, e)) <==> !Slips(w, e)
  {
  }

  ghost predicate NoneSlips(w: World, events: seq<Event>)
    decreases events
  {
    events != [] ==> !Slips(w, events[0]) && NoneSlips(After(w, events[0]), events[1..])
  }

  ghost predicate SafeThroughout(w: World, events: seq<Event>)
    decreases events
  {
    Safe(w) && (events != [] ==> SafeThroughout(After(w, events[0]), events[1..]))
  }

  /** A run is safe after every step if and only if none of its requests slips. */
  lemma {:induction false} SafeExactlyWhenNoneSlips(w: World, events: seq<Event>)
    requires Safe(w)
    ensures SafeThroughout(w, events) <==> NoneSlips(w, events)
    ensures NoneSlips(w, events) ==> Safe(AfterAll(w, events)) && AfterAll(w, events).running <= 1
    decreases events
  {
    if events == [] {
    } else {
      StepSafeUnlessSlips(w, events[0]);
      if Safe(After(w, events[0])) { SafeExactlyWhenNoneSlips(After(w, events[0]), events[1..]); }
    }
  }

  const START := World(None, Idle, 0)

  /** From an adapter that has sent nothing: over any run in which none slips, the server never runs
      two of its requests, and the run is safe throughout in no other case. */
  lemma {:induction false} NeverTwoInFlight(events: seq<Event>)
    ensures SafeThroughout(START, events) <==> NoneSlips(START, events)
    ensures NoneSlips(START, events) ==> AfterAll(START, events).running <= 1
  {
    SafeExactlyWhenNoneSlips(START, events);
  }

  /** After any slip the next call goes out beside it: whatever its looks read, two are running. */
  lemma {:induction false} SlipPutsTwoInFlight(w: World, slip: Event, confirmed: bool, counted: bool)
    requires Safe(w) && Slips(w, slip)
    ensures AfterAll(w, [slip, Confirm(confirmed), Count(counted), Accepted]).running == 2
  {
    Unroll(w, slip, Confirm(confirmed), Count(counted), Accepted);
  }

  /** The look that lets a mark go: readable, and no more running than when its request was sent. */
  predicate FindsQuiet(w: World, e: Event, pending: int) {
    e == Confirm(true) && w.running <= Allowed(pending)
  }

  /** Between calls, a mark is let go by that look and by nothing else. */
  lemma {:induction false} MarkLastsUnlessQuiet(w: World, e: Event, pending: int)
    requires w.phase.Idle? && w.unreleased == Some(pending)
    ensures var w' := After(w, e);
      if FindsQuiet(w, e, pending) then w' == World(None, Confirmed, w.running)
      else w'.phase.Idle? && w'.unreleased == Some(pending) && w'.running <= w.running
  {
  }

  ghost predicate NeverFoundQuiet(w: World, events: seq<Event>, pending: int)
    decreases events
  {
    events != [] ==> !FindsQuiet(w, events[0], pending) && NeverFoundQuiet(After(w, events[0]), events[1..], pending)
  }

  /** A mark lasts, and nothing is sent, until a look finds the server quiet, however many looks find
      the request still running or read nothing. */
  lemma {:induction false} PendingUntilConfirmed(w: World, events: seq<Event>, pending: int)
    requires w.phase.Idle? && w.unreleased == Some(pending) && NeverFoundQuiet(w, events, pending)
    ensures AfterAll(w, events).unreleased == Some(pending) && AfterAll(w, events).phase.Idle?
    ensures AfterAll(w, events).running <= w.running
    decreases events
  {
    if events == [] {
    } else {
      MarkLastsUnlessQuiet(w, events[0], pending);
      PendingUntilConfirmed(After(w, events[0]), events[1..], pending);
    }
  }

  /** An abandoned request is marked with the count read before it was sent, or with none if that was
      unreadable, and a readable look lets the mark go exactly when no more run than that. */
  lemma {:induction false} AbandonedIsAwaited(w: World, readable: bool, later: nat)
    requires w.phase.Confirmed?
    ensures var left := After(After(After(w, Count(readable)), Accepted), Abandon);
      && left == World(Some(if readable then w.running else -1), Idle, w.running + 1)
      && (After(left.(running := later), Confirm(true)).unreleased.None? <==>
            later <= if readable then w.running else 0)
  {
  }

  /** A call cancelled before its 200 is not marked, so the next is sent beside it; and so is one
      sent before a finished request has left the server. */
  lemma {:induction false} SlippedExamples()
    ensures AfterAll(World(None, Ready(0), 0), [Lost(true), Confirm(true), Count(true), Accepted]).running == 2
    ensures AfterAll(World(None, Streaming(0), 1), [Finish(false), Confirm(true), Count(true), Accepted]).running == 2
  {
    Unroll(World(None, Ready(0), 0), Lost(true), Confirm(true), Count(true), Accepted);
    Unroll(World(None, Streaming(0), 1), Finish(false), Confirm(true), Count(true), Accepted);
  }

  lemma {:induction false} Unroll(w: World, a: Event, b: Event, c: Event, d: Event)
    ensures AfterAll(w, [a, b, c, d]) == After(After(After(After(w, a), b), c), d)
  {
    assert [a, b, c, d][1..] == [b, c, d] && [b, c, d][1..] == [c, d] && [c, d][1..] == [d];
    assert AfterAll(w, [a, b, c, d]) == AfterAll(After(w, a), [b, c, d]);
    assert AfterAll(After(w, a), [b, c, d]) == AfterAll(After(After(w, a), b), [c, d]);
    assert AfterAll(After(After(After(w, a), b), c), [d]) == After(After(After(After(w, a), b), c), d);
  }
}
