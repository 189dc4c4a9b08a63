/** Settling RabbitMQ deliveries, and publishing and retrying a message: a message leaves the broker
    only when it may, through drops and resubscribes. */
module Broker {
  import opened Basics

  datatype AckPolicy = AckAlways | RedeliverOnFailure

  /** What an awaited call comes to: the callback's, the ack's or the nack's. */
  datatype Outcome = Returns | Raises | Cancelled

  datatype Action = Ack | HandBack

  // --- one delivery's dispatch ---

  /** Where `_dispatch_subscription_delivery` is: its callback, the nack and the ack each in its own
      try, or past them. */
  datatype Stage = InCallback | InNack | InAck | Ended

  function Next(stage: Stage, outcome: Outcome, policy: AckPolicy): Stage {
    match stage
    case InCallback =>
      (match outcome
       case Cancelled => Ended
       case Raises => if policy.RedeliverOnFailure? then InNack else InAck
       case Returns => InAck)
    case _ => Ended
  }

  /** What reaches the broker from a stage. */
  function Sends(stage: Stage): seq<Action> {
    match stage
    case InNack => [HandBack]
    case InAck => [Ack]
    case _ => []
  }

  /** Everything a dispatch sends, over the outcomes of the calls it awaits in turn. */
  function Dispatched(stage: Stage, outcomes: seq<Outcome>, policy: AckPolicy): seq<Action>
    decreases outcomes
  {
    if outcomes == [] then [] else Sends(stage) + Dispatched(Next(stage, outcomes[0], policy), outcomes[1..], policy)
  }

  /** What the policy calls for once the callback is done. */
  function Settlement(callback: Outcome, policy: AckPolicy): seq<Action> {
    match callback
    case Cancelled => []
    case Returns => [Ack]
    case Raises => [if policy.RedeliverOnFailure? then HandBack else Ack]
  }

  lemma {:induction false} EndedSendsNothing(outcomes: seq<Outcome>, policy: AckPolicy)
    ensures Dispatched(Ended, outcomes, policy) == []
    decreases outcomes
  {
    if outcomes != [] { EndedSendsNothing(outcomes[1..], policy); }
  }

  /** Whatever its calls come to, a dispatch settles at most once, as the policy has it: a failed nack
      is not followed by an ack, nor a failed ack by anything. */
  lemma {:induction false} SettlesOnce(callback: Outcome, later: seq<Outcome>, policy: AckPolicy)
    ensures var sent := Dispatched(InCallback, [callback] + later, policy);
      sent == if later == [] then [] else Settlement(callback, policy)
  {
    var stage := Next(InCallback, callback, policy);
    assert ([callback] + later)[1..] == later;
    if later != [] { EndedSendsNothing(later[1..], policy); }
  }

  /** `_dispatch_subscription_delivery`: the callback's try, the nack's inside its handler, and the
      ack's after it. `cancelled` is whether a cancellation leaves it. */
  method Dispatch(policy: AckPolicy, callback: Outcome, nack: Outcome, ack: Outcome)
    returns (sent: seq<Action>, cancelled: bool)
    ensures sent == Settlement(callback, policy)
    ensures sent ==
      Dispatched(InCallback, [callback, if Next(InCallback, callback, policy) == InNack then nack else ack], policy)
    ensures cancelled <==>
      callback.Cancelled? || (sent == [HandBack] && nack.Cancelled?) || (sent == [Ack] && ack.Cancelled?)
  {
    SettlesOnce(callback, [if Next(InCallback, callback, policy) == InNack then nack else ack], policy);
    assert [callback] + [if Next(InCallback, callback, policy) == InNack then nack else ack]
        == [callback, if Next(InCallback, callback, policy) == InNack then nack else ack];
    sent := [];
    if callback.Cancelled? {
      return sent, true;
    }
    if callback.Raises? {
      if policy.RedeliverOnFailure? {
        sent := sent + [HandBack];
        if nack.Cancelled? {
          return sent, true;
        }
        return sent, false;
      }
    }
    sent := sent + [Ack];
    if ack.Cancelled? {
      return sent, true;
    }
    return sent, false;
  }

  // --- the broker ---

  datatype Place = Queued | Out(delivery: nat) | Gone

  /** A delivery's dispatch: where it is, how its callback came out, what it has sent, and whether
      that landed. */
  datatype Delivery = Delivery(message: nat, stage: Stage, callback: Option<Outcome>, sent: seq<Action>, landed: bool)

  /** Where the broker has each message, and every delivery made. */
  datatype World = World(places: map<nat, Place>, deliveries: map<nat, Delivery>)

  datatype Event =
    | Publish(message: nat)
    | Deliver(message: nat, delivery: nat)
    | Proceed(delivery: nat, outcome: Outcome, reaches: bool)
    | Drop

  predicate Enabled(w: World, e: Event) {
    match e
    case Publish(m) => m !in w.places
    case Deliver(m, d) => m in w.places && w.places[m].Queued? && d !in w.deliveries
    case Proceed(d, _, _) => d in w.deliveries && !w.deliveries[d].stage.Ended?
    case Drop => true
  }

  /** A settlement lands when it reaches a broker that still has the message out on that delivery. */
  predicate Lands(w: World, d: nat, reaches: bool)
    requires d in w.deliveries
  {
    reaches && Sends(w.deliveries[d].stage) != [] && w.deliveries[d].message in w.places
      && w.places[w.deliveries[d].message] == Out(d)
  }

  /** A dropped channel hands back what it had out; the dispatches on it go on, and what they send
      lands nowhere. */
  function After(w: World, e: Event, policy: AckPolicy): World
    requires Enabled(w, e)
  {
    match e
    case Publish(m) => w.(places := w.places[m := Queued])
    case Deliver(m, d) => World(w.places[m := Out(d)], w.deliveries[d := Delivery(m, InCallback, None, [], false)])
    case Proceed(d, outcome, reaches) =>
      var it := w.deliveries[d];
      World(if Lands(w, d, reaches) then w.places[it.message := if it.stage.InAck? then Gone else Queued] else w.places,
            w.deliveries[d := Delivery(it.message, Next(it.stage, outcome, policy),
                                       if it.stage.InCallback? then Some(outcome) else it.callback,
                                       it.sent + Sends(it.stage), it.landed || Lands(w, d, reaches))])
    case Drop => w.(places := map m | m in w.places :: if w.places[m].Out? then Queued else w.places[m])
  }

  ghost predicate Happens(w: World, events: seq<Event>, policy: AckPolicy)
    decreases events
  {
    events == [] || (Enabled(w, events[0]) && Happens(After(w, events[0], policy), events[1..], policy))
  }

  ghost function AfterAll(w: World, events: seq<Event>, policy: AckPolicy): World
    requires Happens(w, events, policy)
    decreases events
  {
    if events == [] then w else AfterAll(After(w, events[0], policy), events[1..], policy)
  }

  /** A dispatch keeps to its control flow: nothing is sent before it settles, and then what its
      callback calls for, once. */
  ghost predicate Follows(d: Delivery, policy: AckPolicy) {
    match d.stage
    case InCallback => d.callback.None? && d.sent == [] && !d.landed
    case InNack => d.callback == Some(Raises) && policy.RedeliverOnFailure? && d.sent == [] && !d.landed
    case InAck => d.callback.Some? && Settlement(d.callback.value, policy) == [Ack] && d.sent == [] && !d.landed
    case Ended => d.callback.Some? && d.sent == Settlement(d.callback.value, policy) && (d.landed ==> d.sent != [])
  }

  /** The delivery's ack took its message out of the broker. */
  predicate AckLanded(d: Delivery, m: nat) {
    d.message == m && d.landed && d.sent == [Ack]
  }

  /** A message is gone exactly when one delivery's ack landed, and only one ever does. */
  ghost predicate GoneByOneAck(w: World, m: nat) {
    && (m in w.places && w.places[m].Gone? <==> exists d :: d in w.deliveries && AckLanded(w.deliveries[d], m))
    && (forall d, e :: d in w.deliveries && e in w.deliveries ==>
          AckLanded(w.deliveries[d], m) && AckLanded(w.deliveries[e], m) ==> d == e)
  }

  /** What is out is out on a delivery of it that has not landed. */
  ghost predicate OutUnsettled(w: World, m: nat) {
    m in w.places && w.places[m].Out? ==>
      var d := w.places[m].delivery; d in w.deliveries && w.deliveries[d].message == m && !w.deliveries[d].landed
  }

  ghost predicate Sound(w: World, policy: AckPolicy) {
    && (forall d :: d in w.deliveries ==> Follows(w.deliveries[d], policy))
    && (forall m {:trigger GoneByOneAck(w, m)} :: GoneByOneAck(w, m))
    && (forall m {:trigger OutUnsettled(w, m)} :: OutUnsettled(w, m))
  }

  lemma {:induction false} DispatchFollows(w: World, e: Event, policy: AckPolicy)
    requires Enabled(w, e) && (forall d :: d in w.deliveries ==> Follows(w.deliveries[d], policy))
    ensures forall d :: d in After(w, e, policy).deliveries ==> Follows(After(w, e, policy).deliveries[d], policy)
  {
  }

  lemma {:induction false} StaysOut(w: World, e: Event, policy: AckPolicy, m: nat)
    requires Enabled(w, e) && OutUnsettled(w, m)
    ensures OutUnsettled(After(w, e, policy), m)
  {
  }

  lemma {:induction false} ProceedGone(w: World, e: Event, policy: AckPolicy, m: nat)
    requires Enabled(w, e) && e.Proceed? && Follows(w.deliveries[e.delivery], policy) && GoneByOneAck(w, m)
      && OutUnsettled(w, m)
    ensures GoneByOneAck(After(w, e, policy), m)
  {
    var w', d := After(w, e, policy), e.delivery;
    assert forall o :: o in w.deliveries && o != d ==> w'.deliveries[o] == w.deliveries[o];
    assert !AckLanded(w.deliveries[d], m);
    assert w'.deliveries[d].sent == Sends(w.deliveries[d].stage);
    if AckLanded(w'.deliveries[d], m) {
      assert w'.deliveries[d].sent[0] == Ack && Lands(w, d, e.reaches);
    } else if exists o :: o in w.deliveries && AckLanded(w.deliveries[o], m) {
      var o :| o in w.deliveries && AckLanded(w.deliveries[o], m);
      assert AckLanded(w'.deliveries[o], m);
    }
  }

  lemma {:induction false} OtherGone(w: World, e: Event, policy: AckPolicy, m: nat)
    requires Enabled(w, e) && !e.Proceed? && GoneByOneAck(w, m)
    ensures GoneByOneAck(After(w, e, policy), m)
  {
    var w' := After(w, e, policy);
    assert forall o :: o in w.deliveries ==> o in w'.deliveries && w'.deliveries[o] == w.deliveries[o];
    if o :| o in w.deliveries && AckLanded(w.deliveries[o], m) {
      assert AckLanded(w'.deliveries[o], m);
    }
  }

  lemma {:induction false} EventKeepsSound(w: World, e: Event, policy: AckPolicy)
    requires Sound(w, policy) && Enabled(w, e)
    ensures Sound(After(w, e, policy), policy)
  {
    DispatchFollows(w, e, policy);
    forall m
      ensures GoneByOneAck(After(w, e, policy), m)
    {
      assert GoneByOneAck(w, m) && OutUnsettled(w, m);
      if e.Proceed? { ProceedGone(w, e, policy, m); } else { OtherGone(w, e, policy, m); }
    }
    forall m
      ensures OutUnsettled(After(w, e, policy), m)
    {
      assert OutUnsettled(w, m);
      StaysOut(w, e, policy, m);
    }
  }

  lemma {:induction false} RunKeepsSound(w: World, events: seq<Event>, policy: AckPolicy)
    requires Sound(w, policy) && Happens(w, events, policy)
    ensures Sound(AfterAll(w, events, policy), policy)
    decreases events
  {
    if events == [] {
    } else {
      EventKeepsSound(w, events[0], policy);
      RunKeepsSound(After(w, events[0], policy), events[1..], policy);
    }
  }

  const START := World(map[], map[])

  lemma {:induction false} StartIsSound(policy: AckPolicy)
    ensures Sound(START, policy)
  {
    forall m
      ensures GoneByOneAck(START, m) && OutUnsettled(START, m)
    {
    }
  }

  /** Over any run with drops and redeliveries, under redeliver-on-failure: a message is gone if and
      only if the ack of a delivery landed, that delivery's callback returned, and no other's ack ever
      landed; and no delivery is both acked and handed back. */
  lemma {:induction false} GoneOnlyAfterReturn(events: seq<Event>, m: nat, d: nat)
    requires Happens(START, events, RedeliverOnFailure)
    ensures var w := AfterAll(START, events, RedeliverOnFailure);
      && (m in w.places && w.places[m].Gone? <==> exists n :: n in w.deliveries && AckLanded(w.deliveries[n], m))
      && (forall n :: n in w.deliveries && AckLanded(w.deliveries[n], m) ==>
            && w.deliveries[n].callback == Some(Returns)
            && (forall k :: k in w.deliveries && AckLanded(w.deliveries[k], m) ==> k == n))
      && (d in w.deliveries ==> |w.deliveries[d].sent| <= 1)
  {
    StartIsSound(RedeliverOnFailure);
    RunKeepsSound(START, events, RedeliverOnFailure);
    var w := AfterAll(START, events, RedeliverOnFailure);
    assert GoneByOneAck(w, m);
    assert d in w.deliveries ==> Follows(w.deliveries[d], RedeliverOnFailure);
  }

  /** The message is gone, and every other is gone or not as it was. */
  ghost predicate OnlyMoreGone(w: World, w': World, m: nat) {
    && w'.places.Keys == w.places.Keys && m in w'.places && w'.places[m].Gone?
    && forall o :: o in w.places && o != m ==> (w'.places[o].Gone? <==> w.places[o].Gone?)
  }

  /** After any run, a message not yet gone can still be handled: a drop, a fresh delivery, a callback
      that returns and an ack that reaches the broker take it out, whatever became of every delivery
      before. */
  lemma {:induction false} AlwaysDeliverable(w: World, policy: AckPolicy, m: nat, d: nat)
    requires m in w.places && !w.places[m].Gone? && d !in w.deliveries
    ensures var events := [Drop, Deliver(m, d), Proceed(d, Returns, false), Proceed(d, Returns, true)];
      Happens(w, events, policy) && OnlyMoreGone(w, AfterAll(w, events, policy), m)
  {
    var e1, e2, e3, e4 := Drop, Deliver(m, d), Proceed(d, Returns, false), Proceed(d, Returns, true);
    var w1 := After(w, e1, policy);
    var w2 := After(w1, e2, policy);
    var w3 := After(w2, e3, policy);
    var w4 := After(w3, e4, policy);
    FourSteps(w, e1, e2, e3, e4, policy);
  }

  /** Once its callback is done, a delivery the broker still has out is settled as the policy says: a
      return takes the message out, a failure hands it back or, under ack-always, takes it out, and a
      cancellation leaves it out. */
  lemma {:induction false} SettlesAsPolicy(w: World, policy: AckPolicy, d: nat, callback: Outcome, early: bool,
                                           settled: Outcome)
    requires d in w.deliveries && w.deliveries[d].stage.InCallback? && w.deliveries[d].message in w.places
      && w.places[w.deliveries[d].message] == Out(d)
    ensures var m, called := w.deliveries[d].message, After(w, Proceed(d, callback, early), policy);
      && called.places == w.places && (Enabled(called, Proceed(d, settled, true)) <==> !callback.Cancelled?)
      && (!callback.Cancelled? ==>
            After(called, Proceed(d, settled, true), policy).places ==
              w.places[m := if callback.Raises? && policy == RedeliverOnFailure then Queued else Gone])
  {
  }

  lemma {:induction false} FourSteps(w: World, a: Event, b: Event, c: Event, d: Event, policy: AckPolicy)
    requires Enabled(w, a) && Enabled(After(w, a, policy), b) && Enabled(After(After(w, a, policy), b, policy), c)
    requires Enabled(After(After(After(w, a, policy), b, policy), c, policy), d)
    ensures Happens(w, [a, b, c, d], policy)
    ensures AfterAll(w, [a, b, c, d], policy) ==
      After(After(After(After(w, a, policy), b, policy), c, policy), d, policy)
  {
    var w1 := After(w, a, policy);
    var w2 := After(w1, b, policy);
    var w3 := After(w2, c, policy);
    StepThen(w3, d, [], policy);
    StepThen(w2, c, [d], policy);
    StepThen(w1, b, [c, d], policy);
    StepThen(w, a, [b, c, d], policy);
    assert [d] + [] == [d] && [c] + [d] == [c, d] && [b] + [c, d] == [b, c, d] && [a] + [b, c, d] == [a, b, c, d];
  }

  lemma {:induction false} StepThen(w: World, e: Event, rest: seq<Event>, policy: AckPolicy)
    requires Enabled(w, e) && Happens(After(w, e, policy), rest, policy)
    ensures Happens(w, [e] + rest, policy)
      && AfterAll(w, [e] + rest, policy) == AfterAll(After(w, e, policy), rest, policy)
  {
    assert ([e] + rest)[0] == e && ([e] + rest)[1..] == rest;
  }

  // --- publishing and retrying ---

  const MAX_ATTEMPTS: nat := 3

  /** One send: confirmed, or failed or cancelled with the message stored or not. `slept` is whether the
      backoff after a failure, if it is tried again, runs to its end. */
  datatype Send = Confirmed | SendFailed(stored: bool, slept: bool) | SendCancelled(stored: bool)

  datatype Published = Sent | DelayUnsupported | QueueError | PublishCancelled

  function Stored(s: Send): nat {
    if s.Confirmed? || s.stored then 1 else 0
  }

  function TotalStored(sends: nat -> Send, n: nat): nat {
    if n == 0 then 0 else TotalStored(sends, n - 1) + Stored(sends(n - 1))
  }

  /** What `publish` comes to after its last try: a failure short of the last allowed is one whose
      backoff was cut. */
  function PublishedBy(last: Send, tries: nat): Published {
    match last
    case Confirmed => Sent
    case SendCancelled(_) => PublishCancelled
    case SendFailed(_, _) => if tries < MAX_ATTEMPTS then PublishCancelled else QueueError
  }

  /** The tries `publish` makes: each before the last failed and was slept on, and the last is either
      not retried, cut in its backoff, or the last allowed. */
  ghost predicate TriedTo(sends: nat -> Send, tries: nat) {
    && tries <= MAX_ATTEMPTS
    && (forall i :: 0 <= i < tries - 1 ==> sends(i).SendFailed? && sends(i).slept)
    && (1 <= tries < MAX_ATTEMPTS && sends(tries - 1).SendFailed? ==> !sends(tries - 1).slept)
  }

  /** `publish`: tried again on failure, at most three times, and what it comes to is its last try's.
      `stored` counts the copies in the broker before the first try and after each. */
  method PublishMessage(delay: Option<int>, sends: nat -> Send)
    returns (result: Published, tries: nat, stored: seq<nat>)
    ensures TriedTo(sends, tries) && (tries == 0 <==> delay.Some? && 0 < delay.value)
    ensures result == if tries == 0 then DelayUnsupported else PublishedBy(sends(tries - 1), tries)
    ensures result.Sent? <==> 1 <= tries && sends(tries - 1).Confirmed?
    ensures result.QueueError? <==> tries == 3 && sends(2).SendFailed?
    ensures result.DelayUnsupported? <==> tries == 0
    ensures |stored| == tries + 1 && forall i :: 0 <= i <= tries ==> stored[i] == TotalStored(sends, i)
  {
    stored := [0];
    if delay.Some? && 0 < delay.value {
      return DelayUnsupported, 0, stored;
    }
    for attempt := 1 to MAX_ATTEMPTS + 1
      invariant forall i :: 0 <= i < attempt - 1 ==> sends(i).SendFailed? && (i < MAX_ATTEMPTS - 1 ==> sends(i).slept)
      invariant |stored| == attempt && forall i :: 0 <= i < attempt ==> stored[i] == TotalStored(sends, i)
    {
      var send := sends(attempt - 1);
      stored := stored + [stored[attempt - 1] + Stored(send)];
      match send {
        case Confirmed => return Sent, attempt, stored;
        case SendCancelled(_) => return PublishCancelled, attempt, stored;
        case SendFailed(_, slept) =>
          if attempt < MAX_ATTEMPTS && !slept {
            return PublishCancelled, attempt, stored;
          }
      }
    }
    return QueueError, MAX_ATTEMPTS, stored;
  }

  /** An ack: done, or failed or cancelled having landed or not. */
  datatype Settled = AckDone | AckFailed(landed: bool) | AckCancelled(landed: bool)
  {
    predicate Landed() {
      AckDone? || landed
    }
  }

  datatype Retried = RetryDone | RetryFailed | RetryUnsupported | RetryCancelled

  /** What `retry` comes to: the publish's failure, or the ack's outcome once it is published. */
  function RetriedBy(published: Published, ack: Settled): Retried {
    match published
    case DelayUnsupported => RetryUnsupported
    case PublishCancelled => RetryCancelled
    case QueueError => RetryFailed
    case Sent => if ack.AckDone? then RetryDone else if ack.AckCancelled? then RetryCancelled else RetryFailed
  }

  /** `retry`: a copy is published before the original is acked. `copies` counts what the broker holds
      at every point at which it can stop, the original included: before the first send, after each,
      and after the ack if there is one. There is always at least one. */
  method RetryMessage(delay: int, sends: nat -> Send, ack: Settled)
    returns (result: Retried, tries: nat, copies: seq<nat>)
    ensures TriedTo(sends, tries) && (tries == 0 <==> 0 < delay)
    ensures var published := if tries == 0 then DelayUnsupported else PublishedBy(sends(tries - 1), tries);
      && result == RetriedBy(published, ack)
      && |copies| == tries + (if published.Sent? then 2 else 1)
      && (published.Sent? ==> copies[tries + 1] == TotalStored(sends, tries) + if ack.Landed() then 0 else 1)
    ensures result.RetryDone? <==> 1 <= tries && sends(tries - 1).Confirmed? && ack.AckDone?
    ensures result.RetryFailed? <==>
      || (tries == 3 && sends(2).SendFailed?)
      || (1 <= tries && sends(tries - 1).Confirmed? && ack.AckFailed?)
    ensures result.RetryUnsupported? <==> tries == 0
    ensures forall i :: 0 <= i <= tries ==> copies[i] == 1 + TotalStored(sends, i)
    ensures forall i :: 0 <= i < |copies| ==> 1 <= copies[i]
  {
    var published, stored;
    published, tries, stored := PublishMessage(Some(delay), sends);
    copies := seq(|stored|, i requires 0 <= i < |stored| => 1 + stored[i]);
    if published.Sent? {
      copies := copies + [if ack.Landed() then stored[tries] else stored[tries] + 1];
    }
    result := RetriedBy(published, ack);
  }
}
