/** A reference family under one time bound: after an overrun its calls fail fast for one bound's
    length. Calls come one at a time, and the clock never goes back. */
module Resolvers {
  import opened Repetition

  /** What the family does with a call it is given. A timeout of its own is not an overrun. */
  datatype Family = Answers | Raises | Overruns

  /** One call: the clock as it starts and as it ends. */
  datatype Call = Call(start: real, family: Family, end: real)

  datatype Outcome = Refused | Answered | Raised | Overran

  class TimeBoundResolver {
    const seconds: real
    var failingUntil: real

    constructor (seconds: real)
      ensures this.seconds == seconds && failingUntil == 0.0
    {
      this.seconds := seconds;
      failingUntil := 0.0;
    }

    /** `_bounded`. `reached` is whether the family was called at all. */
    method Bounded(call: Call) returns (outcome: Outcome, reached: bool)
      modifies this
      ensures outcome == Judge(old(failingUntil), call) && failingUntil == Until(old(failingUntil), seconds, call)
      ensures reached <==> outcome != Refused
    {
      if call.start < failingUntil {
        return Refused, false;
      }
      match call.family {
        case Answers => return Answered, true;
        case Raises => return Raised, true;
        case Overruns =>
          failingUntil := call.end + seconds;
          return Overran, true;
      }
    }
  }

  function Judge(failingUntil: real, call: Call): Outcome {
    if call.start < failingUntil then Refused
    else match call.family
      case Answers => Answered
      case Raises => Raised
      case Overruns => Overran
  }

  function Until(failingUntil: real, bound: real, call: Call): real {
    if Judge(failingUntil, call).Overran? then call.end + bound else failingUntil
  }

  /** When the family stops failing fast, after these calls. */
  function FailingUntil(calls: seq<Call>, bound: real): real {
    if calls == [] then 0.0 else Until(FailingUntil(calls[..|calls| - 1], bound), bound, calls[|calls| - 1])
  }

  function OutcomeOf(calls: seq<Call>, bound: real, i: nat): Outcome
    requires i < |calls|
  {
    Judge(FailingUntil(calls[..i], bound), calls[i])
  }

  /** Calls in order, each overrun lasting its bound. */
  ghost predicate Timely(calls: seq<Call>, bound: real) {
    && 0.0 < bound
    && (forall i :: 0 <= i < |calls| ==>
          0.0 <= calls[i].start <= calls[i].end
            && (calls[i].family.Overruns? ==> calls[i].start + bound <= calls[i].end))
    && (forall i, j :: 0 <= i < j < |calls| ==> calls[i].end <= calls[j].start)
  }

  lemma {:induction false} PrefixOutcome(calls: seq<Call>, bound: real, n: nat, i: nat)
    requires i < n <= |calls|
    ensures OutcomeOf(calls[..n], bound, i) == OutcomeOf(calls, bound, i)
  {
    assert calls[..n][..i] == calls[..i];
  }

  /** Failing fast lasts at least one bound after any overrun. */
  lemma {:induction false} FailsAfterEach(calls: seq<Call>, bound: real, i: nat)
    requires Timely(calls, bound) && i < |calls| && OutcomeOf(calls, bound, i).Overran?
    ensures calls[i].end + bound <= FailingUntil(calls, bound)
  {
    var n := |calls| - 1;
    if i < n && !OutcomeOf(calls, bound, n).Overran? {
      PrefixOutcome(calls, bound, n, i);
      FailsAfterEach(calls[..n], bound, i);
    }
  }

  /** And no longer than after the latest: with none it never began. */
  lemma {:induction false} FailsAfterSome(calls: seq<Call>, bound: real) returns (i: nat)
    requires Timely(calls, bound) && FailingUntil(calls, bound) != 0.0
    ensures i < |calls| && OutcomeOf(calls, bound, i).Overran? && calls[i].end + bound == FailingUntil(calls, bound)
  {
    var n := |calls| - 1;
    if OutcomeOf(calls, bound, n).Overran? {
      i := n;
    } else {
      i := FailsAfterSome(calls[..n], bound);
      PrefixOutcome(calls, bound, n, i);
    }
  }

  /** A call is refused, without reaching the family, exactly within a bound of an overrun's end. */
  lemma {:induction false} RefusedExactlyAfterOverrun(calls: seq<Call>, bound: real, j: nat)
    requires Timely(calls, bound) && j < |calls|
    ensures OutcomeOf(calls, bound, j).Refused? <==>
      exists i :: 0 <= i < j && OutcomeOf(calls, bound, i).Overran? && calls[j].start < calls[i].end + bound
    ensures !OutcomeOf(calls, bound, j).Refused? ==>
      && (OutcomeOf(calls, bound, j).Answered? <==> calls[j].family.Answers?)
      && (OutcomeOf(calls, bound, j).Raised? <==> calls[j].family.Raises?)
      && (OutcomeOf(calls, bound, j).Overran? <==> calls[j].family.Overruns?)
  {
    var before := calls[..j];
    if i :| 0 <= i < j && OutcomeOf(calls, bound, i).Overran? && calls[j].start < calls[i].end + bound {
      PrefixOutcome(calls, bound, j, i);
      FailsAfterEach(before, bound, i);
    }
    if OutcomeOf(calls, bound, j).Refused? {
      var i := FailsAfterSome(before, bound);
      PrefixOutcome(calls, bound, j, i);
    }
  }

  /** Two overruns start at least two bounds apart. */
  lemma {:induction false} OverrunsApart(calls: seq<Call>, bound: real, i: nat, j: nat)
    requires Timely(calls, bound) && i < j < |calls|
    requires OutcomeOf(calls, bound, i).Overran? && OutcomeOf(calls, bound, j).Overran?
    ensures calls[i].start + 2.0 * bound <= calls[j].start
  {
    RefusedExactlyAfterOverrun(calls, bound, j);
  }

  /** Some overruns, in the order they happened. */
  ghost predicate Chosen(calls: seq<Call>, bound: real, overruns: seq<nat>) {
    && (forall k :: 0 <= k < |overruns| ==> overruns[k] < |calls| && OutcomeOf(calls, bound, overruns[k]).Overran?)
    && (forall k, m :: 0 <= k < m < |overruns| ==> overruns[k] < overruns[m])
  }

  lemma {:induction false} SpreadOut(starts: seq<real>, gap: real)
    requires starts != [] && forall k, m :: 0 <= k < m < |starts| ==> starts[k] + gap <= starts[m]
    ensures starts[0] + Repeated(|starts| - 1, gap) <= starts[|starts| - 1]
  {
    if |starts| > 1 { SpreadOut(starts[..|starts| - 1], gap); }
  }

  lemma {:induction false} ChosenSpread(calls: seq<Call>, bound: real, overruns: seq<nat>)
    requires Timely(calls, bound) && Chosen(calls, bound, overruns) && overruns != []
    ensures calls[overruns[0]].start + Repeated(|overruns| - 1, 2.0 * bound) <= calls[overruns[|overruns| - 1]].start
  {
    var starts := seq(|overruns|, k requires 0 <= k < |overruns| && overruns[k] < |calls| => calls[overruns[k]].start);
    forall k, m | 0 <= k < m < |starts|
      ensures starts[k] + 2.0 * bound <= starts[m]
    {
      OverrunsApart(calls, bound, overruns[k], overruns[m]);
    }
    SpreadOut(starts, 2.0 * bound);
  }

  /** Any overruns that start within a window number at most `window / (2 * bound) + 1`, and a bound's
      wait on each comes to at most half the window and one bound. */
  lemma {:induction false} OverrunsAreFew(calls: seq<Call>, bound: real, overruns: seq<nat>, window: real)
    requires Timely(calls, bound) && Chosen(calls, bound, overruns) && overruns != []
    requires calls[overruns[|overruns| - 1]].start - calls[overruns[0]].start <= window
    ensures |overruns| as real <= window / (2.0 * bound) + 1.0
    ensures |overruns| as real * bound <= window / 2.0 + bound
  {
    ChosenSpread(calls, bound, overruns);
    CountFits(|overruns|, bound, window);
  }

  lemma {:induction false} CountFits(count: nat, bound: real, window: real)
    requires 0.0 < bound && 1 <= count && Repeated(count - 1, 2.0 * bound) <= window
    ensures count as real <= window / (2.0 * bound) + 1.0
    ensures count as real * bound <= window / 2.0 + bound
  {
    RepeatedIsProduct(count - 1, 2.0 * bound);
    var gaps := (count - 1) as real;
    assert (gaps + 1.0) * bound == gaps * (2.0 * bound) / 2.0 + bound;
    AtMostQuotient(gaps, 2.0 * bound, window);
  }

  lemma {:induction false} AtMostQuotient(x: real, c: real, w: real)
    requires 0.0 < c && x * c <= w
    ensures x <= w / c
  {
    assert w / c * c == w;
  }
}
