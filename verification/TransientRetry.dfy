/** Retrying what is safe to retry: taking a connection, and a transaction Postgres rolled back. What
    each connection try and each run of the work comes to is given by number. */
module TransientRetry {
  import opened Basics
  import opened Repetition

  /** `slept` is whether the pause after a failure, if it is tried again, runs to its end: the caller
      may be cancelled in it. */
  datatype Connect = Connected | ConnectFails(slept: bool) | ConnectRaises

  /** A run of the work inside its transaction. A connection lost after a statement was sent may have
      committed. */
  datatype Work = Commits(value: int) | RollsBack(slept: bool) | Raises | ConnectionLost(committed: bool)

  datatype Result = Returned(value: int) | NotConnected | RolledBack | Failed | CancelledInPause

  function Pow2(n: nat): (p: nat)
    ensures 1 <= p
  {
    if n == 0 then 1 else 2 * Pow2(n - 1)
  }

  /** The pause after a try that `n` have failed before: `backoff`, doubled for each. */
  function Pause(backoff: real, n: nat): real {
    if n == 0 then backoff else 2.0 * Pause(backoff, n - 1)
  }

  /** The pauses after the first `n` tries. */
  function Pauses(backoff: real, n: nat): real {
    if n == 0 then 0.0 else Pauses(backoff, n - 1) + Pause(backoff, n - 1)
  }

  lemma {:induction false} PauseIsPower(backoff: real, n: nat)
    ensures Pause(backoff, n) == backoff * Pow2(n) as real
  {
    if n > 0 {
      PauseIsPower(backoff, n - 1);
      Doubles(backoff, Pow2(n - 1) as real);
    }
  }

  lemma {:induction false} Doubles(b: real, p: real)
    ensures b * (2.0 * p) == 2.0 * (b * p)
  {
  }

  lemma {:induction false} PausesAreOneLess(backoff: real, n: nat)
    ensures Pauses(backoff, n) == Pause(backoff, n) - backoff
  {
    if n > 0 { PausesAreOneLess(backoff, n - 1); }
  }

  lemma {:induction false} PausesAreGeometric(backoff: real, n: nat)
    ensures Pauses(backoff, n) == backoff * (Pow2(n) - 1) as real
  {
    PausesAreOneLess(backoff, n);
    PauseIsPower(backoff, n);
    assert backoff * (Pow2(n) - 1) as real == backoff * Pow2(n) as real - backoff;
  }

  lemma {:induction false} PauseIsPositive(backoff: real, n: nat)
    requires 0.0 <= backoff
    ensures 0.0 <= Pause(backoff, n)
  {
    if n > 0 { PauseIsPositive(backoff, n - 1); }
  }

  lemma {:induction false} PausesGrow(backoff: real, m: nat, n: nat)
    requires 0.0 <= backoff && m <= n
    ensures 0.0 <= Pauses(backoff, m) <= Pauses(backoff, n)
    decreases n
  {
    if n > 0 {
      PauseIsPositive(backoff, n - 1);
      PausesGrow(backoff, if m < n then m else n - 1, n - 1);
    }
  }

  /** `acquire`: the connection tries from `first` on, up to one that does not fail, the last allowed or
      a pause that is cut, which is counted whole. */
  method Acquire(attempts: nat, backoff: real, connect: nat -> Connect, first: nat)
    returns (outcome: Connect, tries: nat, paused: real)
    requires 1 <= attempts && 0.0 <= backoff
    ensures 1 <= tries <= attempts && outcome == connect(first + tries - 1)
    ensures forall i :: first <= i < first + tries - 1 ==> connect(i) == ConnectFails(true)
    ensures outcome == ConnectFails(true) ==> tries == attempts
    ensures paused == Pauses(backoff, if outcome.ConnectFails? && tries < attempts then tries else tries - 1)
  {
    paused := 0.0;
    for attempt := 1 to attempts + 1
      invariant forall i :: first <= i < first + attempt - 1 ==> connect(i) == ConnectFails(true)
      invariant attempt <= attempts && paused == Pauses(backoff, attempt - 1)
    {
      outcome := connect(first + attempt - 1);
      if !outcome.ConnectFails? || attempt == attempts {
        return outcome, attempt, paused;
      }
      paused := paused + Pause(backoff, attempt - 1);
      if !outcome.slept {
        return outcome, attempt, paused;
      }
    }
    assert false;
  }

  /** How many of the first `n` connection tries took a connection. */
  function Connections(connect: nat -> Connect, n: nat): nat {
    if n == 0 then 0 else Connections(connect, n - 1) + if connect(n - 1).Connected? then 1 else 0
  }

  lemma {:induction false} NoConnections(connect: nat -> Connect, first: nat, n: nat)
    requires first <= n && forall i :: first <= i < n ==> !connect(i).Connected?
    ensures Connections(connect, n) == Connections(connect, first)
  {
    if first < n { NoConnections(connect, first, n - 1); }
  }

  /** How many tries in a row have just failed. */
  function Streak(connect: nat -> Connect, n: nat): nat {
    if n == 0 || !connect(n - 1).ConnectFails? then 0 else Streak(connect, n - 1) + 1
  }

  /** The pauses after the first `n` connection tries: each failure's doubles with its streak. */
  function ConnectPauses(backoff: real, connect: nat -> Connect, n: nat): real {
    if n == 0 then 0.0
    else
      ConnectPauses(backoff, connect, n - 1)
      + if connect(n - 1).ConnectFails? then Pause(backoff, Streak(connect, n - 1)) else 0.0
  }

  lemma {:induction false} StreakPauses(backoff: real, connect: nat -> Connect, first: nat, k: nat)
    requires Streak(connect, first) == 0 && forall i :: first <= i < first + k ==> connect(i).ConnectFails?
    ensures Streak(connect, first + k) == k
    ensures ConnectPauses(backoff, connect, first + k) == ConnectPauses(backoff, connect, first) + Pauses(backoff, k)
  {
    if k > 0 { StreakPauses(backoff, connect, first, k - 1); }
  }

  /** What the tries of one acquisition paused: each failed, but the last allowed and one that did not
      fail. */
  function Waited(attempts: nat, backoff: real, connect: nat -> Connect, first: nat, n: nat): real
    requires first < n
  {
    Pauses(backoff, if connect(n - 1).ConnectFails? && n - first < attempts then n - first else n - first - 1)
  }

  lemma {:induction false} WaitedIsPauses(attempts: nat, backoff: real, connect: nat -> Connect, first: nat, n: nat)
    requires (first == 0 || connect(first - 1).Connected?) && first < n <= first + attempts
    requires forall i :: first <= i < n - 1 ==> connect(i).ConnectFails?
    ensures var gaveUp := connect(n - 1).ConnectFails? && n - first == attempts;
      ConnectPauses(backoff, connect, first) + Waited(attempts, backoff, connect, first, n) ==
        ConnectPauses(backoff, connect, if gaveUp then n - 1 else n)
  {
    StreakPauses(backoff, connect, first, n - 1 - first);
    if connect(n - 1).ConnectFails? { StreakPauses(backoff, connect, first, n - first); }
  }

  /** The last try for a connection failed for good: by an error that is not retried, or the last of
      as many failures in a row as are allowed. */
  ghost predicate GaveUp(connect: nat -> Connect, connects: nat, attempts: nat) {
    && 1 <= connects
    && (|| connect(connects - 1).ConnectRaises?
        || (attempts <= connects && forall i :: connects - attempts <= i < connects ==> connect(i).ConnectFails?))
  }

  /** What each result says happened. A value is the last run's, committed. An error is the last run's
      too, and it committed only if its connection was lost after it had. A cancellation came in the
      pause after a rollback, or after a connection that failed and was to be tried again. */
  ghost predicate Explains(result: Result, attempts: nat, connect: nat -> Connect, work: nat -> Work, runs: nat,
                           connects: nat, commits: nat) {
    && runs == Connections(connect, connects)
    && (forall i :: 0 <= i < runs - 1 ==> work(i) == RollsBack(true))
    && match result
       case Returned(value) => 1 <= runs && work(runs - 1) == Commits(value) && commits == 1
       case RolledBack => 1 <= runs == attempts && work(runs - 1).RollsBack? && commits == 0
       case Failed =>
         && 1 <= runs && (work(runs - 1).Raises? || work(runs - 1).ConnectionLost?)
         && commits == if work(runs - 1) == ConnectionLost(true) then 1 else 0
       case NotConnected => GaveUp(connect, connects, attempts) && StillToRun(attempts, work, runs) && commits == 0
       case CancelledInPause =>
         && commits == 0 && 1 <= connects
         && (|| (1 <= runs < attempts && work(runs - 1) == RollsBack(false) && connect(connects - 1).Connected?)
             || (&& connect(connects - 1) == ConnectFails(false) && !GaveUp(connect, connects, attempts)
                 && StillToRun(attempts, work, runs)))
  }

  /** Tries are left, and the last run, if any, rolled back and its pause was slept out. */
  ghost predicate StillToRun(attempts: nat, work: nat -> Work, runs: nat) {
    runs < attempts && (1 <= runs ==> work(runs - 1) == RollsBack(true))
  }

  lemma {:induction false} RollbackExplained(attempts: nat, connect: nat -> Connect, work: nat -> Work, runs: nat,
                                             connects: nat)
    requires 1 <= runs <= attempts && runs == Connections(connect, connects) && work(runs - 1).RollsBack?
    requires 1 <= connects && connect(connects - 1).Connected?
      && forall i :: 0 <= i < runs - 1 ==> work(i) == RollsBack(true)
    ensures runs == attempts ==> Explains(RolledBack, attempts, connect, work, runs, connects, 0)
    ensures runs < attempts && !work(runs - 1).slept ==>
      Explains(CancelledInPause, attempts, connect, work, runs, connects, 0)
  {
  }

  /** One attempt: a connection, and the work on it. `None` is a rollback, which may be tried again. */
  method RunOnce(attempts: nat, backoff: real, connect: nat -> Connect, work: nat -> Work, before: nat, taken: nat)
    returns (result: Option<Result>, runs: nat, connects: nat, commits: nat, waited: real)
    requires before < attempts && 0.0 <= backoff && (taken == 0 || connect(taken - 1).Connected?)
    requires before == Connections(connect, taken) && forall i :: 0 <= i < before ==> work(i) == RollsBack(true)
    ensures result.Some? ==> Explains(result.value, attempts, connect, work, runs, connects, commits)
    ensures result.None? ==>
      work(before).RollsBack? && commits == 0 && runs == before + 1 == Connections(connect, connects)
    ensures result.None? ==> connect(connects - 1).Connected?
    ensures before <= runs <= before + 1 && taken < connects <= taken + attempts
      && waited <= Pauses(backoff, attempts - 1)
    ensures result == Some(CancelledInPause) || result == Some(NotConnected) ==> runs == before
    ensures result.Some? && result != Some(CancelledInPause) && result != Some(NotConnected) ==> runs == before + 1
    ensures waited == Waited(attempts, backoff, connect, taken, connects)
    ensures forall i :: taken <= i < connects - 1 ==> connect(i).ConnectFails?
    ensures result == Some(NotConnected) <==>
      connect(connects - 1).ConnectRaises? || (connect(connects - 1).ConnectFails? && connects - taken == attempts)
  {
    var outcome, tries;
    outcome, tries, waited := Acquire(attempts, backoff, connect, taken);
    NoConnections(connect, taken, taken + tries - 1);
    PausesGrow(backoff, tries - 1, attempts - 1);
    runs, connects, commits := before, taken + tries, 0;
    if outcome.ConnectFails? && tries < attempts {
      PausesGrow(backoff, tries, attempts - 1);
      return Some(CancelledInPause), runs, connects, commits, waited;
    }
    if outcome != Connected {
      return Some(NotConnected), runs, connects, commits, waited;
    }
    runs := runs + 1;
    match work(before) {
      case Commits(value) => return Some(Returned(value)), runs, connects, 1, waited;
      case Raises => return Some(Failed), runs, connects, 0, waited;
      case ConnectionLost(committed) => return Some(Failed), runs, connects, if committed then 1 else 0, waited;
      case RollsBack(_) => return None, runs, connects, commits, waited;
    }
  }

  /** Tries of a connection, over a number of attempts. */
  function Tries(runs: nat, attempts: nat): nat {
    if runs == 0 then 0 else Tries(runs - 1, attempts) + attempts
  }

  lemma {:induction false} TriesAreProduct(runs: nat, attempts: nat)
    ensures Tries(runs, attempts) == runs * attempts
  {
    if runs > 0 {
      TriesAreProduct(runs - 1, attempts);
      assert (runs - 1) * attempts + attempts == runs * attempts;
    }
  }

  lemma {:induction false} TriesGrow(m: nat, n: nat, attempts: nat)
    requires m <= n
    ensures Tries(m, attempts) <= Tries(n, attempts)
  {
    if m < n { TriesGrow(m, n - 1, attempts); }
  }

  /** The most a transaction pauses: every attempt for its connection, and once between attempts. */
  function MostPaused(attempts: nat, backoff: real): real
    requires 1 <= attempts
  {
    Repeated(attempts + 1, Pauses(backoff, attempts - 1))
  }

  lemma {:induction false} MostPausedIs(attempts: nat, backoff: real)
    requires 1 <= attempts
    ensures MostPaused(attempts, backoff) == (attempts + 1) as real * (backoff * (Pow2(attempts - 1) - 1) as real)
  {
    PausesAreGeometric(backoff, attempts - 1);
    RepeatedIsProduct(attempts + 1, Pauses(backoff, attempts - 1));
  }

  lemma {:induction false} PausesFit(attempts: nat, attempt: nat, rests: nat, backoff: real, acquiring: real)
    requires 1 <= attempt <= attempts && rests < attempts && 0.0 <= backoff
    requires acquiring <= Repeated(attempt, Pauses(backoff, attempts - 1))
    ensures acquiring + Pauses(backoff, rests) <= MostPaused(attempts, backoff)
  {
    PausesGrow(backoff, 0, attempts - 1);
    PausesGrow(backoff, rests, attempts - 1);
    RepeatedGrows(attempt, attempts, Pauses(backoff, attempts - 1));
  }

  /** Everything a transaction paused: after each failed connection but one that ends it, and after each
      rollback, doubling, but one that is the last. */
  function TotalPaused(result: Result, backoff: real, connect: nat -> Connect, runs: nat, connects: nat): real
    requires 1 <= connects && (runs == 0 ==> result.NotConnected? || result.CancelledInPause?)
  {
    ConnectPauses(backoff, connect, if result.NotConnected? then connects - 1 else connects)
    + Pauses(backoff, if result.NotConnected? || result.CancelledInPause? then runs else runs - 1)
  }

  /** What has been paused once `runs` attempts have rolled back and been slept on. */
  ghost predicate PausedSoFar(attempts: nat, backoff: real, connect: nat -> Connect, runs: nat, connects: nat,
                              paused: real)
    requires 1 <= attempts
  {
    && paused == ConnectPauses(backoff, connect, connects) + Pauses(backoff, runs)
    && ConnectPauses(backoff, connect, connects) <= Repeated(runs, Pauses(backoff, attempts - 1))
    && connects <= Tries(runs, attempts)
  }

  /** One attempt, with its connection's pauses counted on. */
  method RunWaited(attempts: nat, backoff: real, connect: nat -> Connect, work: nat -> Work, before: nat, taken: nat)
    returns (result: Option<Result>, runs: nat, connects: nat, commits: nat, waited: real)
    requires before < attempts && 0.0 <= backoff && (taken == 0 || connect(taken - 1).Connected?)
    requires before == Connections(connect, taken) && forall i :: 0 <= i < before ==> work(i) == RollsBack(true)
    requires taken <= Tries(before, attempts)
    ensures result.Some? ==> Explains(result.value, attempts, connect, work, runs, connects, commits)
    ensures result.None? ==>
      work(before).RollsBack? && commits == 0 && runs == before + 1 == Connections(connect, connects)
    ensures 1 <= connects <= Tries(before + 1, attempts) && (result.None? ==> connect(connects - 1).Connected?)
    ensures runs == before + if result == Some(NotConnected) || result == Some(CancelledInPause) then 0 else 1
    ensures ConnectPauses(backoff, connect, taken) + waited ==
      ConnectPauses(backoff, connect, if result == Some(NotConnected) then connects - 1 else connects)
    ensures waited <= Pauses(backoff, attempts - 1)
  {
    result, runs, connects, commits, waited := RunOnce(attempts, backoff, connect, work, before, taken);
    WaitedIsPauses(attempts, backoff, connect, taken, connects);
  }

  /** One attempt, and the pause after it if it rolled back and is not the last. `None` is to be tried
      again. */
  method RunCounted(attempts: nat, backoff: real, connect: nat -> Connect, work: nat -> Work, before: nat, taken: nat,
                    paused: real)
    returns (result: Option<Result>, runs: nat, connects: nat, commits: nat, total: real)
    requires before < attempts && 0.0 <= backoff && (taken == 0 || connect(taken - 1).Connected?)
    requires before == Connections(connect, taken) && forall i :: 0 <= i < before ==> work(i) == RollsBack(true)
    requires PausedSoFar(attempts, backoff, connect, before, taken, paused)
    ensures result.Some? ==> Explains(result.value, attempts, connect, work, runs, connects, commits)
    ensures runs <= attempts && 1 <= connects <= Tries(before + 1, attempts)
    ensures result.Some? ==> total == TotalPaused(result.value, backoff, connect, runs, connects)
    ensures result.None? ==> work(before) == RollsBack(true) && commits == 0 && connect(connects - 1).Connected?
    ensures result.None? ==>
      && runs == before + 1 == Connections(connect, connects) < attempts
      && PausedSoFar(attempts, backoff, connect, runs, connects, total)
    ensures total <= MostPaused(attempts, backoff)
  {
    var waited;
    result, runs, connects, commits, waited := RunWaited(attempts, backoff, connect, work, before, taken);
    ghost var acquiring := ConnectPauses(backoff, connect, taken) + waited;
    PausesFit(attempts, before + 1, before, backoff, acquiring);
    total := paused + waited;
    if result.None? {
      RollbackExplained(attempts, connect, work, runs, connects);
      if runs == attempts {
        return Some(RolledBack), runs, connects, commits, total;
      }
      PausesFit(attempts, before + 1, before + 1, backoff, acquiring);
      total := total + Pause(backoff, before);
      if !work(before).slept {
        return Some(CancelledInPause), runs, connects, commits, total;
      }
    }
  }

  /** `transaction`. The work commits once if a value is returned. Otherwise it did not, unless its
      connection was lost after it had, and nothing is tried again then. A pause that is cut counts
      whole. */
  method Transaction(attempts: nat, backoff: real, connect: nat -> Connect, work: nat -> Work)
    returns (result: Result, runs: nat, connects: nat, commits: nat, paused: real)
    requires 1 <= attempts && 0.0 <= backoff
    ensures Explains(result, attempts, connect, work, runs, connects, commits)
    ensures runs <= attempts && 1 <= connects <= attempts * attempts
    ensures paused == TotalPaused(result, backoff, connect, runs, connects)
    ensures paused <= (attempts + 1) as real * (backoff * (Pow2(attempts - 1) - 1) as real)
  {
    MostPausedIs(attempts, backoff);
    TriesAreProduct(attempts, attempts);
    runs, connects, paused := 0, 0, 0.0;
    for attempt := 1 to attempts + 1
      invariant attempt <= attempts && runs == attempt - 1 == Connections(connect, connects)
      invariant connects == 0 || connect(connects - 1).Connected?
      invariant forall i :: 0 <= i < runs ==> work(i) == RollsBack(true)
      invariant PausedSoFar(attempts, backoff, connect, runs, connects, paused)
    {
      var outcome;
      outcome, runs, connects, commits, paused := RunCounted(attempts, backoff, connect, work, runs, connects, paused);
      TriesGrow(attempt, attempts, attempts);
      if outcome.Some? {
        return outcome.value, runs, connects, commits, paused;
      }
    }
    assert false;
  }
}
