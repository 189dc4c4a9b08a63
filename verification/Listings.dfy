/** The two registries' listings: campaigns by two stable sorts or one `ORDER BY`, cycles filtered by
    a derived status before or during a scan in batches. */
module Listings {
  import opened Basics
  import opened Ordering
  import opened CampaignLifecycle

  // --- campaigns ---

  predicate LexLeq(a: string, b: string) {
    a == [] || (b != [] && (a[0] < b[0] || (a[0] == b[0] && LexLeq(a[1..], b[1..]))))
  }

  lemma {:induction false} LexIsTotal(a: string, b: string)
    ensures LexLeq(a, b) || LexLeq(b, a)
    ensures LexLeq(a, b) && LexLeq(b, a) ==> a == b
  {
    if a != [] && b != [] {
      LexIsTotal(a[1..], b[1..]);
      assert a == [a[0]] + a[1..] && b == [b[0]] + b[1..];
    }
  }

  lemma {:induction false} LexIsTransitive(a: string, b: string, c: string)
    requires LexLeq(a, b) && LexLeq(b, c)
    ensures LexLeq(a, c)
  {
    if a != [] && a[0] == b[0] && b[0] == c[0] {
      LexIsTransitive(a[1..], b[1..], c[1..]);
    }
  }

  /** Either the first ends there, or it is the smaller at the first character that differs. */
  ghost predicate PrecedesAt(a: string, b: string, k: int) {
    && 0 <= k <= |a| && k <= |b| && a[..k] == b[..k]
    && (k == |a| || (k < |b| && a[k] < b[k]))
  }

  lemma {:induction false} HeadsMatch(a: string, b: string, k: int)
    requires PrecedesAt(a, b, k) && k > 0
    ensures a[0] == b[0]
  {
    assert a[0] == a[..k][0] && b[0] == b[..k][0];
  }

  /** Ids compare as dictionary words do. */
  lemma {:induction false} LexIsFirstDifference(a: string, b: string)
    ensures LexLeq(a, b) <==> exists k :: PrecedesAt(a, b, k)
  {
    forall k | PrecedesAt(a, b, k) && k > 0
      ensures b != [] && a[0] == b[0]
    {
      HeadsMatch(a, b, k);
    }
    if a == [] {
      assert PrecedesAt(a, b, 0);
    } else if b != [] && a[0] == b[0] {
      LexIsFirstDifference(a[1..], b[1..]);
      assert a == [a[0]] + a[1..] && b == [b[0]] + b[1..];
      if k :| PrecedesAt(a[1..], b[1..], k) {
        assert a[..k + 1] == [a[0]] + a[1..][..k] && b[..k + 1] == [b[0]] + b[1..][..k];
        assert PrecedesAt(a, b, k + 1);
      }
      if k :| PrecedesAt(a, b, k) {
        assert a[1..][..k - 1] == a[..k][1..] && b[1..][..k - 1] == b[..k][1..];
        assert PrecedesAt(a[1..], b[1..], k - 1);
      }
    } else if b != [] && a[0] < b[0] {
      assert PrecedesAt(a, b, 0);
    }
  }

  function ById(): (Campaign, Campaign) -> bool {
    (a: Campaign, b: Campaign) => LexLeq(a.campaignId, b.campaignId)
  }

  function NewestCampaign(): (Campaign, Campaign) -> bool {
    (a: Campaign, b: Campaign) => a.createdAt >= b.createdAt
  }

  function OfProject(projectId: string): Campaign -> bool {
    (c: Campaign) => c.projectId == projectId
  }

  /** `list_campaigns` in memory, before paging: sorted by id, then by creation, newest first. */
  function SortedTwice(campaigns: seq<Campaign>, projectId: string): seq<Campaign> {
    StableSort(StableSort(Filter(campaigns, OfProject(projectId)), ById()), NewestCampaign())
  }

  /** `WHERE project_id = $1 ORDER BY created_at DESC, campaign_id`. */
  ghost predicate Selects(rows: seq<Campaign>, campaigns: seq<Campaign>, projectId: string) {
    && (forall c :: multiset(rows)[c] == if c.projectId == projectId then multiset(campaigns)[c] else 0)
    && (forall i, j :: 0 <= i < j < |rows| ==>
          || rows[i].createdAt > rows[j].createdAt
          || (rows[i].createdAt == rows[j].createdAt && LexLeq(rows[i].campaignId, rows[j].campaignId)))
  }

  /** The query's rows are the filter's, in the order of the two sorts. */
  lemma {:induction false} SelectsIsOrdered(rows: seq<Campaign>, campaigns: seq<Campaign>, projectId: string)
    ensures Selects(rows, campaigns, projectId) <==>
      && multiset(rows) == multiset(Filter(campaigns, OfProject(projectId)))
      && LexOrdered(rows, NewestCampaign(), ById())
  {
    forall c
      ensures multiset(Filter(campaigns, OfProject(projectId)))[c] ==
        if c.projectId == projectId then multiset(campaigns)[c] else 0
    {
      FilterCounts(campaigns, OfProject(projectId), c);
    }
  }

  ghost predicate DistinctIds(campaigns: seq<Campaign>) {
    forall a, b :: a in campaigns && b in campaigns && a.campaignId == b.campaignId ==> a == b
  }

  lemma {:induction false} OrdersAreTotal()
    ensures TotalPreorder(ById()) && TotalPreorder(NewestCampaign())
  {
    forall a: Campaign, b: Campaign
      ensures ById()(a, b) || ById()(b, a)
    {
      LexIsTotal(a.campaignId, b.campaignId);
    }
    forall a: Campaign, b: Campaign, c: Campaign | ById()(a, b) && ById()(b, c)
      ensures ById()(a, c)
    {
      LexIsTransitive(a.campaignId, b.campaignId, c.campaignId);
    }
  }

  lemma {:induction false} SortedTwiceIsOrdered(campaigns: seq<Campaign>, projectId: string)
    ensures multiset(SortedTwice(campaigns, projectId)) == multiset(Filter(campaigns, OfProject(projectId)))
    ensures LexOrdered(SortedTwice(campaigns, projectId), NewestCampaign(), ById())
  {
    var found := Filter(campaigns, OfProject(projectId));
    OrdersAreTotal();
    SortOrders(found, ById());
    SortPermutes(found, ById());
    SortRefines(StableSort(found, ById()), NewestCampaign(), ById());
    SortPermutes(StableSort(found, ById()), NewestCampaign());
  }

  /** The two stable sorts are what the query selects. */
  lemma {:induction false} TwoSortsAreTheOrder(campaigns: seq<Campaign>, projectId: string)
    ensures Selects(SortedTwice(campaigns, projectId), campaigns, projectId)
  {
    SortedTwiceIsOrdered(campaigns, projectId);
    SelectsIsOrdered(SortedTwice(campaigns, projectId), campaigns, projectId);
  }

  lemma {:induction false} OrderedIsSorted(campaigns: seq<Campaign>, projectId: string, rows: seq<Campaign>)
    requires DistinctIds(campaigns) && LexOrdered(rows, NewestCampaign(), ById())
      && multiset(rows) == multiset(Filter(campaigns, OfProject(projectId)))
    ensures rows == SortedTwice(campaigns, projectId)
  {
    var sorted := SortedTwice(campaigns, projectId);
    SortedTwiceIsOrdered(campaigns, projectId);
    PermutedMembers(sorted, Filter(campaigns, OfProject(projectId)));
    FilterMembers(campaigns, OfProject(projectId));
    forall i, j | 0 <= i < |sorted| && 0 <= j < |sorted| && ById()(sorted[i], sorted[j]) && ById()(sorted[j], sorted[i])
      ensures sorted[i] == sorted[j]
    {
      LexIsTotal(sorted[i].campaignId, sorted[j].campaignId);
      assert sorted[i] in campaigns && sorted[j] in campaigns;
    }
    OrderIsUnique(sorted, rows, NewestCampaign(), ById());
  }

  /** Whatever the query selects is the two sorts' list, so every page of the two is the same. */
  lemma {:induction false} CampaignPagesAgree(campaigns: seq<Campaign>, projectId: string, rows: seq<Campaign>)
    requires DistinctIds(campaigns) && Selects(rows, campaigns, projectId)
    ensures rows == SortedTwice(campaigns, projectId)
  {
    SelectsIsOrdered(rows, campaigns, projectId);
    OrderedIsSorted(campaigns, projectId, rows);
  }

  // --- a cycle's status ---

  datatype RunStatus = Queued | Running | PausedRun | CompletedRun | FailedRun | CancelledRun
  datatype CycleStatus = Created | Active | CompletedCycle | FailedCycle | CancelledCycle
  datatype Run = Run(number: int, status: RunStatus)

  /** The first of the highest-numbered runs. */
  function Newest(runs: seq<Run>): Option<Run> {
    if runs == [] then None
    else
      var earlier, last := Newest(runs[..|runs| - 1]), runs[|runs| - 1];
      if earlier.None? || earlier.value.number < last.number then Some(last) else earlier
  }

  function NotCancelled(runs: seq<Run>): seq<Run> {
    if runs == [] then []
    else
      var last := runs[|runs| - 1];
      NotCancelled(runs[..|runs| - 1]) + if last.status.CancelledRun? then [] else [last]
  }

  function StatusOf(latest: Option<Run>): CycleStatus {
    match latest
    case None => Created
    case Some(run) =>
      match run.status
      case CompletedRun => CompletedCycle
      case FailedRun => FailedCycle
      case _ => Active
  }

  /** `derive_cycle_status`. */
  function Derive(runs: seq<Run>, cancelled: bool): CycleStatus {
    if cancelled then CancelledCycle
    else StatusOf(Newest(NotCancelled(runs)))
  }

  /** The Postgres listing derives from the latest run alone, cancelled or not. */
  function DeriveFromLatest(runs: seq<Run>, cancelled: bool): CycleStatus {
    Derive(if Newest(runs).Some? then [Newest(runs).value] else [], cancelled)
  }

  lemma {:induction false} NewestIsHighest(runs: seq<Run>)
    ensures Newest(runs).None? <==> runs == []
    ensures Newest(runs).Some? ==> Newest(runs).value in runs
    ensures forall i :: 0 <= i < |runs| ==> runs[i].number <= Newest(runs).value.number
  {
    if runs == [] {
    } else {
      NewestIsHighest(runs[..|runs| - 1]);
    }
  }

  lemma {:induction false} LiveWithin(runs: seq<Run>, r: Run)
    requires r in NotCancelled(runs)
    ensures r in runs && !r.status.CancelledRun?
  {
    var init := runs[..|runs| - 1];
    if r in NotCancelled(init) { LiveWithin(init, r); }
  }

  /** A latest run that is not cancelled is the latest of those that are not. */
  lemma {:induction false} NewestLives(runs: seq<Run>)
    requires runs != [] && !Newest(runs).value.status.CancelledRun?
    ensures Newest(NotCancelled(runs)) == Newest(runs)
  {
    var init, last := runs[..|runs| - 1], runs[|runs| - 1];
    var live := NotCancelled(init);
    NewestIsHighest(init);
    NewestIsHighest(live);
    if init == [] || Newest(init).value.number < last.number {
      if live != [] { LiveWithin(init, Newest(live).value); }
    } else {
      NewestLives(init);
    }
    if last.status.CancelledRun? {
      assert NotCancelled(runs) == live;
    } else {
      assert NotCancelled(runs) == live + [last] && (live + [last])[..|live|] == live;
    }
  }

  lemma {:induction false} OneRun(latest: Run)
    ensures Newest([]) == None && NotCancelled([]) == []
    ensures Newest([latest]) == Some(latest)
    ensures NotCancelled([latest]) == if latest.status.CancelledRun? then [] else [latest]
  {
    assert [latest][..0] == [];
  }

  /** What a status is derived from: the latest run that is not cancelled. */
  lemma {:induction false} LatestOfLatest(runs: seq<Run>)
    ensures var latest := Newest(runs);
      Newest(NotCancelled(if latest.Some? then [latest.value] else [])) ==
        if latest.Some? && !latest.value.status.CancelledRun? then latest else None
  {
    if Newest(runs).Some? { OneRun(Newest(runs).value); }
  }

  lemma {:induction false} LatestLive(runs: seq<Run>)
    ensures NotCancelled(runs) == [] ==>
      Newest(NotCancelled(runs)).None? && (Newest(runs).Some? ==> Newest(runs).value.status.CancelledRun?)
    ensures NotCancelled(runs) != [] ==> Newest(runs).Some? && Newest(NotCancelled(runs)).Some?
    ensures Newest(runs).Some? && !Newest(runs).value.status.CancelledRun? ==>
      Newest(NotCancelled(runs)) == Newest(runs)
  {
    NewestIsHighest(runs);
    NewestIsHighest(NotCancelled(runs));
    if NotCancelled(runs) != [] { LiveWithin(runs, Newest(NotCancelled(runs)).value); }
    if runs != [] && !Newest(runs).value.status.CancelledRun? { NewestLives(runs); }
  }

  /** The two derivations differ exactly on a live cycle whose latest run is cancelled and which has
      a run that is not. */
  lemma {:induction false} StatusesAgree(runs: seq<Run>, cancelled: bool)
    ensures DeriveFromLatest(runs, cancelled) == Derive(runs, cancelled)
       <==> cancelled || NotCancelled(runs) == [] || (Newest(runs).Some? && !Newest(runs).value.status.CancelledRun?)
  {
    LatestOfLatest(runs);
    LatestLive(runs);
  }

  /** The first of the highest-numbered runs, among those not cancelled or among all. */
  ghost predicate Decides(runs: seq<Run>, i: int, amongAll: bool) {
    && 0 <= i < |runs| && (amongAll || !runs[i].status.CancelledRun?)
    && forall j :: 0 <= j < |runs| && (amongAll || !runs[j].status.CancelledRun?) ==>
         runs[j].number <= runs[i].number && (j < i ==> runs[j].number < runs[i].number)
  }

  /** The status a cycle has from the run that decides it. */
  ghost predicate Shows(status: CycleStatus, run: RunStatus) {
    && (run.Queued? || run.Running? || run.PausedRun? <==> status.Active?)
    && (run.CompletedRun? <==> status.CompletedCycle?) && (run.FailedRun? <==> status.FailedCycle?)
    && (run.CancelledRun? <==> status.Created?)
  }

  lemma {:induction false} NewestDecides(runs: seq<Run>, i: int)
    requires Decides(runs, i, true)
    ensures Newest(runs) == Some(runs[i])
  {
    var n := |runs| - 1;
    NewestIsHighest(runs[..n]);
    if i < n {
      assert Decides(runs[..n], i, true);
      NewestDecides(runs[..n], i);
    } else if n > 0 {
      var j :| 0 <= j < n && runs[..n][j] == Newest(runs[..n]).value;
      assert runs[j].number < runs[n].number;
    }
  }

  /** A cycle is cancelled exactly when it was, created exactly when it has no run but cancelled ones,
      and otherwise shows the latest run that is not. */
  lemma {:induction false} StatusIsItsRuns(runs: seq<Run>, cancelled: bool)
    ensures Derive(runs, cancelled).CancelledCycle? <==> cancelled
    ensures !cancelled ==>
      (Derive(runs, false).Created? <==> forall j :: 0 <= j < |runs| ==> runs[j].status.CancelledRun?)
    ensures !cancelled ==> forall i :: Decides(runs, i, false) ==> Shows(Derive(runs, false), runs[i].status)
  {
    NoneLive(runs);
    forall i | Decides(runs, i, false)
      ensures Newest(NotCancelled(runs)) == Some(runs[i])
    {
      LiveDecides(runs, i);
    }
    NewestIsHighest(NotCancelled(runs));
    if NotCancelled(runs) != [] { LiveWithin(runs, Newest(NotCancelled(runs)).value); }
  }

  lemma {:induction false} NoneLive(runs: seq<Run>)
    ensures NotCancelled(runs) == [] <==> forall j :: 0 <= j < |runs| ==> runs[j].status.CancelledRun?
  {
    if runs == [] {
    } else {
      NoneLive(runs[..|runs| - 1]);
    }
  }

  lemma {:induction false} NewestNext(live: seq<Run>, last: Run)
    ensures Newest(live + [last]) ==
      if live == [] || Newest(live).value.number < last.number then Some(last) else Newest(live)
  {
    NewestIsHighest(live);
    assert (live + [last])[..|live|] == live;
  }

  lemma {:induction false} LiveDecides(runs: seq<Run>, i: int)
    requires Decides(runs, i, false)
    ensures Newest(NotCancelled(runs)) == Some(runs[i])
  {
    var n := |runs| - 1;
    var init, live := runs[..n], NotCancelled(runs[..n]);
    NewestIsHighest(live);
    NewestNext(live, runs[n]);
    assert NotCancelled(runs) == if runs[n].status.CancelledRun? then live else live + [runs[n]];
    if i < n {
      assert Decides(init, i, false);
      LiveDecides(init, i);
    } else if live != [] {
      LiveWithin(init, Newest(live).value);
      var j :| 0 <= j < n && init[j] == Newest(live).value;
      assert runs[j].number < runs[n].number;
    }
  }

  lemma {:induction false} ListedFrom(runs: seq<Run>, cancelled: bool)
    ensures DeriveFromLatest(runs, cancelled) ==
      if cancelled then CancelledCycle
      else StatusOf(if Newest(runs).Some? && !Newest(runs).value.status.CancelledRun? then Newest(runs) else None)
  {
    LatestOfLatest(runs);
  }

  /** The Postgres listing shows the latest run of all, and a cancelled one as created. */
  lemma {:induction false} ListedStatusIsItsRun(runs: seq<Run>, cancelled: bool)
    ensures DeriveFromLatest(runs, cancelled).CancelledCycle? <==> cancelled
    ensures !cancelled && runs == [] ==> DeriveFromLatest(runs, false).Created?
    ensures !cancelled ==> forall i :: Decides(runs, i, true) ==> Shows(DeriveFromLatest(runs, false), runs[i].status)
  {
    ListedFrom(runs, cancelled);
    if i :| Decides(runs, i, true) {
      NewestDecides(runs, i);
      forall j | Decides(runs, j, true)
        ensures Newest(runs) == Some(runs[j])
      {
        NewestDecides(runs, j);
      }
    }
  }

  /** A failed cycle whose retry was cancelled is listed as failed by one and as created by the other. */
  lemma {:induction false} CancelledRetryExample()
    ensures var runs := [Run(1, FailedRun), Run(2, CancelledRun)];
      Derive(runs, false) == FailedCycle && DeriveFromLatest(runs, false) == Created
  {
    var runs := [Run(1, FailedRun), Run(2, CancelledRun)];
    assert runs[..1] == [Run(1, FailedRun)] && runs[..1][..0] == [];
    assert Newest(runs[..1]) == Some(Run(1, FailedRun));
    assert NotCancelled(runs) == runs[..1];
  }

  // --- a page of cycles in one status ---

  datatype CycleRow = CycleRow(cycleId: string, createdAt: int, cancelled: bool)

  type Derivation = (seq<Run>, bool) -> CycleStatus

  function InStatus(derive: Derivation, runs: string -> seq<Run>, status: CycleStatus): CycleRow -> bool {
    (c: CycleRow) => derive(runs(c.cycleId), c.cancelled) == status
  }

  const BATCH: nat := 200

  /** One batch's cycles in the status. */
  method MatchBatch(batch: seq<CycleRow>, runs: string -> seq<Run>, status: CycleStatus, before: seq<CycleRow>)
    returns (matched: seq<CycleRow>)
    ensures matched == before + Filter(batch, InStatus(DeriveFromLatest, runs, status))
  {
    var wanted := InStatus(DeriveFromLatest, runs, status);
    matched := before;
    ghost var kept: seq<CycleRow> := [];
    for i := 0 to |batch|
      invariant matched == before + kept && kept == Filter(batch[..i], wanted)
    {
      FilterNext(batch, i, wanted);
      if wanted(batch[i]) {
        matched, kept := matched + [batch[i]], kept + [batch[i]];
      }
    }
    assert batch[..|batch|] == batch;
  }

  /** A batch extends what was read. */
  lemma {:induction false} BatchJoins(rows: seq<CycleRow>, read: nat, wanted: CycleRow -> bool)
    requires read <= |rows|
    ensures var batch := Page(rows, read, BATCH);
      && read + |batch| <= |rows| && (|batch| < BATCH ==> read + |batch| == |rows|)
      && Filter(rows[..read], wanted) + Filter(batch, wanted) == Filter(rows[..read + |batch|], wanted)
  {
    var batch := Page(rows, read, BATCH);
    FilterJoins(rows[..read], batch, wanted);
    assert rows[..read] + batch == rows[..read + |batch|];
  }

  /** What was read decides the page once it fills it, or is everything. */
  lemma {:induction false} PageIsDecided(rows: seq<CycleRow>, read: nat, wanted: CycleRow -> bool, offset: nat,
                                         limit: nat)
    requires read <= |rows| && (offset + limit <= |Filter(rows[..read], wanted)| || read == |rows|)
    ensures Page(Filter(rows[..read], wanted), offset, limit) == Page(Filter(rows, wanted), offset, limit)
  {
    FilterJoins(rows[..read], rows[read..], wanted);
    assert rows[..read] + rows[read..] == rows;
  }

  /** `list_cycles` with a status, over the project's rows newest first: the scan reads a batch at a
      time and stops once the page is filled or a batch is short. */
  method ListByStatus(rows: seq<CycleRow>, runs: string -> seq<Run>, status: CycleStatus, limit: nat, offset: nat)
    returns (page: seq<CycleRow>)
    ensures page == Page(Filter(rows, InStatus(DeriveFromLatest, runs, status)), offset, limit)
  {
    ghost var wanted := InStatus(DeriveFromLatest, runs, status);
    var matched: seq<CycleRow> := [];
    var read := 0;
    while |matched| < offset + limit
      invariant 0 <= read <= |rows|
      invariant matched == Filter(rows[..read], wanted)
      decreases |rows| - read
    {
      var batch := Page(rows, read, BATCH);
      BatchJoins(rows, read, wanted);
      if batch == [] {
        break;
      }
      matched := MatchBatch(batch, runs, status, matched);
      read := read + |batch|;
      if |batch| < BATCH {
        break;
      }
    }
    PageIsDecided(rows, read, wanted, offset, limit);
    page := Page(matched, offset, limit);
  }

  function NewestCycle(): (CycleRow, CycleRow) -> bool {
    (a: CycleRow, b: CycleRow) => a.createdAt >= b.createdAt
  }

  /** `list_cycles` in memory: filter, sort newest first, slice. */
  function FilteredListing(cycles: seq<CycleRow>, runs: string -> seq<Run>, status: CycleStatus, limit: nat,
                           offset: nat): seq<CycleRow> {
    Page(StableSort(Filter(cycles, InStatus(Derive, runs, status)), NewestCycle()), offset, limit)
  }

  lemma {:induction false} FiltersAgree(cycles: seq<CycleRow>, runs: string -> seq<Run>, status: CycleStatus)
    requires forall c :: c in cycles ==>
      DeriveFromLatest(runs(c.cycleId), c.cancelled) == Derive(runs(c.cycleId), c.cancelled)
    ensures Filter(cycles, InStatus(DeriveFromLatest, runs, status)) == Filter(cycles, InStatus(Derive, runs, status))
  {
    if cycles == [] {
    } else {
      FiltersAgree(cycles[1..], runs, status);
    }
  }

  predicate LatestRunLive(c: CycleRow, runs: string -> seq<Run>) {
    var mine := runs(c.cycleId);
    c.cancelled || NotCancelled(mine) == [] || (Newest(mine).Some? && !Newest(mine).value.status.CancelledRun?)
  }

  /** No cycle is caught where the two derivations differ. */
  ghost predicate LatestRunsLive(cycles: seq<CycleRow>, runs: string -> seq<Run>) {
    forall c :: c in cycles ==> LatestRunLive(c, runs)
  }

  ghost predicate NewestFirst(rows: seq<CycleRow>) {
    forall i, j :: 0 <= i < j < |rows| ==> rows[i].createdAt >= rows[j].createdAt
  }

  ghost predicate DistinctTimes(cycles: seq<CycleRow>) {
    forall i, j ::
      0 <= i < |cycles| && 0 <= j < |cycles| && cycles[i].createdAt == cycles[j].createdAt ==> cycles[i] == cycles[j]
  }

  /** Where creation times differ, newest first is the in-memory order. */
  lemma {:induction false} NewestFirstIsSorted(cycles: seq<CycleRow>, rows: seq<CycleRow>)
    requires multiset(rows) == multiset(cycles) && NewestFirst(rows) && DistinctTimes(cycles)
    ensures rows == StableSort(cycles, NewestCycle())
  {
    var sorted := StableSort(cycles, NewestCycle());
    SortOrders(cycles, NewestCycle());
    SortPermutes(cycles, NewestCycle());
    PermutedMembers(sorted, cycles);
    assert LexOrdered(sorted, NewestCycle(), NewestCycle()) && LexOrdered(rows, NewestCycle(), NewestCycle());
    assert TiesAreEqual(sorted, NewestCycle(), NewestCycle()) by {
      forall i, j | 0 <= i < |sorted| && 0 <= j < |sorted| && sorted[i].createdAt == sorted[j].createdAt
        ensures sorted[i] == sorted[j]
      {
        assert sorted[i] in cycles && sorted[j] in cycles;
      }
    }
    OrderIsUnique(sorted, rows, NewestCycle(), NewestCycle());
  }

  function ScannedPage(rows: seq<CycleRow>, runs: string -> seq<Run>, status: CycleStatus, limit: nat,
                       offset: nat): seq<CycleRow> {
    Page(Filter(rows, InStatus(DeriveFromLatest, runs, status)), offset, limit)
  }

  /** The batched scan's page, over the rows newest first, is the in-memory listing's. */
  lemma {:induction false} LivePagesAgree(cycles: seq<CycleRow>, rows: seq<CycleRow>, runs: string -> seq<Run>,
                                          status: CycleStatus, limit: nat, offset: nat)
    requires rows == StableSort(cycles, NewestCycle()) && LatestRunsLive(cycles, runs)
    ensures ScannedPage(rows, runs, status, limit, offset) == FilteredListing(cycles, runs, status, limit, offset)
  {
    SortPermutes(cycles, NewestCycle());
    PermutedMembers(rows, cycles);
    forall c | c in rows
      ensures DeriveFromLatest(runs(c.cycleId), c.cancelled) == Derive(runs(c.cycleId), c.cancelled)
    {
      StatusesAgree(runs(c.cycleId), c.cancelled);
    }
    FiltersAgree(rows, runs, status);
    FilterCommutes(cycles, NewestCycle(), InStatus(Derive, runs, status));
  }

  lemma {:induction false} FilterShrinks<T>(s: seq<T>, keep: T -> bool)
    ensures |Filter(s, keep)| <= |s|
  {
    if s != [] { FilterShrinks(s[1..], keep); }
  }

  /** The in-memory page is a slice of the cycles in the status, each as often as it is there, newest
      first. */
  lemma {:induction false} ListingIsExact(cycles: seq<CycleRow>, runs: string -> seq<Run>, status: CycleStatus,
                                          limit: nat, offset: nat) returns (all: seq<CycleRow>)
    ensures FilteredListing(cycles, runs, status, limit, offset) == Page(all, offset, limit)
    ensures forall c ::
      multiset(all)[c] == if Derive(runs(c.cycleId), c.cancelled) == status then multiset(cycles)[c] else 0
    ensures NewestFirst(all)
  {
    var wanted := InStatus(Derive, runs, status);
    all := StableSort(Filter(cycles, wanted), NewestCycle());
    SortOrders(Filter(cycles, wanted), NewestCycle());
    SortPermutes(Filter(cycles, wanted), NewestCycle());
    forall c
      ensures multiset(all)[c] == if Derive(runs(c.cycleId), c.cancelled) == status then multiset(cycles)[c] else 0
    {
      FilterCounts(cycles, wanted, c);
    }
  }

  /** A cycle caught with its latest run cancelled is on one page of everything and not on the other. */
  lemma {:induction false} CaughtPagesDiffer(cycles: seq<CycleRow>, rows: seq<CycleRow>, runs: string -> seq<Run>,
                                             c: CycleRow)
    requires rows == StableSort(cycles, NewestCycle()) && c in cycles
    requires Derive(runs(c.cycleId), c.cancelled) != DeriveFromLatest(runs(c.cycleId), c.cancelled)
    ensures var status := Derive(runs(c.cycleId), c.cancelled);
      ScannedPage(rows, runs, status, |cycles|, 0) != FilteredListing(cycles, runs, status, |cycles|, 0)
  {
    var status := Derive(runs(c.cycleId), c.cancelled);
    var scanned := Filter(rows, InStatus(DeriveFromLatest, runs, status));
    var kept := Filter(cycles, InStatus(Derive, runs, status));
    FilterMembers(rows, InStatus(DeriveFromLatest, runs, status));
    FilterMembers(cycles, InStatus(Derive, runs, status));
    SortPermutes(kept, NewestCycle());
    PermutedMembers(StableSort(kept, NewestCycle()), kept);
    FilterShrinks(cycles, InStatus(Derive, runs, status));
    assert c in StableSort(kept, NewestCycle()) && c !in scanned;
    assert FilteredListing(cycles, runs, status, |cycles|, 0) == StableSort(kept, NewestCycle());
  }

  /** The two listings, over any permutation of the same cycles newest first. */
  ghost predicate PagesAgree(cycles: seq<CycleRow>, rows: seq<CycleRow>, runs: string -> seq<Run>) {
    forall status, limit: nat, offset: nat ::
      ScannedPage(rows, runs, status, limit, offset) == FilteredListing(cycles, runs, status, limit, offset)
  }

  /** Where creation times differ, the two listings agree on every page of every status if and only if
      no cycle is caught with its latest run cancelled. */
  lemma {:induction false} CyclePagesAgree(cycles: seq<CycleRow>, rows: seq<CycleRow>, runs: string -> seq<Run>)
    requires multiset(rows) == multiset(cycles) && NewestFirst(rows) && DistinctTimes(cycles)
    ensures PagesAgree(cycles, rows, runs) <==> LatestRunsLive(cycles, runs)
  {
    NewestFirstIsSorted(cycles, rows);
    if LatestRunsLive(cycles, runs) {
      forall status, limit: nat, offset: nat
        ensures ScannedPage(rows, runs, status, limit, offset) == FilteredListing(cycles, runs, status, limit, offset)
      {
        LivePagesAgree(cycles, rows, runs, status, limit, offset);
      }
    } else {
      var c :| c in cycles && !LatestRunLive(c, runs);
      StatusesAgree(runs(c.cycleId), c.cancelled);
      CaughtPagesDiffer(cycles, rows, runs, c);
    }
  }
}
