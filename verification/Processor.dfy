/**
 Processing one agent snapshot into a score row and aligned metric rows
 (backend/internal/worker/processor.go).
 */
module Processor {
  import opened Counting
  import Rounding
  import opened WasteDetector
  import opened ScoreEngine
  import opened Costs

  datatype Snapshot = Snapshot(clusterId: string, tenantId: string, collectedAt: int, pods: seq<PodInput>)

  datatype ScoreRow = ScoreRow(
    clusterId: string,
    time: int,
    score: real,
    grade: string,
    breakdown: Breakdown,
    podsAnalyzed: nat,
    annualWasteEur: real,
    co2KgAnnual: real)

  datatype MetricRow = MetricRow(
    time: int,
    clusterId: string,
    podName: string,
    containerName: string,
    namespace: string,
    cpuRequestM: real,
    memRequestMi: real,
    cpuUsageP95M: real,
    memUsageP95Mi: real,
    cpuWasteM: real,
    memWasteMi: real,
    costWasteEur: real,
    hasLimits: bool,
    restartCount: int)

  /** The row of one pod next to the detector's report on it. */
  function RowOf(snap: Snapshot, pod: PodInput, r: WasteReport): MetricRow {
    MetricRow(
      snap.collectedAt, snap.clusterId, pod.podName, pod.containerName, pod.namespace,
      pod.cpuRequestM, pod.memRequestMi, pod.cpuUsageP95M, pod.memUsageP95Mi,
      r.cpuWasteM, r.memWasteMi, r.annualCostWasteEur, pod.hasLimits, pod.restartCount)
  }

  function RowsOf(wd: Detector, snap: Snapshot): seq<MetricRow> {
    seq(|snap.pods|, i requires 0 <= i < |snap.pods| => RowOf(snap, snap.pods[i], Analyze(wd, snap.pods[i])))
  }

  ghost function ScoreRowOf(wd: Detector, snap: Snapshot, now: int): ScoreRow {
    var score := ScoreOf(snap.pods, 0, |snap.pods|);
    var reports := ReportsOf(wd, snap.pods);
    ScoreRow(
      snap.clusterId, now, score.value, score.grade, score.breakdown, |snap.pods|,
      SavingsOf(reports).annualSavingsEur, CarbonOf("on-prem", "fr", reports).co2KgAnnual)
  }

  method Convert(snap: Snapshot) returns (pods: seq<PodInput>)
    ensures pods == snap.pods
  {
    pods := [];
    for i := 0 to |snap.pods|
      invariant pods == snap.pods[..i]
    {
      pods := pods + [snap.pods[i]];
    }
  }

  method AnalyzeAll(wd: Detector, pods: seq<PodInput>) returns (reports: seq<WasteReport>)
    ensures reports == ReportsOf(wd, pods)
  {
    reports := [];
    for i := 0 to |pods|
      invariant reports == ReportsOf(wd, pods)[..i]
    {
      reports := reports + [Analyze(wd, pods[i])];
    }
  }

  /** Walks over the pods and their reports in step. */
  method Align(ghost wd: Detector, snap: Snapshot, reports: seq<WasteReport>) returns (rows: seq<MetricRow>)
    requires reports == ReportsOf(wd, snap.pods)
    ensures rows == RowsOf(wd, snap)
  {
    rows := [];
    for i := 0 to |snap.pods|
      invariant rows == RowsOf(wd, snap)[..i]
    {
      if i >= |reports| {
        break;
      }
      rows := rows + [RowOf(snap, snap.pods[i], reports[i])];
    }
  }

  /**
   One message: its payload is None when it does not parse; scoreInserted and rowsInserted say whether
   the two inserts succeed.
   */
  datatype Job = Job(payload: Option<Snapshot>, now: int, scoreInserted: bool, rowsInserted: bool)

  /** The contents of the tables. */
  datatype Stored = Stored(scores: seq<ScoreRow>, metrics: seq<MetricRow>, lastSeen: set<string>)

  ghost function After(wd: Detector, t: Stored, job: Job): Stored {
    match job.payload
    case None => t
    case Some(snap) =>
      Stored(
        t.scores + if job.scoreInserted then [ScoreRowOf(wd, snap, job.now)] else [],
        t.metrics + if job.rowsInserted then RowsOf(wd, snap) else [],
        t.lastSeen + {snap.clusterId})
  }

  /** The tables that a snapshot is written to. */
  class Tables {
    var scores: seq<ScoreRow>
    var metrics: seq<MetricRow>
    var lastSeen: set<string>

    ghost function Value(): Stored
      reads this
    {
      Stored(scores, metrics, lastSeen)
    }

    constructor ()
      ensures scores == [] && metrics == [] && lastSeen == {}
    {
      scores, metrics, lastSeen := [], [], {};
    }

    /** Failed inserts do not change the outcome. */
    method Process(wd: Detector, payload: Option<Snapshot>, now: int, scoreInserted: bool, rowsInserted: bool)
      returns (ok: bool)
      modifies this
      ensures ok <==> payload.Some?
      ensures !ok ==> scores == old(scores) && metrics == old(metrics) && lastSeen == old(lastSeen)
      ensures ok ==> scores == old(scores) + if scoreInserted then [ScoreRowOf(wd, payload.value, now)] else []
      ensures ok ==> metrics == old(metrics) + if rowsInserted then RowsOf(wd, payload.value) else []
      ensures ok ==> lastSeen == old(lastSeen) + {payload.value.clusterId}
      ensures Value() == After(wd, old(Value()), Job(payload, now, scoreInserted, rowsInserted))
    {
      if payload.None? {
        return false;
      }
      var snap := payload.value;
      var pods := Convert(snap);
      var reports := AnalyzeAll(wd, pods);
      var score := ComputeScore(pods, 0, |pods|);
      var carbon := ComputeCarbon("on-prem", "fr", reports);
      var costReport := ComputeSavings(reports);
      if scoreInserted {
        scores := scores + [ScoreRow(
                    snap.clusterId, now, score.value, score.grade, score.breakdown, |pods|,
                    costReport.annualSavingsEur, carbon.co2KgAnnual)];
      }
      var metricRows := Align(wd, snap, reports);
      if |metricRows| > 0 && rowsInserted {
        metrics := metrics + metricRows;
      }
      lastSeen := lastSeen + {snap.clusterId};
      return true;
    }
  }

  // ----- main results

  function CostOf(row: MetricRow): real {
    row.costWasteEur
  }

  lemma {:induction false} SameCosts(wd: Detector, snap: Snapshot)
    ensures Sum(RowsOf(wd, snap), CostOf) == Sum(ReportsOf(wd, snap.pods), AnnualCostOf)
    decreases |snap.pods|
  {
    if snap.pods != [] {
      var rest := snap.(pods := snap.pods[1..]);
      SameCosts(wd, rest);
      assert RowsOf(wd, snap)[1..] == RowsOf(wd, rest);
      assert ReportsOf(wd, snap.pods)[1..] == ReportsOf(wd, rest.pods);
    }
  }

  /** The metric rows of a snapshot add up to the waste in its score row, within (n + 1) / 2 cents. */
  ghost predicate RowsMatch(wd: Detector, snap: Snapshot, now: int) {
    Rounding.Abs(Sum(RowsOf(wd, snap), CostOf) - ScoreRowOf(wd, snap, now).annualWasteEur)
    <= (|snap.pods| as real + 1.0) / 2.0 / 100.0
  }

  lemma ScoreRowWaste(wd: Detector, snap: Snapshot, now: int)
    ensures ScoreRowOf(wd, snap, now).annualWasteEur == SavingsOf(ReportsOf(wd, snap.pods)).annualSavingsEur
  {
  }

  lemma {:induction false} DriftIs(wd: Detector, snap: Snapshot, score: ScoreRow)
    requires score.annualWasteEur == SavingsOf(ReportsOf(wd, snap.pods)).annualSavingsEur
    ensures Rounding.Abs(Sum(RowsOf(wd, snap), CostOf) - score.annualWasteEur)
         <= (|snap.pods| as real + 1.0) / 2.0 / 100.0
       <==> Costs.DriftOk(ReportsOf(wd, snap.pods))
  {
    SameCosts(wd, snap);
  }

  lemma RowsMatchIsDrift(wd: Detector, snap: Snapshot, now: int)
    ensures RowsMatch(wd, snap, now) <==> Costs.DriftOk(ReportsOf(wd, snap.pods))
  {
    ScoreRowWaste(wd, snap, now);
    DriftIs(wd, snap, ScoreRowOf(wd, snap, now));
  }

  /** At the built-in prices every snapshot's rows match its score row. */
  lemma RowsMatchScoreRow(snap: Snapshot, now: int)
    ensures RowsMatch(BUILT_IN, snap, now)
  {
    RowsMatchIsDrift(BUILT_IN, snap, now);
    DriftIsBoundedIff(BUILT_IN);
  }

  /** The worker's detector has the configured prices; the rows match exactly when those are the built-in ones. */
  lemma RowsMatchIff(wd: Detector)
    ensures (forall snap: Snapshot, now: int :: RowsMatch(wd, snap, now)) <==> wd == BUILT_IN
  {
    if wd == BUILT_IN {
      forall snap: Snapshot, now: int ensures RowsMatch(wd, snap, now) {
        RowsMatchScoreRow(snap, now);
      }
    } else {
      DriftIsBoundedIff(wd);
      var pods :| !Costs.DriftOk(ReportsOf(wd, pods));
      RowsMatchIsDrift(wd, Snapshot("", "", 0, pods), 0);
    }
  }

  /** The score row is about its snapshot and clock, and carries the engine's score and the worker's carbon figure. */
  lemma ScoreRowContents(wd: Detector, snap: Snapshot, now: int)
    ensures var row, score := ScoreRowOf(wd, snap, now), ScoreOf(snap.pods, 0, |snap.pods|);
            && row.clusterId == snap.clusterId && row.time == now && row.podsAnalyzed == |snap.pods|
            && (row.score, row.grade, row.breakdown) == (score.value, score.grade, score.breakdown)
            && row.co2KgAnnual == CarbonOf("on-prem", "fr", ReportsOf(wd, snap.pods)).co2KgAnnual
  {
  }

  /** The tables after any sequence of messages. */
  ghost function AfterAll(wd: Detector, jobs: seq<Job>): Stored {
    if jobs == [] then Stored([], [], {})
    else After(wd, AfterAll(wd, jobs[..|jobs| - 1]), jobs[|jobs| - 1])
  }

  /** A row's waste and cost are those that its own requests and usage imply. */
  ghost predicate Consistent(wd: Detector, row: MetricRow) {
    && row.cpuWasteM == Rounding.Max(0.0, row.cpuRequestM - CpuOptimal(row.cpuUsageP95M))
    && row.memWasteMi == Rounding.Max(0.0, row.memRequestMi - MemOptimal(row.memUsageP95Mi))
    && row.costWasteEur == Rounding.Cents(AnnualCost(wd, row.cpuWasteM, row.memWasteMi))
  }

  /** The row carries the pod's own figures, under the snapshot's cluster and time. */
  ghost predicate RowAbout(row: MetricRow, snap: Snapshot, pod: PodInput) {
    && row.clusterId == snap.clusterId && row.time == snap.collectedAt
    && (row.podName, row.containerName, row.namespace) == (pod.podName, pod.containerName, pod.namespace)
    && (row.cpuRequestM, row.memRequestMi) == (pod.cpuRequestM, pod.memRequestMi)
    && (row.cpuUsageP95M, row.memUsageP95Mi) == (pod.cpuUsageP95M, pod.memUsageP95Mi)
    && (row.hasLimits, row.restartCount) == (pod.hasLimits, pod.restartCount)
  }

  /** The row was made from a pod of a message whose rows were inserted. */
  ghost predicate ComesFrom(row: MetricRow, job: Job) {
    && job.payload.Some? && job.rowsInserted
    && exists pod | pod in job.payload.value.pods :: RowAbout(row, job.payload.value, pod)
  }

  lemma NewRowsAreConsistent(wd: Detector, job: Job)
    requires job.payload.Some? && job.rowsInserted
    ensures forall row | row in RowsOf(wd, job.payload.value) :: Consistent(wd, row) && ComesFrom(row, job)
  {
    var snap := job.payload.value;
    forall i | 0 <= i < |snap.pods|
      ensures Consistent(wd, RowsOf(wd, snap)[i]) && ComesFrom(RowsOf(wd, snap)[i], job)
    {
      assert snap.pods[i] in snap.pods;
    }
  }

  /**
   After any sequence of messages, parsed or not, inserted or not, every row of the metric table is
   consistent and belongs to a pod of a processed message.
   */
  lemma {:induction false} EveryRowIsConsistent(wd: Detector, jobs: seq<Job>)
    ensures forall row | row in AfterAll(wd, jobs).metrics ::
              Consistent(wd, row) && exists job | job in jobs :: ComesFrom(row, job)
  {
    if jobs != [] {
      var prefix, job := jobs[..|jobs| - 1], jobs[|jobs| - 1];
      EveryRowIsConsistent(wd, prefix);
      if job.payload.Some? && job.rowsInserted {
        NewRowsAreConsistent(wd, job);
      }
      forall row | row in AfterAll(wd, jobs).metrics
        ensures Consistent(wd, row) && exists job | job in jobs :: ComesFrom(row, job)
      {
        if row in AfterAll(wd, prefix).metrics {
          var earlier :| earlier in prefix && ComesFrom(row, earlier);
          assert earlier in jobs;
        } else {
          assert job in jobs && ComesFrom(row, job);
        }
      }
    }
  }

  /** What a message adds to the metric table. */
  function NewRows(wd: Detector, job: Job): seq<MetricRow> {
    if job.payload.Some? && job.rowsInserted then RowsOf(wd, job.payload.value) else []
  }

  /** The same for each message. */
  function AllNewRows(wd: Detector, jobs: seq<Job>): (parts: seq<seq<MetricRow>>)
    ensures |parts| == |jobs|
  {
    seq(|jobs|, k requires 0 <= k < |jobs| => NewRows(wd, jobs[k]))
  }

  lemma {:induction false} MetricsNext(wd: Detector, jobs: seq<Job>)
    requires jobs != []
    ensures AfterAll(wd, jobs).metrics
         == AfterAll(wd, jobs[..|jobs| - 1]).metrics + NewRows(wd, jobs[|jobs| - 1])
  {
  }

  /** The metric table is exactly the rows of the messages whose rows were inserted, in the order of the messages. */
  lemma {:induction false} MetricsConcat(wd: Detector, jobs: seq<Job>)
    ensures AfterAll(wd, jobs).metrics == Concat(AllNewRows(wd, jobs))
  {
    if jobs != [] {
      var n := |jobs| - 1;
      MetricsConcat(wd, jobs[..n]);
      assert AllNewRows(wd, jobs)[..n] == AllNewRows(wd, jobs[..n]);
      MetricsNext(wd, jobs);
    }
  }

  /** In it each message's rows are one block, row by row about its pods. */
  lemma {:induction false} MetricsAreInOrder(wd: Detector, jobs: seq<Job>, k: nat)
    requires k < |jobs|
    ensures var metrics, parts := AfterAll(wd, jobs).metrics, AllNewRows(wd, jobs);
            && metrics == Concat(parts)
            && Start(parts, k) <= Start(parts, k + 1) <= |metrics|
            && metrics[Start(parts, k)..Start(parts, k + 1)] == NewRows(wd, jobs[k])
    ensures jobs[k].payload.Some? && jobs[k].rowsInserted ==>
              var rows, snap := NewRows(wd, jobs[k]), jobs[k].payload.value;
              |rows| == |snap.pods| && forall i | 0 <= i < |rows| :: RowAbout(rows[i], snap, snap.pods[i])
    ensures !(jobs[k].payload.Some? && jobs[k].rowsInserted) ==> NewRows(wd, jobs[k]) == []
  {
    MetricsConcat(wd, jobs);
    PartAt(AllNewRows(wd, jobs), k);
  }

  function WasteOf(row: ScoreRow): real {
    row.annualWasteEur
  }

  /** The two tables have the same total, within half a cent per row. */
  ghost predicate Agree(metrics: seq<MetricRow>, scores: seq<ScoreRow>) {
    Rounding.Abs(Sum(metrics, CostOf) - Sum(scores, WasteOf)) <= (|metrics| as real + |scores| as real) / 2.0 / 100.0
  }

  lemma {:induction false} AgreePush(
    metrics: seq<MetricRow>, scores: seq<ScoreRow>, rows: seq<MetricRow>, score: ScoreRow)
    requires Agree(metrics, scores)
    requires Rounding.Abs(Sum(rows, CostOf) - score.annualWasteEur) <= (|rows| as real + 1.0) / 2.0 / 100.0
    ensures Agree(metrics + rows, scores + [score])
  {
    SumAppend(metrics, rows, CostOf);
    SumPush(scores, score, WasteOf);
  }

  lemma {:induction false} AgreeStep(metrics: seq<MetricRow>, scores: seq<ScoreRow>, snap: Snapshot, now: int)
    requires Agree(metrics, scores)
    ensures Agree(metrics + RowsOf(BUILT_IN, snap), scores + [ScoreRowOf(BUILT_IN, snap, now)])
  {
    RowsMatchScoreRow(snap, now);
    AgreePush(metrics, scores, RowsOf(BUILT_IN, snap), ScoreRowOf(BUILT_IN, snap, now));
  }

  /** The two inserts of each message succeed or fail together. */
  ghost predicate Together(jobs: seq<Job>) {
    forall job | job in jobs :: job.scoreInserted == job.rowsInserted
  }

  ghost predicate TablesAgreeAfter(wd: Detector, jobs: seq<Job>) {
    Agree(AfterAll(wd, jobs).metrics, AfterAll(wd, jobs).scores)
  }

  /**
   At the built-in prices, over any history in which the two inserts of a message succeed or fail
   together, the metric table's costs and the score table's yearly wastes have the same total, within
   half a cent per row.
   */
  lemma {:induction false} TablesAgree(jobs: seq<Job>)
    requires Together(jobs)
    ensures TablesAgreeAfter(BUILT_IN, jobs)
  {
    if jobs != [] {
      var t, job := AfterAll(BUILT_IN, jobs[..|jobs| - 1]), jobs[|jobs| - 1];
      TablesAgree(jobs[..|jobs| - 1]);
      if job.payload.Some? && job.rowsInserted {
        AgreeStep(t.metrics, t.scores, job.payload.value, job.now);
      } else {
        assert t.metrics + [] == t.metrics && t.scores + [] == t.scores;
      }
    }
  }

  lemma {:induction false} OneMessage(wd: Detector, snap: Snapshot)
    requires |snap.pods| == 1 && TablesAgreeAfter(wd, [Job(Some(snap), 0, true, true)])
    ensures RowsMatch(wd, snap, 0)
  {
    var job := Job(Some(snap), 0, true, true);
    var row := ScoreRowOf(wd, snap, 0);
    assert [job][..0] == [];
    assert AfterAll(wd, [job]) == After(wd, Stored([], [], {}), job);
    EmptyAppend(RowsOf(wd, snap));
    EmptyAppend([row]);
    SumCons(row, [], WasteOf);
    assert [row] + [] == [row];
  }

  /** Over all such histories the tables agree exactly when the configured prices are the built-in ones. */
  lemma TablesAgreeIff(wd: Detector)
    ensures (forall jobs | Together(jobs) :: TablesAgreeAfter(wd, jobs)) <==> wd == BUILT_IN
  {
    if wd == BUILT_IN {
      forall jobs | Together(jobs) ensures TablesAgreeAfter(wd, jobs) {
        TablesAgree(jobs);
      }
    } else {
      var p := DriftIsUnbounded(wd, 1.0);
      var snap := Snapshot("", "", 0, [p]);
      OneReport(Analyze(wd, p));
      assert ReportsOf(wd, [p]) == [Analyze(wd, p)];
      RowsMatchIsDrift(wd, snap, 0);
      if TablesAgreeAfter(wd, [Job(Some(snap), 0, true, true)]) {
        OneMessage(wd, snap);
      }
      assert Together([Job(Some(snap), 0, true, true)]);
    }
  }

  /**
   The worker passes no node count, so a snapshot with pods always scores between 14 and 94: no
   such cluster can reach 100, and none can fall to 0. A snapshot without pods scores 0.
   */
  lemma WorkerScoreRange(wd: Detector, snap: Snapshot, now: int)
    requires snap.pods != []
    ensures 14.0 <= ScoreRowOf(wd, snap, now).score <= 94.0
  {
  }

  lemma ScoreOfOne(p: PodInput)
    ensures ScoreOf([p], 0, 1).value
         == Total(Breakdown(Dimension(CpuRatio(p), 1, 0.70), Dimension(MemRatio(p), 1, 0.75), 70.0,
                            Dimension(Managed(p), 1, 1.0), Dimension(Limited(p), 1, 1.0)))
  {
    SumCons(p, [], CpuRatio);
    SumCons(p, [], MemRatio);
    SumCons(p, [], Managed);
    SumCons(p, [], Limited);
    assert [p] + [] == [p];
  }

  /** Both bounds are reached, by snapshots of one pod. */
  lemma WorkerScoreBoundsReached(wd: Detector, now: int)
    ensures exists snap: Snapshot :: |snap.pods| == 1 && ScoreRowOf(wd, snap, now).score == 14.0
    ensures exists snap: Snapshot :: |snap.pods| == 1 && ScoreRowOf(wd, snap, now).score == 94.0
  {
    var idle := PodInput("", "", "", 1000.0, 0.0, 1000.0, 0.0, false, false, 0);
    var busy := PodInput("", "", "", 1000.0, 1000.0, 1000.0, 1000.0, true, true, 0);
    ScoreOfOne(idle);
    ScoreOfOne(busy);
    var s0, s1 := Snapshot("", "", 0, [idle]), Snapshot("", "", 0, [busy]);
    assert |s0.pods| == 1 && ScoreRowOf(wd, s0, now).score == ScoreOf([idle], 0, 1).value;
    assert |s1.pods| == 1 && ScoreRowOf(wd, s1, now).score == ScoreOf([busy], 0, 1).value;
  }

  ghost function OnPod(wd: Detector, f: WasteReport -> real): PodInput -> real {
    (p: PodInput) => f(Analyze(wd, p))
  }

  lemma {:induction false} ReportsSum(wd: Detector, pods: seq<PodInput>, f: WasteReport -> real)
    ensures Sum(ReportsOf(wd, pods), f) == Sum(pods, OnPod(wd, f))
  {
    if pods != [] {
      ReportsSum(wd, pods[1..], f);
      assert ReportsOf(wd, pods)[1..] == ReportsOf(wd, pods[1..]);
    }
  }

  lemma ReportsSumPermutation(wd: Detector, a: seq<PodInput>, b: seq<PodInput>, f: WasteReport -> real)
    requires multiset(a) == multiset(b)
    ensures Sum(ReportsOf(wd, a), f) == Sum(ReportsOf(wd, b), f)
  {
    ReportsSum(wd, a, f);
    ReportsSum(wd, b, f);
    SumPermutation(a, b, OnPod(wd, f));
  }

  lemma SavingsPermutation(wd: Detector, a: seq<PodInput>, b: seq<PodInput>)
    requires multiset(a) == multiset(b)
    ensures SavingsOf(ReportsOf(wd, a)) == SavingsOf(ReportsOf(wd, b))
  {
    ReportsSumPermutation(wd, a, b, CpuSaving);
    ReportsSumPermutation(wd, a, b, MemSaving);
  }

  lemma CarbonPermutation(wd: Detector, a: seq<PodInput>, b: seq<PodInput>)
    requires multiset(a) == multiset(b)
    ensures CarbonOf("on-prem", "fr", ReportsOf(wd, a)) == CarbonOf("on-prem", "fr", ReportsOf(wd, b))
  {
    ReportsSumPermutation(wd, a, b, CpuCores);
    ReportsSumPermutation(wd, a, b, MemGB);
  }

  /** The whole score row, money and carbon included, ignores the order in which pods were listed. */
  lemma ScoreRowPermutation(wd: Detector, a: Snapshot, b: Snapshot, now: int)
    requires a.clusterId == b.clusterId && multiset(a.pods) == multiset(b.pods)
    ensures ScoreRowOf(wd, a, now) == ScoreRowOf(wd, b, now)
  {
    assert |a.pods| == |b.pods| by {
      assert |multiset(a.pods)| == |multiset(b.pods)|;
    }
    ScorePermutation(a.pods, b.pods, 0, |a.pods|);
    SavingsPermutation(wd, a.pods, b.pods);
    CarbonPermutation(wd, a.pods, b.pods);
  }
}
