/** The Green Score of a cluster (backend/internal/analyzer/score_engine.go). */
module ScoreEngine {
  import opened Counting
  import Rounding
  import opened PodNames
  import opened WasteDetector

  datatype Breakdown = Breakdown(
    cpuEfficiency: real,
    memEfficiency: real,
    nodePacking: real,
    hpaCoverage: real,
    limitCompliance: real)

  datatype GreenScore = GreenScore(value: real, grade: string, caption: string, breakdown: Breakdown)

  const W_CPU: real := 0.35
  const W_MEM: real := 0.25
  const W_NODE: real := 0.20
  const W_HPA: real := 0.10
  const W_LIMIT: real := 0.10

  function Clamp(v: real, min: real, max: real): real {
    if v < min then min else if v > max then max else v
  }

  function GradeFrom(score: real): (string, string) {
    if score >= 90.0 then ("A+", "Excellent — cluster exemplaire")
    else if score >= 80.0 then ("A", "Très bien — quelques optimisations possibles")
    else if score >= 70.0 then ("B+", "Bien — améliorations identifiées")
    else if score >= 60.0 then ("B", "Correct — surprovisionnement modéré")
    else if score >= 45.0 then ("C", "À améliorer — gaspillage significatif")
    else if score >= 30.0 then ("D", "Mauvais — action recommandée")
    else ("F", "Critique — intervention urgente")
  }

  /** Position of a grade, worst first. */
  function GradeRank(grade: string): int {
    match grade
    case "A+" => 6
    case "A" => 5
    case "B+" => 4
    case "B" => 3
    case "C" => 2
    case "D" => 1
    case _ => 0
  }

  // ----- the score as sums over pods

  function CpuRatio(p: PodInput): real {
    if p.cpuRequestM > 0.0 then p.cpuUsageP95M / p.cpuRequestM else 0.0
  }

  function MemRatio(p: PodInput): real {
    if p.memRequestMi > 0.0 then p.memUsageP95Mi / p.memRequestMi else 0.0
  }

  function Managed(p: PodInput): real {
    if p.isHPAManaged then 1.0 else 0.0
  }

  function Limited(p: PodInput): real {
    if p.hasLimits then 1.0 else 0.0
  }

  /** A sum over n pods as a percentage of the target, kept within 0 and 100. */
  function Dimension(sum: real, n: nat, target: real): real
    requires n > 0 && target > 0.0
  {
    Clamp(sum / n as real / target * 100.0, 0.0, 100.0)
  }

  function NodePacking(nodeCount: int, totalPods: int): real {
    if nodeCount > 0 && totalPods > 0
    then Clamp(totalPods as real / nodeCount as real / 15.0 * 100.0, 0.0, 100.0)
    else 70.0
  }

  ghost function BreakdownOf(pods: seq<PodInput>, nodeCount: int, totalPods: int): Breakdown
    requires pods != []
  {
    Breakdown(
      Dimension(Sum(pods, CpuRatio), |pods|, 0.70),
      Dimension(Sum(pods, MemRatio), |pods|, 0.75),
      NodePacking(nodeCount, totalPods),
      Dimension(Sum(pods, Managed), |pods|, 1.0),
      Dimension(Sum(pods, Limited), |pods|, 1.0))
  }

  function Total(b: Breakdown): real {
    b.cpuEfficiency * W_CPU + b.memEfficiency * W_MEM + b.nodePacking * W_NODE
    + b.hpaCoverage * W_HPA + b.limitCompliance * W_LIMIT
  }

  ghost function ScoreOf(pods: seq<PodInput>, nodeCount: int, totalPods: int): GreenScore {
    if pods == [] then
      GreenScore(0.0, "N/A", "Aucune donnée", Breakdown(0.0, 0.0, 0.0, 0.0, 0.0))
    else
      var b := BreakdownOf(pods, nodeCount, totalPods);
      GreenScore(Total(b), GradeFrom(Total(b)).0, GradeFrom(Total(b)).1, b)
  }

  method ComputeScore(pods: seq<PodInput>, nodeCount: int, totalPods: int) returns (score: GreenScore)
    ensures score == ScoreOf(pods, nodeCount, totalPods)
  {
    if |pods| == 0 {
      return GreenScore(0.0, "N/A", "Aucune donnée", Breakdown(0.0, 0.0, 0.0, 0.0, 0.0));
    }
    var cpuRatioSum := 0.0;
    for i := 0 to |pods|
      invariant cpuRatioSum == Sum(pods[..i], CpuRatio)
    {
      SumNext(pods, i, CpuRatio);
      if pods[i].cpuRequestM > 0.0 {
        cpuRatioSum := cpuRatioSum + pods[i].cpuUsageP95M / pods[i].cpuRequestM;
      }
    }
    var cpuEff := Dimension(cpuRatioSum, |pods|, 0.70);

    var memRatioSum := 0.0;
    for i := 0 to |pods|
      invariant memRatioSum == Sum(pods[..i], MemRatio)
    {
      SumNext(pods, i, MemRatio);
      if pods[i].memRequestMi > 0.0 {
        memRatioSum := memRatioSum + pods[i].memUsageP95Mi / pods[i].memRequestMi;
      }
    }
    var memEff := Dimension(memRatioSum, |pods|, 0.75);

    var nodePacking := NodePacking(nodeCount, totalPods);

    var hpaCount := 0;
    var deployments: set<string> := {};
    for i := 0 to |pods|
      invariant hpaCount as real == Sum(pods[..i], Managed)
      invariant i > 0 ==> deployments != {}
    {
      SumNext(pods, i, Managed);
      if pods[i].isHPAManaged {
        hpaCount := hpaCount + 1;
      }
      deployments := deployments + {Trim(pods[i].podName, '-')};
    }
    var hpaCov := 0.0;
    if |deployments| > 0 {
      hpaCov := Dimension(hpaCount as real, |pods|, 1.0);
    }

    var limitCount := 0;
    for i := 0 to |pods|
      invariant limitCount as real == Sum(pods[..i], Limited)
    {
      SumNext(pods, i, Limited);
      if pods[i].hasLimits {
        limitCount := limitCount + 1;
      }
    }
    var limitComp := Dimension(limitCount as real, |pods|, 1.0);

    assert pods[..|pods|] == pods;
    var b := Breakdown(cpuEff, memEff, nodePacking, hpaCov, limitComp);
    var total := cpuEff * W_CPU + memEff * W_MEM + nodePacking * W_NODE + hpaCov * W_HPA + limitComp * W_LIMIT;
    var (grade, caption) := GradeFrom(total);
    score := GreenScore(total, grade, caption, b);
  }

  // ----- main results

  /** The score is between 0 and 100. */
  lemma ScoreInRange(pods: seq<PodInput>, nodeCount: int, totalPods: int)
    ensures 0.0 <= ScoreOf(pods, nodeCount, totalPods).value <= 100.0
  {
  }

  /** The score does not depend on the order of the pods. */
  lemma ScorePermutation(a: seq<PodInput>, b: seq<PodInput>, nodeCount: int, totalPods: int)
    requires multiset(a) == multiset(b)
    ensures ScoreOf(a, nodeCount, totalPods) == ScoreOf(b, nodeCount, totalPods)
  {
    assert |a| == |multiset(a)| == |multiset(b)| == |b|;
    SumPermutation(a, b, CpuRatio);
    SumPermutation(a, b, MemRatio);
    SumPermutation(a, b, Managed);
    SumPermutation(a, b, Limited);
  }

  /** No pod of b does worse than the pod of a at the same place, in any of the four ratios. */
  ghost predicate NoWorse(a: seq<PodInput>, b: seq<PodInput>) {
    && |a| == |b|
    && forall i | 0 <= i < |a| ::
         && CpuRatio(a[i]) <= CpuRatio(b[i]) && MemRatio(a[i]) <= MemRatio(b[i])
         && Managed(a[i]) <= Managed(b[i]) && Limited(a[i]) <= Limited(b[i])
  }

  lemma {:induction false} SumPointwise(a: seq<PodInput>, b: seq<PodInput>, f: PodInput -> real)
    requires |a| == |b| && forall i | 0 <= i < |a| :: f(a[i]) <= f(b[i])
    ensures Sum(a, f) <= Sum(b, f)
  {
    if a != [] {
      SumPointwise(a[1..], b[1..], f);
    }
  }

  lemma DimensionMonotone(x: real, y: real, n: nat, target: real)
    requires n > 0 && target > 0.0 && x <= y
    ensures Dimension(x, n, target) <= Dimension(y, n, target)
  {
    DivideMonotone(x, y, n as real);
    DivideMonotone(x / n as real, y / n as real, target);
  }

  lemma DivideMonotone(x: real, y: real, d: real)
    requires d > 0.0 && x <= y
    ensures x / d <= y / d
  {
    assert (y - x) / d >= 0.0;
    assert y / d == x / d + (y - x) / d;
  }

  lemma TotalMonotone(a: Breakdown, b: Breakdown)
    requires a.cpuEfficiency <= b.cpuEfficiency && a.memEfficiency <= b.memEfficiency
    requires a.nodePacking <= b.nodePacking
    requires a.hpaCoverage <= b.hpaCoverage && a.limitCompliance <= b.limitCompliance
    ensures Total(a) <= Total(b)
  {
  }

  lemma GradeMonotone(x: real, y: real)
    requires x <= y
    ensures GradeRank(GradeFrom(x).0) <= GradeRank(GradeFrom(y).0)
  {
  }

  lemma BreakdownMonotone(a: seq<PodInput>, b: seq<PodInput>, nodeCount: int, totalPods: int)
    requires a != [] && NoWorse(a, b)
    ensures Total(BreakdownOf(a, nodeCount, totalPods)) <= Total(BreakdownOf(b, nodeCount, totalPods))
  {
    SumPointwise(a, b, CpuRatio);
    SumPointwise(a, b, MemRatio);
    SumPointwise(a, b, Managed);
    SumPointwise(a, b, Limited);
    DimensionMonotone(Sum(a, CpuRatio), Sum(b, CpuRatio), |a|, 0.70);
    DimensionMonotone(Sum(a, MemRatio), Sum(b, MemRatio), |a|, 0.75);
    DimensionMonotone(Sum(a, Managed), Sum(b, Managed), |a|, 1.0);
    DimensionMonotone(Sum(a, Limited), Sum(b, Limited), |a|, 1.0);
    TotalMonotone(BreakdownOf(a, nodeCount, totalPods), BreakdownOf(b, nodeCount, totalPods));
  }

  /** Better pods never lower the score or the grade. */
  lemma ScoreMonotone(a: seq<PodInput>, b: seq<PodInput>, nodeCount: int, totalPods: int)
    requires NoWorse(a, b)
    ensures ScoreOf(a, nodeCount, totalPods).value <= ScoreOf(b, nodeCount, totalPods).value
    ensures GradeRank(ScoreOf(a, nodeCount, totalPods).grade) <= GradeRank(ScoreOf(b, nodeCount, totalPods).grade)
  {
    if a != [] {
      BreakdownMonotone(a, b, nodeCount, totalPods);
      GradeMonotone(Total(BreakdownOf(a, nodeCount, totalPods)), Total(BreakdownOf(b, nodeCount, totalPods)));
    }
  }

  /** More usage, more limits and more autoscaling, for the same requests, never lower the score or the grade. */
  lemma ScoreMonotoneInUsage(a: seq<PodInput>, b: seq<PodInput>, nodeCount: int, totalPods: int)
    requires |a| == |b|
    requires forall i | 0 <= i < |a| ::
               && a[i].cpuRequestM == b[i].cpuRequestM && a[i].cpuUsageP95M <= b[i].cpuUsageP95M
               && a[i].memRequestMi == b[i].memRequestMi && a[i].memUsageP95Mi <= b[i].memUsageP95Mi
               && (a[i].hasLimits ==> b[i].hasLimits) && (a[i].isHPAManaged ==> b[i].isHPAManaged)
    ensures ScoreOf(a, nodeCount, totalPods).value <= ScoreOf(b, nodeCount, totalPods).value
    ensures GradeRank(ScoreOf(a, nodeCount, totalPods).grade) <= GradeRank(ScoreOf(b, nodeCount, totalPods).grade)
  {
    forall i | 0 <= i < |a|
      ensures CpuRatio(a[i]) <= CpuRatio(b[i]) && MemRatio(a[i]) <= MemRatio(b[i])
    {
      if a[i].cpuRequestM > 0.0 {
        DivideMonotone(a[i].cpuUsageP95M, b[i].cpuUsageP95M, a[i].cpuRequestM);
      }
      if a[i].memRequestMi > 0.0 {
        DivideMonotone(a[i].memUsageP95Mi, b[i].memUsageP95Mi, a[i].memRequestMi);
      }
    }
    ScoreMonotone(a, b, nodeCount, totalPods);
  }

  function RightsizeAll(pods: seq<PodInput>): (r: seq<PodInput>)
    ensures |r| == |pods| && forall i | 0 <= i < |r| :: r[i] == Rightsized(pods[i])
  {
    seq(|pods|, i requires 0 <= i < |pods| => Rightsized(pods[i]))
  }

  lemma SmallerRequest(usage: real, request: real, optimum: real)
    requires usage >= 0.0 && request > 0.0 && optimum > 0.0
    ensures usage / request <= usage / Rounding.Min(request, optimum)
  {
    var r := Rounding.Min(request, optimum);
    var q := usage / r;
    assert q >= 0.0;
    assert q * r == usage;
    assert q * (request - r) >= 0.0;
    assert q * request == usage + q * (request - r);
    RatioBelow(usage, request, q);
  }

  /** Cutting every request to the detector's optimum never lowers the score or the grade. */
  lemma RightsizingNeverHurts(pods: seq<PodInput>, nodeCount: int, totalPods: int)
    requires forall p | p in pods :: p.cpuUsageP95M >= 0.0 && p.memUsageP95Mi >= 0.0
    ensures var before, after := ScoreOf(pods, nodeCount, totalPods), ScoreOf(RightsizeAll(pods), nodeCount, totalPods);
            before.value <= after.value && GradeRank(before.grade) <= GradeRank(after.grade)
  {
    var after := RightsizeAll(pods);
    forall i | 0 <= i < |pods|
      ensures CpuRatio(pods[i]) <= CpuRatio(after[i]) && MemRatio(pods[i]) <= MemRatio(after[i])
    {
      var p := pods[i];
      OptimaLargeEnough(p.cpuUsageP95M, p.memUsageP95Mi);
      if p.cpuRequestM > 0.0 {
        SmallerRequest(p.cpuUsageP95M, p.cpuRequestM, CpuOptimal(p.cpuUsageP95M));
      }
      if p.memRequestMi > 0.0 {
        SmallerRequest(p.memUsageP95Mi, p.memRequestMi, MemOptimal(p.memUsageP95Mi));
      }
    }
    ScoreMonotone(pods, after, nodeCount, totalPods);
  }

  // ----- what the dimensions are

  /** sum over n pods is the given percentage of the target; more than the target counts as 100. */
  ghost predicate IsShare(percent: real, sum: real, n: nat, target: real) {
    if sum < 0.0 then percent == 0.0
    else if sum >= target * n as real then percent == 100.0
    else percent * (target * n as real) == 100.0 * sum
  }

  lemma PartTimes(sum: real, n: real, target: real)
    requires n > 0.0 && target > 0.0
    ensures sum / n / target * (target * n) == sum
  {
    var mean := sum / n;
    var part := mean / target;
    assert mean * n == sum && part * target == mean;
    assert part * (target * n) == part * target * n;
  }

  lemma QuotientSigns(part: real, whole: real, sum: real)
    requires whole > 0.0 && part * whole == sum
    ensures part < 0.0 <==> sum < 0.0
    ensures part >= 1.0 <==> sum >= whole
  {
    assert (part - 1.0) * whole == sum - whole;
    if part >= 1.0 {
      assert (part - 1.0) * whole >= 0.0;
    } else {
      assert (part - 1.0) * whole < 0.0;
    }
  }

  lemma DimensionIsShare(sum: real, n: nat, target: real)
    requires n > 0 && target > 0.0
    ensures IsShare(Dimension(sum, n, target), sum, n, target)
  {
    var part, whole := sum / n as real / target, target * n as real;
    PartTimes(sum, n as real, target);
    QuotientSigns(part, whole, sum);
    assert part * 100.0 * whole == 100.0 * (part * whole);
  }

  ghost function ManagedPods(): PodInput -> bool {
    (p: PodInput) => p.isHPAManaged
  }

  ghost function LimitedPods(): PodInput -> bool {
    (p: PodInput) => p.hasLimits
  }

  lemma {:induction false} SumCounts(pods: seq<PodInput>)
    ensures Sum(pods, Managed) == Count(pods, ManagedPods()) as real
    ensures Sum(pods, Limited) == Count(pods, LimitedPods()) as real
  {
    if pods != [] {
      var prefix, p := pods[..|pods| - 1], pods[|pods| - 1];
      SumCounts(prefix);
      SumPush(prefix, p, Managed);
      SumPush(prefix, p, Limited);
      assert pods == prefix + [p];
    }
  }

  function CpuUse(p: PodInput): real {
    if p.cpuRequestM <= 0.0 then 0.0 else p.cpuUsageP95M / p.cpuRequestM
  }

  function MemUse(p: PodInput): real {
    if p.memRequestMi <= 0.0 then 0.0 else p.memUsageP95Mi / p.memRequestMi
  }

  lemma {:induction false} SumUse(pods: seq<PodInput>)
    ensures Sum(pods, CpuRatio) == Sum(pods, CpuUse) && Sum(pods, MemRatio) == Sum(pods, MemUse)
  {
    if pods != [] {
      SumUse(pods[1..]);
    }
  }

  /**
   What each dimension measures: the mean CPU use against 70 %, the mean memory use against 75 %, and
   the shares of pods with an HPA and with limits.
   */
  lemma DimensionsMeasure(pods: seq<PodInput>, nodeCount: int, totalPods: int)
    requires pods != []
    ensures var b := ScoreOf(pods, nodeCount, totalPods).breakdown;
            && IsShare(b.cpuEfficiency, Sum(pods, CpuUse), |pods|, 0.70)
            && IsShare(b.memEfficiency, Sum(pods, MemUse), |pods|, 0.75)
            && IsShare(b.hpaCoverage, Count(pods, ManagedPods()) as real, |pods|, 1.0)
            && IsShare(b.limitCompliance, Count(pods, LimitedPods()) as real, |pods|, 1.0)
  {
    SumUse(pods);
    SumCounts(pods);
    DimensionIsShare(Sum(pods, CpuRatio), |pods|, 0.70);
    DimensionIsShare(Sum(pods, MemRatio), |pods|, 0.75);
    DimensionIsShare(Sum(pods, Managed), |pods|, 1.0);
    DimensionIsShare(Sum(pods, Limited), |pods|, 1.0);
  }

  /** Fifteen pods on every node are a full packing; without node or pod counts it is taken to be 70. */
  lemma PackingMeasures(nodeCount: int, totalPods: int)
    ensures var packing := NodePacking(nodeCount, totalPods);
            if nodeCount <= 0 || totalPods <= 0 then packing == 70.0
            else IsShare(packing, totalPods as real, nodeCount, 15.0)
  {
    if nodeCount > 0 && totalPods > 0 {
      DimensionIsShare(totalPods as real, nodeCount, 15.0);
    }
  }

  /** How many of the six thresholds the score reaches. */
  function Reached(value: real): int {
    (if value >= 30.0 then 1 else 0) + (if value >= 45.0 then 1 else 0) + (if value >= 60.0 then 1 else 0)
    + (if value >= 70.0 then 1 else 0) + (if value >= 80.0 then 1 else 0) + if value >= 90.0 then 1 else 0
  }

  const CAPTIONS: seq<string> := [
    "Critique — intervention urgente", "Mauvais — action recommandée", "À améliorer — gaspillage significatif",
    "Correct — surprovisionnement modéré", "Bien — améliorations identifiées",
    "Très bien — quelques optimisations possibles", "Excellent — cluster exemplaire"]

  /** The score weighs the dimensions 35, 25, 20, 10 and 10, and the grade is the number of thresholds reached. */
  lemma ScoreWeighs(pods: seq<PodInput>, nodeCount: int, totalPods: int)
    requires pods != []
    ensures var s := ScoreOf(pods, nodeCount, totalPods);
            var b := s.breakdown;
            && 100.0 * s.value == 35.0 * b.cpuEfficiency + 25.0 * b.memEfficiency + 20.0 * b.nodePacking
                                  + 10.0 * b.hpaCoverage + 10.0 * b.limitCompliance
            && b.nodePacking == NodePacking(nodeCount, totalPods)
            && s.grade == ["F", "D", "C", "B", "B+", "A", "A+"][Reached(s.value)]
            && s.caption == CAPTIONS[Reached(s.value)]
  {
  }

  /** Without pods there is no score. */
  lemma NoPodsNoScore(nodeCount: int, totalPods: int)
    ensures var s := ScoreOf([], nodeCount, totalPods);
            s.value == 0.0 && s.grade == "N/A" && s.breakdown == Breakdown(0.0, 0.0, 0.0, 0.0, 0.0)
  {
  }
}
