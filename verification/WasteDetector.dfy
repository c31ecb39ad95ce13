/**
 Detecting over-provisioned pods and sizing them (backend/internal/analyzer/waste_detector.go).
 CPU is in millicores, memory in mebibytes.
 */
module WasteDetector {
  import opened Rounding

  const CPU_WASTE_THRESHOLD: real := 0.40
  const MEM_WASTE_THRESHOLD: real := 0.50
  const SAFETY_BUFFER: real := 1.20

  datatype PodInput = PodInput(
    podName: string,
    containerName: string,
    namespace: string,
    cpuRequestM: real,
    cpuUsageP95M: real,
    memRequestMi: real,
    memUsageP95Mi: real,
    hasLimits: bool,
    isHPAManaged: bool,
    restartCount: int)

  /** The rightsizing strings are kept as the whole numbers they print. */
  datatype WasteReport = WasteReport(
    podName: string,
    containerName: string,
    namespace: string,
    isOverprovisioned: bool,
    hasLimits: bool,
    isHPAManaged: bool,
    cpuRequestM: real,
    cpuUsageP95M: real,
    cpuOptimalM: real,
    cpuWasteM: real,
    cpuWastePct: real,
    memRequestMi: real,
    memUsageP95Mi: real,
    memOptimalMi: real,
    memWasteMi: real,
    memWastePct: real,
    annualCostWasteEur: real,
    cpuRightsizing: int,
    memRightsizing: int,
    priority: string,
    confidence: real)

  /** Hourly costs of one core and of one gibibyte. */
  datatype Detector = Detector(costPerCpuH: real, costPerGbH: real)

  function RoundCPU(m: real): real {
    if m <= 100.0 then CeilTo(m, 10.0)
    else CeilTo(m, 50.0)
  }

  function RoundMem(mi: real): real {
    if mi <= 32.0 then 32.0
    else if mi <= 64.0 then 64.0
    else if mi <= 128.0 then 128.0
    else if mi <= 256.0 then 256.0
    else if mi <= 512.0 then 512.0
    else if mi <= 1024.0 then 1024.0
    else if mi <= 2048.0 then 2048.0
    else if mi <= 4096.0 then 4096.0
    else CeilTo(mi, 512.0)
  }

  function CpuOptimal(usage: real): real {
    RoundCPU(Max(usage * SAFETY_BUFFER, 10.0))
  }

  function MemOptimal(usage: real): real {
    RoundMem(Max(usage * SAFETY_BUFFER, 32.0))
  }

  function AnnualCost(wd: Detector, cpuWaste: real, memWaste: real): real {
    (cpuWaste / 1000.0 * wd.costPerCpuH + memWaste / 1024.0 * wd.costPerGbH) * 8760.0
  }

  predicate CpuOver(p: PodInput) {
    p.cpuRequestM > 0.0 && p.cpuUsageP95M / p.cpuRequestM < CPU_WASTE_THRESHOLD
  }

  predicate MemOver(p: PodInput) {
    p.memRequestMi > 0.0 && p.memUsageP95Mi / p.memRequestMi < MEM_WASTE_THRESHOLD
  }

  function Analyze(wd: Detector, p: PodInput): WasteReport {
    var cpuOpt := CpuOptimal(p.cpuUsageP95M);
    var memOpt := MemOptimal(p.memUsageP95Mi);
    var cpuW := Max(0.0, p.cpuRequestM - cpuOpt);
    var memW := Max(0.0, p.memRequestMi - memOpt);
    var cpuPct := if p.cpuRequestM > 0.0 then cpuW / p.cpuRequestM * 100.0 else 0.0;
    var memPct := if p.memRequestMi > 0.0 then memW / p.memRequestMi * 100.0 else 0.0;
    var annual := Cents(AnnualCost(wd, cpuW, memW));
    WasteReport(
      p.podName, p.containerName, p.namespace,
      CpuOver(p) || MemOver(p), p.hasLimits, p.isHPAManaged,
      p.cpuRequestM, p.cpuUsageP95M, cpuOpt, cpuW, cpuPct,
      p.memRequestMi, p.memUsageP95Mi, memOpt, memW, memPct,
      annual, Truncate(cpuOpt), Truncate(memOpt),
      Priority(cpuPct, annual, p.hasLimits), Confidence(p))
  }

  function Priority(cpuWastePct: real, annual: real, hasLimits: bool): string {
    if annual > 500.0 || cpuWastePct > 70.0 || !hasLimits then "HIGH"
    else if annual > 100.0 || cpuWastePct > 50.0 then "MEDIUM"
    else "LOW"
  }

  function Confidence(p: PodInput): real {
    if p.restartCount > 5 then 0.6
    else if p.isHPAManaged then 0.75
    else 0.90
  }

  // ----- rounding to the sizes on offer

  /** The CPU sizes: tens up to 100, then fifties. */
  ghost predicate CpuSize(m: real) {
    (m <= 100.0 && MultipleOf(m, 10.0)) || (m > 100.0 && MultipleOf(m, 50.0))
  }

  /** The memory sizes: powers of two from 32 to 4096, then multiples of 512. */
  ghost predicate MemSize(mi: real) {
    || mi in {32.0, 64.0, 128.0, 256.0, 512.0, 1024.0, 2048.0, 4096.0}
    || (mi > 4096.0 && MultipleOf(mi, 512.0))
  }

  /** RoundCPU picks the smallest CPU size that is large enough. */
  lemma RoundCPUIsLeast(m: real)
    ensures CpuSize(RoundCPU(m)) && m <= RoundCPU(m)
    ensures forall c | CpuSize(c) && m <= c :: RoundCPU(m) <= c
  {
    assert 100.0 == Multiple(10, 10.0) && 100.0 == Multiple(2, 50.0);
    if m <= 100.0 {
      CeilToIsLeast(m, 10.0, 100.0);
    }
    forall c | CpuSize(c) && m <= c ensures RoundCPU(m) <= c {
      if m > 100.0 {
        CeilToIsLeast(m, 50.0, c);
      } else if c <= 100.0 {
        CeilToIsLeast(m, 10.0, c);
      }
    }
  }

  /** RoundMem picks the smallest memory size that is large enough. */
  lemma RoundMemIsLeast(mi: real)
    ensures MemSize(RoundMem(mi)) && mi <= RoundMem(mi)
    ensures forall c | MemSize(c) && mi <= c :: RoundMem(mi) <= c
  {
    forall c | MemSize(c) && mi <= c ensures RoundMem(mi) <= c {
      if mi > 4096.0 {
        CeilToIsLeast(mi, 512.0, c);
      }
    }
  }

  lemma RoundCPUMonotone(x: real, y: real)
    requires x <= y
    ensures RoundCPU(x) <= RoundCPU(y)
  {
    RoundCPUIsLeast(x);
    RoundCPUIsLeast(y);
  }

  lemma RoundMemMonotone(x: real, y: real)
    requires x <= y
    ensures RoundMem(x) <= RoundMem(y)
  {
    RoundMemIsLeast(x);
    RoundMemIsLeast(y);
  }

  /** A size that was already rounded is kept. */
  lemma RoundingIsIdempotent(x: real)
    ensures RoundCPU(RoundCPU(x)) == RoundCPU(x)
    ensures RoundMem(RoundMem(x)) == RoundMem(x)
  {
    RoundCPUIsLeast(x);
    RoundCPUIsLeast(RoundCPU(x));
    RoundMemIsLeast(x);
    RoundMemIsLeast(RoundMem(x));
  }

  /** Rounding memory up never doubles it. */
  lemma RoundMemBelowDouble(x: real)
    requires x >= 32.0
    ensures RoundMem(x) < 2.0 * x
  {
  }

  lemma OptimaLargeEnough(cpuUsage: real, memUsage: real)
    ensures CpuOptimal(cpuUsage) >= 10.0 && CpuOptimal(cpuUsage) >= cpuUsage * SAFETY_BUFFER
    ensures MemOptimal(memUsage) >= 32.0 && MemOptimal(memUsage) >= memUsage * SAFETY_BUFFER
  {
    RoundCPUIsLeast(Max(cpuUsage * SAFETY_BUFFER, 10.0));
    RoundMemIsLeast(Max(memUsage * SAFETY_BUFFER, 32.0));
  }

  lemma WholeCPU(m: real) returns (n: int)
    ensures RoundCPU(m) == n as real
  {
    if m <= 100.0 {
      var k :| CeilTo(m, 10.0) == Multiple(k, 10.0);
      n := 10 * k;
    } else {
      var k :| CeilTo(m, 50.0) == Multiple(k, 50.0);
      n := 50 * k;
    }
  }

  lemma WholeMem(mi: real) returns (n: int)
    ensures RoundMem(mi) == (2 * n) as real
  {
    if mi > 4096.0 {
      var k :| CeilTo(mi, 512.0) == Multiple(k, 512.0);
      n := 256 * k;
    } else {
      n := (RoundMem(mi) / 2.0).Floor;
    }
  }

  /** The CPU optimum is a whole number, so printing it or its double loses nothing. */
  lemma CpuOptimumIsWhole(usage: real)
    ensures Truncate(CpuOptimal(usage)) as real == CpuOptimal(usage)
    ensures Truncate(CpuOptimal(usage) * 2.0) == 2 * Truncate(CpuOptimal(usage))
  {
    var n := WholeCPU(Max(usage * SAFETY_BUFFER, 10.0));
    TruncateWhole(CpuOptimal(usage), n);
    TruncateWhole(CpuOptimal(usage) * 2.0, 2 * n);
  }

  /** The memory optimum is even, so the same holds for it and for one and a half times it. */
  lemma MemOptimumIsWhole(usage: real)
    ensures Truncate(MemOptimal(usage)) as real == MemOptimal(usage)
    ensures 2 * Truncate(MemOptimal(usage) * 1.5) == 3 * Truncate(MemOptimal(usage))
  {
    var n := WholeMem(Max(usage * SAFETY_BUFFER, 32.0));
    TruncateWhole(MemOptimal(usage), 2 * n);
    TruncateWhole(MemOptimal(usage) * 1.5, 3 * n);
  }

  // ----- thresholds

  lemma RatioBelow(usage: real, request: real, ratio: real)
    requires request > 0.0
    ensures usage / request < ratio <==> usage < ratio * request
    ensures usage / request <= ratio <==> usage <= ratio * request
  {
    var q := usage / request;
    assert q * request == usage;
    if q < ratio {
      assert (ratio - q) * request > 0.0;
    } else if q > ratio {
      assert (q - ratio) * request > 0.0;
    }
  }

  /** A CPU-overprovisioned pod has CPU waste exactly when it requests more than the smallest size. */
  lemma CpuWasteIff(wd: Detector, p: PodInput)
    requires p.cpuUsageP95M >= 0.0 && CpuOver(p)
    ensures Analyze(wd, p).cpuWasteM > 0.0 <==> p.cpuRequestM > 10.0
  {
    RatioBelow(p.cpuUsageP95M, p.cpuRequestM, CPU_WASTE_THRESHOLD);
    OptimaLargeEnough(p.cpuUsageP95M, p.memUsageP95Mi);
    var x := Max(p.cpuUsageP95M * SAFETY_BUFFER, 10.0);
    assert 10.0 == Multiple(1, 10.0);
    CeilToIsLeast(10.0, 10.0, 10.0);
  }

  /** A pod is overprovisioned when it uses less than 40 % of its CPU request or less than half of its memory. */
  lemma OverprovisionedIff(wd: Detector, p: PodInput)
    ensures Analyze(wd, p).isOverprovisioned
       <==> (p.cpuRequestM > 0.0 && p.cpuUsageP95M < 0.40 * p.cpuRequestM)
            || (p.memRequestMi > 0.0 && p.memUsageP95Mi < 0.50 * p.memRequestMi)
  {
    if p.cpuRequestM > 0.0 {
      RatioBelow(p.cpuUsageP95M, p.cpuRequestM, 0.40);
    }
    if p.memRequestMi > 0.0 {
      RatioBelow(p.memUsageP95Mi, p.memRequestMi, 0.50);
    }
  }

  /**
   The optimum is the smallest size that leaves 20 % room above the usage; request, optimum and waste
   balance; and the report carries its pod's own figures.
   */
  lemma ReportBalances(wd: Detector, p: PodInput)
    ensures var r := Analyze(wd, p);
            && (r.podName, r.containerName, r.namespace) == (p.podName, p.containerName, p.namespace)
            && (r.hasLimits, r.isHPAManaged) == (p.hasLimits, p.isHPAManaged)
            && (r.cpuRequestM, r.cpuUsageP95M) == (p.cpuRequestM, p.cpuUsageP95M)
            && (r.memRequestMi, r.memUsageP95Mi) == (p.memRequestMi, p.memUsageP95Mi)
            && r.cpuWasteM + Min(p.cpuRequestM, r.cpuOptimalM) == p.cpuRequestM
            && r.memWasteMi + Min(p.memRequestMi, r.memOptimalMi) == p.memRequestMi
            && (r.cpuRightsizing as real, r.memRightsizing as real) == (r.cpuOptimalM, r.memOptimalMi)
    ensures var o := Analyze(wd, p).cpuOptimalM;
            CpuSize(o) && o >= 10.0 && o >= 1.2 * p.cpuUsageP95M
            && forall c | CpuSize(c) && c >= 10.0 && c >= 1.2 * p.cpuUsageP95M :: o <= c
    ensures var o := Analyze(wd, p).memOptimalMi;
            MemSize(o) && o >= 32.0 && o >= 1.2 * p.memUsageP95Mi
            && forall c | MemSize(c) && c >= 32.0 && c >= 1.2 * p.memUsageP95Mi :: o <= c
  {
    RoundCPUIsLeast(Max(p.cpuUsageP95M * SAFETY_BUFFER, 10.0));
    RoundMemIsLeast(Max(p.memUsageP95Mi * SAFETY_BUFFER, 32.0));
    CpuOptimumIsWhole(p.cpuUsageP95M);
    MemOptimumIsWhole(p.memUsageP95Mi);
  }

  lemma ShareIs(pct: real, part: real, whole: real)
    requires whole != 0.0 && pct == part / whole * 100.0
    ensures pct * whole == 100.0 * part
  {
    var q := part / whole;
    assert q * whole == part;
  }

  lemma PctIs(r: WasteReport, wd: Detector, p: PodInput)
    requires r == Analyze(wd, p)
    ensures r.cpuWastePct == if p.cpuRequestM > 0.0 then r.cpuWasteM / p.cpuRequestM * 100.0 else 0.0
    ensures r.memWastePct == if p.memRequestMi > 0.0 then r.memWasteMi / p.memRequestMi * 100.0 else 0.0
    ensures r.annualCostWasteEur == Cents(AnnualCost(wd, r.cpuWasteM, r.memWasteMi))
  {
  }

  lemma SharesFrom(r: WasteReport, p: PodInput)
    requires r.cpuWastePct == if p.cpuRequestM > 0.0 then r.cpuWasteM / p.cpuRequestM * 100.0 else 0.0
    requires r.memWastePct == if p.memRequestMi > 0.0 then r.memWasteMi / p.memRequestMi * 100.0 else 0.0
    ensures if p.cpuRequestM > 0.0 then r.cpuWastePct * p.cpuRequestM == 100.0 * r.cpuWasteM
            else r.cpuWastePct == 0.0
    ensures if p.memRequestMi > 0.0 then r.memWastePct * p.memRequestMi == 100.0 * r.memWasteMi
            else r.memWastePct == 0.0
  {
    if p.cpuRequestM > 0.0 {
      ShareIs(r.cpuWastePct, r.cpuWasteM, p.cpuRequestM);
    }
    if p.memRequestMi > 0.0 {
      ShareIs(r.memWastePct, r.memWasteMi, p.memRequestMi);
    }
  }

  /** 8760 hours of the wasted thousandths of a core and of the wasted 1024ths of a gibibyte. */
  function Yearly(wd: Detector, cpu: real, mem: real): real {
    8.76 * (cpu * wd.costPerCpuH) + 8.5546875 * (mem * wd.costPerGbH)
  }

  lemma ScaledPrice(waste: real, price: real, parts: real)
    requires parts > 0.0
    ensures waste / parts * price == waste * price / parts
  {
    var q := waste / parts;
    assert q * parts == waste;
    assert q * price * parts == waste * price;
  }

  lemma HoursOfAYear(wd: Detector, cpu: real, mem: real, cost: real)
    requires cost == Cents(AnnualCost(wd, cpu, mem))
    ensures Abs(cost - Yearly(wd, cpu, mem)) <= 0.005
  {
    ScaledPrice(cpu, wd.costPerCpuH, 1000.0);
    ScaledPrice(mem, wd.costPerGbH, 1024.0);
    assert AnnualCost(wd, cpu, mem) == Yearly(wd, cpu, mem);
    CentsClose(AnnualCost(wd, cpu, mem));
  }

  /**
   The percentages of a report are the wasted shares of the requests, and its yearly cost is that of
   8760 hours of the wasted cores and gibibytes, to half a cent.
   */
  ghost predicate AddsUp(r: WasteReport, wd: Detector, p: PodInput) {
    && (if p.cpuRequestM > 0.0 then r.cpuWastePct * p.cpuRequestM == 100.0 * r.cpuWasteM else r.cpuWastePct == 0.0)
    && (if p.memRequestMi > 0.0 then r.memWastePct * p.memRequestMi == 100.0 * r.memWasteMi else r.memWastePct == 0.0)
    && Abs(r.annualCostWasteEur - Yearly(wd, r.cpuWasteM, r.memWasteMi)) <= 0.005
  }

  lemma ReportAddsUp(wd: Detector, p: PodInput)
    ensures AddsUp(Analyze(wd, p), wd, p)
  {
    var r := Analyze(wd, p);
    PctIs(r, wd, p);
    FiguresAddUp(r, wd, p);
  }

  lemma FiguresAddUp(r: WasteReport, wd: Detector, p: PodInput)
    requires r.cpuWastePct == if p.cpuRequestM > 0.0 then r.cpuWasteM / p.cpuRequestM * 100.0 else 0.0
    requires r.memWastePct == if p.memRequestMi > 0.0 then r.memWasteMi / p.memRequestMi * 100.0 else 0.0
    requires r.annualCostWasteEur == Cents(AnnualCost(wd, r.cpuWasteM, r.memWasteMi))
    ensures AddsUp(r, wd, p)
  {
    SharesFrom(r, p);
    HoursOfAYear(wd, r.cpuWasteM, r.memWasteMi, r.annualCostWasteEur);
  }

  /** How urgent a report is, and how sure. */
  lemma PriorityAndConfidence(wd: Detector, p: PodInput)
    ensures var r := Analyze(wd, p);
            && r.priority in {"HIGH", "MEDIUM", "LOW"}
            && (r.priority == "HIGH" <==> r.annualCostWasteEur > 500.0 || r.cpuWastePct > 70.0 || !p.hasLimits)
            && (r.priority == "LOW" <==> r.annualCostWasteEur <= 100.0 && r.cpuWastePct <= 50.0 && p.hasLimits)
            && r.confidence in {0.6, 0.75, 0.9}
            && (r.confidence == 0.6 <==> p.restartCount > 5)
            && (r.confidence == 0.75 <==> p.restartCount <= 5 && p.isHPAManaged)
  {
  }

  /** Every non-negative usage at most ratio times the request leaves memory waste, above 32Mi. */
  ghost predicate MemRatioWastes(wd: Detector, ratio: real) {
    forall p: PodInput | p.memRequestMi > 32.0 && p.memUsageP95Mi >= 0.0 && p.memUsageP95Mi / p.memRequestMi <= ratio ::
      Analyze(wd, p).memWasteMi > 0.0
  }

  lemma MemWasteBelowRatio(wd: Detector, p: PodInput, ratio: real)
    requires p.memRequestMi > 32.0 && p.memUsageP95Mi / p.memRequestMi <= ratio <= 5.0 / 12.0
    ensures Analyze(wd, p).memWasteMi > 0.0
  {
    RatioBelow(p.memUsageP95Mi, p.memRequestMi, 5.0 / 12.0);
    var x := Max(p.memUsageP95Mi * SAFETY_BUFFER, 32.0);
    assert x > 32.0 ==> 2.0 * x <= p.memRequestMi;
    RoundMemBelowDouble(x);
  }

  /** A pod just above the ratio: 64Mi requested, and an optimum of 64Mi. */
  function TightPod(usage: real): PodInput {
    PodInput("pod", "container", "namespace", 0.0, 0.0, 64.0, usage, true, false, 0)
  }

  /** 5/12 is the largest usage ratio that guarantees memory waste. */
  lemma MemWasteRatioIsSharp(wd: Detector, ratio: real)
    ensures MemRatioWastes(wd, ratio) <==> ratio <= 5.0 / 12.0
  {
    if ratio <= 5.0 / 12.0 {
      forall p: PodInput | p.memRequestMi > 32.0 && p.memUsageP95Mi >= 0.0 && p.memUsageP95Mi / p.memRequestMi <= ratio
        ensures Analyze(wd, p).memWasteMi > 0.0
      {
        MemWasteBelowRatio(wd, p, ratio);
      }
    } else {
      var usage := Min(64.0 * ratio, 50.0);
      var p := TightPod(usage);
      assert usage * SAFETY_BUFFER > 32.0;
      assert Analyze(wd, p).memWasteMi == 0.0;
      RatioBelow(usage, 64.0, ratio);
      assert p.memUsageP95Mi / p.memRequestMi <= ratio;
    }
  }

  /** So a pod can be memory-overprovisioned without any memory waste. */
  lemma OverprovisionedWithoutWaste(wd: Detector)
    ensures MemOver(TightPod(30.0)) && Analyze(wd, TightPod(30.0)).isOverprovisioned
    ensures Analyze(wd, TightPod(30.0)).memWasteMi == 0.0
  {
    RatioBelow(30.0, 64.0, MEM_WASTE_THRESHOLD);
  }

  lemma AnnualCostMonotone(wd: Detector, c0: real, m0: real, c1: real, m1: real)
    requires wd.costPerCpuH >= 0.0 && wd.costPerGbH >= 0.0 && c0 <= c1 && m0 <= m1
    ensures AnnualCost(wd, c0, m0) <= AnnualCost(wd, c1, m1)
  {
    var c, m := (c1 - c0) / 1000.0, (m1 - m0) / 1024.0;
    assert c * wd.costPerCpuH >= 0.0 && m * wd.costPerGbH >= 0.0;
    assert c1 / 1000.0 * wd.costPerCpuH == c0 / 1000.0 * wd.costPerCpuH + c * wd.costPerCpuH;
    assert m1 / 1024.0 * wd.costPerGbH == m0 / 1024.0 * wd.costPerGbH + m * wd.costPerGbH;
  }

  /** With non-negative prices, waste never earns money. */
  lemma CostNonNegative(wd: Detector, p: PodInput)
    requires wd.costPerCpuH >= 0.0 && wd.costPerGbH >= 0.0
    ensures Analyze(wd, p).annualCostWasteEur >= 0.0
  {
    var r := Analyze(wd, p);
    AnnualCostMonotone(wd, 0.0, 0.0, r.cpuWasteM, r.memWasteMi);
    CentsMonotone(0.0, AnnualCost(wd, r.cpuWasteM, r.memWasteMi));
  }

  // ----- priority

  /** Position of a priority, least urgent first. */
  function PriorityRank(priority: string): int {
    match priority
    case "HIGH" => 2
    case "MEDIUM" => 1
    case _ => 0
  }

  lemma PctMonotone(optimum: real, r0: real, r1: real)
    requires optimum > 0.0 && 0.0 < r0 <= r1
    ensures 0.0 <= Max(0.0, r0 - optimum) / r0 <= Max(0.0, r1 - optimum) / r1 < 1.0
  {
    var w0, w1 := Max(0.0, r0 - optimum), Max(0.0, r1 - optimum);
    RatioBelow(w1, r1, 1.0);
    RatioBelow(w0, r0, 1.0);
    var q := w0 / r0;
    assert q * r0 == w0;
    assert (1.0 - q) * (r1 - r0) >= 0.0;
    assert q * r1 == w0 + q * (r1 - r0);
    assert w1 >= w0 + (r1 - r0) || w0 == 0.0;
    assert w1 / r1 >= 0.0;
    if w1 / r1 < q {
      RatioBelow(w1, r1, q);
    }
  }

  /** Requesting more, for the same usage, never makes a pod less urgent. */
  lemma PriorityMonotone(wd: Detector, p: PodInput, q: PodInput)
    requires wd.costPerCpuH >= 0.0 && wd.costPerGbH >= 0.0
    requires q == p.(cpuRequestM := q.cpuRequestM, memRequestMi := q.memRequestMi)
    requires p.cpuRequestM <= q.cpuRequestM && p.memRequestMi <= q.memRequestMi
    ensures PriorityRank(Analyze(wd, p).priority) <= PriorityRank(Analyze(wd, q).priority)
    ensures 0.0 <= Analyze(wd, q).cpuWastePct < 100.0
  {
    var r, t := Analyze(wd, p), Analyze(wd, q);
    OptimaLargeEnough(p.cpuUsageP95M, p.memUsageP95Mi);
    AnnualCostMonotone(wd, r.cpuWasteM, r.memWasteMi, t.cpuWasteM, t.memWasteMi);
    CentsMonotone(AnnualCost(wd, r.cpuWasteM, r.memWasteMi), AnnualCost(wd, t.cpuWasteM, t.memWasteMi));
    if p.cpuRequestM > 0.0 {
      PctMonotone(r.cpuOptimalM, p.cpuRequestM, q.cpuRequestM);
    } else if q.cpuRequestM > 0.0 {
      PctMonotone(r.cpuOptimalM, q.cpuRequestM, q.cpuRequestM);
    }
  }

  // ----- rightsizing

  function Rightsized(p: PodInput): PodInput {
    p.(cpuRequestM := Min(p.cpuRequestM, CpuOptimal(p.cpuUsageP95M)),
       memRequestMi := Min(p.memRequestMi, MemOptimal(p.memUsageP95Mi)))
  }

  /** A pod sized to its optimum has nothing left to reclaim, and keeps its optimum. */
  lemma RightsizedHasNoWaste(wd: Detector, p: PodInput)
    ensures var r := Analyze(wd, Rightsized(p));
            && r.cpuWasteM == 0.0 && r.memWasteMi == 0.0 && r.annualCostWasteEur == 0.0
            && r.cpuOptimalM == Analyze(wd, p).cpuOptimalM && r.memOptimalMi == Analyze(wd, p).memOptimalMi
  {
    assert AnnualCost(wd, 0.0, 0.0) == 0.0;
  }
}
