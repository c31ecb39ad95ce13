/** The what-if arithmetic of the simulation endpoint (backend/internal/api/handlers/simulate.go). */
module Simulate {
  import opened Rounding
  import opened WasteDetector

  /** The averages that the metrics query returned; a value without data is 0. */
  datatype Current = Current(
    cpuRequestM: real,
    memRequestMi: real,
    cpuP95: real,
    memP95: real,
    hasLimits: bool,
    isHPAManaged: bool,
    restartCount: int)

  datatype Projection = Projection(
    currentCpuReqM: real,
    currentMemReqMi: real,
    proposedCpuReqM: real,
    proposedMemReqMi: real,
    savingsEurAnnual: real,
    scoreDelta: real,
    co2ReductionKg: real,
    safeToApply: bool,
    confidence: real)

  function Or(value: real, default: real): real {
    if value == 0.0 then default else value
  }

  function WithDefaults(c: Current): Current {
    c.(cpuP95 := Or(c.cpuP95, 50.0), memP95 := Or(c.memP95, 200.0),
       cpuRequestM := Or(c.cpuRequestM, 500.0), memRequestMi := Or(c.memRequestMi, 512.0))
  }

  function Pod(c: Current, cpuRequest: real, memRequest: real): PodInput {
    PodInput("", "", "", cpuRequest, c.cpuP95, memRequest, c.memP95, c.hasLimits, c.isHPAManaged, c.restartCount)
  }

  /** newCpu and newMem are the requested sizes, 0 when the caller leaves them out. */
  function Project(wd: Detector, data: Current, newCpu: real, newMem: real): Projection {
    var c := WithDefaults(data);
    var current := Analyze(wd, Pod(c, c.cpuRequestM, c.memRequestMi));
    var cpu := Or(newCpu, current.cpuOptimalM);
    var mem := Or(newMem, current.memOptimalMi);
    var proposed := Analyze(wd, Pod(c, cpu, mem));
    var savings := current.annualCostWasteEur - proposed.annualCostWasteEur;
    Projection(
      c.cpuRequestM, c.memRequestMi, cpu, mem, savings,
      cpu / c.cpuRequestM * 10.0, savings * 0.1,
      cpu >= c.cpuP95 * 1.1 && mem >= c.memP95 * 1.1,
      proposed.confidence)
  }

  /** The yearly waste of the current configuration. */
  function CurrentWaste(wd: Detector, data: Current): real {
    var c := WithDefaults(data);
    Analyze(wd, Pod(c, c.cpuRequestM, c.memRequestMi)).annualCostWasteEur
  }

  ghost predicate Priced(wd: Detector) {
    wd.costPerCpuH >= 0.0 && wd.costPerGbH >= 0.0
  }

  /**
   With both sizes left out the proposal reclaims everything: no waste remains, the savings are the
   whole current waste, and the proposal is safe.
   */
  lemma OmittedSizesAreIdeal(wd: Detector, data: Current)
    requires Priced(wd)
    ensures var p := Project(wd, data, 0.0, 0.0);
            var left := Analyze(wd, Pod(WithDefaults(data), p.proposedCpuReqM, p.proposedMemReqMi));
            && left.cpuWasteM == 0.0 && left.memWasteMi == 0.0
            && p.savingsEurAnnual == CurrentWaste(wd, data) >= 0.0
            && p.safeToApply
  {
    var c := WithDefaults(data);
    OptimaLargeEnough(c.cpuP95, c.memP95);
    CostNonNegative(wd, Pod(c, c.cpuRequestM, c.memRequestMi));
    RightsizedHasNoWaste(wd, Pod(c, CpuOptimal(c.cpuP95), MemOptimal(c.memP95)));
  }

  /** What is left of the waste when the two sizes are proposed. */
  function LeftOver(wd: Detector, data: Current, cpu: real, mem: real): WasteReport {
    var p := Project(wd, data, cpu, mem);
    Analyze(wd, Pod(WithDefaults(data), p.proposedCpuReqM, p.proposedMemReqMi))
  }

  /** A larger proposal never saves more; a size left out counts as 0 and fits the rule too. */
  lemma SavingsAreAntitone(wd: Detector, data: Current, cpu0: real, mem0: real, cpu1: real, mem1: real)
    requires Priced(wd) && cpu0 <= cpu1 && mem0 <= mem1
    ensures Project(wd, data, cpu1, mem1).savingsEurAnnual <= Project(wd, data, cpu0, mem0).savingsEurAnnual
  {
    var r0, r1 := LeftOver(wd, data, cpu0, mem0), LeftOver(wd, data, cpu1, mem1);
    OptimaLargeEnough(WithDefaults(data).cpuP95, WithDefaults(data).memP95);
    AnnualCostMonotone(wd, r0.cpuWasteM, r0.memWasteMi, r1.cpuWasteM, r1.memWasteMi);
    CentsMonotone(AnnualCost(wd, r0.cpuWasteM, r0.memWasteMi), AnnualCost(wd, r1.cpuWasteM, r1.memWasteMi));
  }

  /** No proposal saves more than the current waste, and the savings reach it at the optimum or below. */
  lemma SavingsAreBounded(wd: Detector, data: Current, cpu: real, mem: real)
    requires Priced(wd)
    ensures Project(wd, data, cpu, mem).savingsEurAnnual <= CurrentWaste(wd, data)
    ensures cpu <= CpuOptimal(WithDefaults(data).cpuP95) && mem <= MemOptimal(WithDefaults(data).memP95) ==>
              Project(wd, data, cpu, mem).savingsEurAnnual == CurrentWaste(wd, data)
  {
    var p := Project(wd, data, cpu, mem);
    var c := WithDefaults(data);
    var pod := Pod(c, p.proposedCpuReqM, p.proposedMemReqMi);
    CostNonNegative(wd, pod);
    if cpu <= CpuOptimal(c.cpuP95) && mem <= MemOptimal(c.memP95) {
      assert Rightsized(pod) == pod;
      RightsizedHasNoWaste(wd, pod);
    }
  }

  /** Any proposal at or above the optimum is safe. */
  lemma OptimumIsSafe(wd: Detector, data: Current, cpu: real, mem: real)
    requires cpu >= CpuOptimal(WithDefaults(data).cpuP95) && mem >= MemOptimal(WithDefaults(data).memP95)
    ensures Project(wd, data, cpu, mem).safeToApply
  {
    OptimaLargeEnough(WithDefaults(data).cpuP95, WithDefaults(data).memP95);
  }

  /** A proposal is safe exactly when both sizes leave 10 % room above the usage. */
  lemma SafeIff(wd: Detector, data: Current, cpu: real, mem: real)
    ensures var p, c := Project(wd, data, cpu, mem), WithDefaults(data);
            p.safeToApply <==> p.proposedCpuReqM >= 1.1 * c.cpuP95 && p.proposedMemReqMi >= 1.1 * c.memP95
  {
  }

  /** Sizes and averages that are given are used as they are; 0 stands for the optimum, 50m, 200Mi, 500m and 512Mi. */
  lemma DefaultsFillGaps(wd: Detector, data: Current, cpu: real, mem: real)
    ensures var p, c := Project(wd, data, cpu, mem), WithDefaults(data);
            && (cpu != 0.0 ==> p.proposedCpuReqM == cpu) && (cpu == 0.0 ==> p.proposedCpuReqM == CpuOptimal(c.cpuP95))
            && (mem != 0.0 ==> p.proposedMemReqMi == mem) && (mem == 0.0 ==> p.proposedMemReqMi == MemOptimal(c.memP95))
            && p.currentCpuReqM == (if data.cpuRequestM == 0.0 then 500.0 else data.cpuRequestM)
            && p.currentMemReqMi == (if data.memRequestMi == 0.0 then 512.0 else data.memRequestMi)
            && c.cpuP95 == (if data.cpuP95 == 0.0 then 50.0 else data.cpuP95)
            && c.memP95 == (if data.memP95 == 0.0 then 200.0 else data.memP95)
            && (c.hasLimits, c.isHPAManaged, c.restartCount) == (data.hasLimits, data.isHPAManaged, data.restartCount)
  {
  }

  /** What the proposal still wastes is not saved, and the two heuristics and the confidence follow. */
  lemma ProjectionBalances(wd: Detector, data: Current, cpu: real, mem: real)
    ensures var p, left := Project(wd, data, cpu, mem), LeftOver(wd, data, cpu, mem);
            && p.savingsEurAnnual + left.annualCostWasteEur == CurrentWaste(wd, data)
            && p.co2ReductionKg * 10.0 == p.savingsEurAnnual
            && p.currentCpuReqM != 0.0 && p.scoreDelta == p.proposedCpuReqM / p.currentCpuReqM * 10.0
            && p.confidence == left.confidence
            && p.confidence == (if data.restartCount > 5 then 0.6 else if data.isHPAManaged then 0.75 else 0.9)
  {
  }
}
