/**
 Turning waste into yearly money and carbon: backend/internal/analyzer/cost_optimizer.go,
 backend/internal/analyzer/carbon_calculator.go and the equivalences recomputed by
 backend/internal/api/handlers/carbon.go.
 */
module Costs {
  import opened Counting
  import opened Rounding
  import opened WasteDetector

  /** The prices that cost_optimizer.go has built in. */
  const BUILT_IN := Detector(0.05, 0.006)

  datatype CostReport = CostReport(
    annualSavingsEur: real,
    monthlySavingsEur: real,
    cpuRightsizingEur: real,
    memRightsizingEur: real)

  function CpuSaving(r: WasteReport): real {
    r.cpuWasteM / 1000.0 * 0.05 * 8760.0
  }

  function MemSaving(r: WasteReport): real {
    r.memWasteMi / 1024.0 * 0.006 * 8760.0
  }

  ghost function SavingsOf(reports: seq<WasteReport>): CostReport {
    var cpu, mem := Sum(reports, CpuSaving), Sum(reports, MemSaving);
    CostReport(Cents(cpu + mem), Cents(Cents(cpu + mem) / 12.0), Cents(cpu), Cents(mem))
  }

  method ComputeSavings(reports: seq<WasteReport>) returns (report: CostReport)
    ensures report == SavingsOf(reports)
  {
    var cpuSavings, memSavings := 0.0, 0.0;
    for n := 0 to |reports|
      invariant cpuSavings == Sum(reports[..n], CpuSaving)
      invariant memSavings == Sum(reports[..n], MemSaving)
    {
      SumNext(reports, n, CpuSaving);
      SumNext(reports, n, MemSaving);
      cpuSavings := cpuSavings + reports[n].cpuWasteM / 1000.0 * 0.05 * 8760.0;
      memSavings := memSavings + reports[n].memWasteMi / 1024.0 * 0.006 * 8760.0;
    }
    assert reports[..|reports|] == reports;
    var total := Cents(cpuSavings + memSavings);
    report := CostReport(total, Cents(total / 12.0), Cents(cpuSavings), Cents(memSavings));
  }

  function AnnualCostOf(r: WasteReport): real {
    r.annualCostWasteEur
  }

  /** The report's own yearly cost is its two wastes at the built-in prices, rounded to cents. */
  ghost predicate PricedBuiltIn(r: WasteReport) {
    r.annualCostWasteEur == Cents(AnnualCost(BUILT_IN, r.cpuWasteM, r.memWasteMi))
  }

  lemma AnalyzedIsPriced(p: PodInput)
    ensures PricedBuiltIn(Analyze(BUILT_IN, p))
  {
  }

  lemma {:induction false} DriftBeforeTotal(reports: seq<WasteReport>)
    requires forall r | r in reports :: PricedBuiltIn(r)
    ensures Abs(Sum(reports, AnnualCostOf) - (Sum(reports, CpuSaving) + Sum(reports, MemSaving)))
         <= |reports| as real * 0.005
  {
    if reports != [] {
      var r := reports[0];
      DriftBeforeTotal(reports[1..]);
      assert PricedBuiltIn(r);
      CentsClose(AnnualCost(BUILT_IN, r.cpuWasteM, r.memWasteMi));
      assert AnnualCost(BUILT_IN, r.cpuWasteM, r.memWasteMi) == CpuSaving(r) + MemSaving(r);
    }
  }

  /** The per-pod yearly costs of n reports sum to within (n + 1) / 2 cents of the cluster's total. */
  ghost predicate DriftOk(reports: seq<WasteReport>) {
    Abs(Sum(reports, AnnualCostOf) - SavingsOf(reports).annualSavingsEur) <= (|reports| as real + 1.0) / 2.0 / 100.0
  }

  /** That holds for any reports priced as cost_optimizer.go prices them. */
  lemma DriftIsBounded(reports: seq<WasteReport>)
    requires forall r | r in reports :: PricedBuiltIn(r)
    ensures DriftOk(reports)
  {
    DriftBeforeTotal(reports);
    CentsClose(Sum(reports, CpuSaving) + Sum(reports, MemSaving));
  }

  function ReportsOf(wd: Detector, pods: seq<PodInput>): seq<WasteReport> {
    seq(|pods|, i requires 0 <= i < |pods| => Analyze(wd, pods[i]))
  }

  lemma ReportsArePriced(pods: seq<PodInput>)
    ensures forall r | r in ReportsOf(BUILT_IN, pods) :: PricedBuiltIn(r)
  {
    forall p | p in pods ensures PricedBuiltIn(Analyze(BUILT_IN, p)) {
      AnalyzedIsPriced(p);
    }
  }

  /** How far a report's own cost is from what the cost report makes of the same waste. */
  function Gap(r: WasteReport): real {
    r.annualCostWasteEur - Cents(CpuSaving(r) + MemSaving(r))
  }

  lemma OneReport(r: WasteReport)
    ensures Sum([r], AnnualCostOf) - SavingsOf([r]).annualSavingsEur == Gap(r)
  {
    SumCons(r, [], AnnualCostOf);
    SumCons(r, [], CpuSaving);
    SumCons(r, [], MemSaving);
    assert [r] + [] == [r];
  }

  /** A pod that wastes the given amounts: it uses nothing, and requests them above the least sizes. */
  function Wasting(cpu: real, mem: real): PodInput {
    PodInput("", "", "", cpu + CpuOptimal(0.0), 0.0, mem + MemOptimal(0.0), 0.0, true, false, 0)
  }

  lemma WastingGap(wd: Detector, cpu: real, mem: real)
    requires cpu >= 0.0 && mem >= 0.0
    ensures var x := AnnualCost(wd, cpu, mem) - AnnualCost(BUILT_IN, cpu, mem);
            Abs(Gap(Analyze(wd, Wasting(cpu, mem))) - x) <= 0.01
  {
    var r := Analyze(wd, Wasting(cpu, mem));
    assert r.cpuWasteM == cpu && r.memWasteMi == mem;
    assert CpuSaving(r) + MemSaving(r) == AnnualCost(BUILT_IN, cpu, mem);
    CentsClose(AnnualCost(wd, cpu, mem));
    CentsClose(AnnualCost(BUILT_IN, cpu, mem));
  }

  /** Some non-negative multiple of a non-zero number is as far from zero as one likes. */
  lemma Scale(delta: real, size: real) returns (x: real)
    requires delta != 0.0 && size >= 0.0
    ensures x >= 0.0 && Abs(x * delta) == size
  {
    x := size / Abs(delta);
    assert x * Abs(delta) == size;
    assert delta < 0.0 ==> x * delta == -(x * Abs(delta));
  }

  /** At any other prices one pod is enough to exceed any bound. */
  lemma DriftIsUnbounded(wd: Detector, bound: real) returns (p: PodInput)
    requires wd != BUILT_IN && bound >= 0.0
    ensures Abs(Gap(Analyze(wd, p))) > bound
  {
    var cpuDelta, memDelta := wd.costPerCpuH - 0.05, wd.costPerGbH - 0.006;
    if cpuDelta != 0.0 {
      var x := Scale(cpuDelta, bound + 1.0);
      p := Wasting(x, 0.0);
      assert AnnualCost(wd, x, 0.0) - AnnualCost(BUILT_IN, x, 0.0) == x * cpuDelta * 8.76;
      WastingGap(wd, x, 0.0);
    } else {
      var x := Scale(memDelta, bound + 1.0);
      p := Wasting(0.0, x);
      assert AnnualCost(wd, 0.0, x) - AnnualCost(BUILT_IN, 0.0, x) == x * memDelta * (8760.0 / 1024.0);
      WastingGap(wd, 0.0, x);
    }
  }

  /** The bound holds for all clusters exactly when the detector is configured with the built-in prices. */
  lemma DriftIsBoundedIff(wd: Detector)
    ensures (forall pods :: DriftOk(ReportsOf(wd, pods))) <==> wd == BUILT_IN
  {
    if wd == BUILT_IN {
      forall pods ensures DriftOk(ReportsOf(wd, pods)) {
        ReportsArePriced(pods);
        DriftIsBounded(ReportsOf(wd, pods));
      }
    } else {
      var p := DriftIsUnbounded(wd, 1.0);
      OneReport(Analyze(wd, p));
      assert ReportsOf(wd, [p]) == [Analyze(wd, p)];
    }
  }

  lemma PartsOffByACent(x: real, y: real)
    ensures Abs(Cents(x) + Cents(y) - Cents(x + y)) <= 0.01
  {
    var difference := Round(x * 100.0) + Round(y * 100.0) - Round((x + y) * 100.0);
    assert (x + y) * 100.0 == x * 100.0 + y * 100.0;
    assert -1.5 <= difference as real <= 1.5;
    assert -1 <= difference <= 1;
  }

  /** The CPU and memory breakdown adds up to the total, give or take one cent. */
  lemma BreakdownOffByACent(reports: seq<WasteReport>)
    ensures var s := SavingsOf(reports);
            Abs(s.cpuRightsizingEur + s.memRightsizingEur - s.annualSavingsEur) <= 0.01
  {
    PartsOffByACent(Sum(reports, CpuSaving), Sum(reports, MemSaving));
  }

  function CpuMilli(r: WasteReport): real {
    r.cpuWasteM
  }

  function MemMebi(r: WasteReport): real {
    r.memWasteMi
  }

  lemma {:induction false} SumScaled(reports: seq<WasteReport>, f: WasteReport -> real, g: WasteReport -> real, k: real)
    requires forall r: WasteReport :: f(r) == g(r) * k
    ensures Sum(reports, f) == Sum(reports, g) * k
  {
    if reports != [] {
      SumScaled(reports[1..], f, g, k);
    }
  }

  lemma WasteInEuros(reports: seq<WasteReport>)
    ensures Sum(reports, CpuSaving) == Sum(reports, CpuMilli) * 0.438
    ensures Sum(reports, MemSaving) == Sum(reports, MemMebi) * 0.051328125
  {
    SumScaled(reports, CpuSaving, CpuMilli, 0.438);
    SumScaled(reports, MemSaving, MemMebi, 0.051328125);
  }

  /**
   A wasted millicore costs 43.8 cents a year and a wasted mebibyte 5.1328125; each part of the report
   is that of its own resource, and twelve months make a year, to within the roundings.
   */
  lemma PartsAreTheirResources(reports: seq<WasteReport>)
    ensures var s := SavingsOf(reports);
            var cpu, mem := Sum(reports, CpuMilli) * 0.438, Sum(reports, MemMebi) * 0.051328125;
            && Abs(s.cpuRightsizingEur - cpu) <= 0.005
            && Abs(s.memRightsizingEur - mem) <= 0.005
            && Abs(s.annualSavingsEur - (cpu + mem)) <= 0.005
            && Abs(12.0 * s.monthlySavingsEur - s.annualSavingsEur) <= 0.06
  {
    WasteInEuros(reports);
    CentsClose(Sum(reports, CpuSaving));
    CentsClose(Sum(reports, MemSaving));
    CentsClose(Sum(reports, CpuSaving) + Sum(reports, MemSaving));
    CentsClose(SavingsOf(reports).annualSavingsEur / 12.0);
  }

  // ----- carbon

  const WATT_CPU: real := 5.0
  const WATT_RAM: real := 0.38

  function CarbonIntensity(provider: string, region: string): real {
    match provider + "/" + region
    case "aws/eu-west-1" => 233.0
    case "aws/eu-central-1" => 338.0
    case "gcp/europe-west1" => 127.0
    case "azure/westeurope" => 195.0
    case "azure/francecentral" => 56.0
    case "on-prem/fr" => 65.0
    case "on-prem/local" => 300.0
    case _ => 300.0
  }

  function PUE(provider: string): real {
    match provider
    case "aws" => 1.18
    case "gcp" => 1.10
    case "azure" => 1.20
    case "on-prem" => 1.58
    case _ => 1.5
  }

  datatype CarbonReport = CarbonReport(
    provider: string,
    region: string,
    pue: real,
    carbonIntensity: real,
    wattsWasted: real,
    kwhAnnual: real,
    co2KgAnnual: real,
    equivalentKmCar: real,
    equivalentTrees: real)

  function CpuCores(r: WasteReport): real {
    r.cpuWasteM / 1000.0
  }

  function MemGB(r: WasteReport): real {
    r.memWasteMi / 1024.0
  }

  function Watts(cpuCores: real, memGB: real): real {
    cpuCores * WATT_CPU + memGB * WATT_RAM
  }

  /** Yearly energy in kWh, before rounding. */
  function Energy(watts: real, provider: string): real {
    watts * 8760.0 / 1000.0 * PUE(provider)
  }

  /** The closed-form part: every figure is rounded from the unrounded ones before it. */
  function CarbonFrom(provider: string, region: string, watts: real): CarbonReport {
    var ci := CarbonIntensity(provider, region);
    var kwh := Energy(watts, provider);
    var co2 := kwh * ci / 1000.0;
    CarbonReport(
      provider, region, PUE(provider), ci,
      Cents(watts), Cents(kwh), Cents(co2), Cents(co2 * 6.5), Cents(co2 / 21.77))
  }

  ghost function CarbonOf(provider: string, region: string, reports: seq<WasteReport>): CarbonReport {
    CarbonFrom(provider, region, Watts(Sum(reports, CpuCores), Sum(reports, MemGB)))
  }

  method ComputeCarbon(provider: string, region: string, reports: seq<WasteReport>) returns (report: CarbonReport)
    ensures report == CarbonOf(provider, region, reports)
  {
    var cpuCores, memGB := 0.0, 0.0;
    for n := 0 to |reports|
      invariant cpuCores == Sum(reports[..n], CpuCores)
      invariant memGB == Sum(reports[..n], MemGB)
    {
      SumNext(reports, n, CpuCores);
      SumNext(reports, n, MemGB);
      cpuCores := cpuCores + reports[n].cpuWasteM / 1000.0;
      memGB := memGB + reports[n].memWasteMi / 1024.0;
    }
    assert reports[..|reports|] == reports;
    report := CarbonFrom(provider, region, Watts(cpuCores, memGB));
  }

  const KNOWN_INTENSITIES: set<string> :=
    {"aws/eu-west-1", "aws/eu-central-1", "gcp/europe-west1", "azure/westeurope", "azure/francecentral", "on-prem/fr"}

  /** The intensities and PUEs that are known, and what stands for the others. */
  lemma CarbonTables(provider: string, region: string)
    ensures CarbonIntensity("aws", "eu-west-1") == 233.0 && CarbonIntensity("aws", "eu-central-1") == 338.0
    ensures CarbonIntensity("gcp", "europe-west1") == 127.0 && CarbonIntensity("azure", "westeurope") == 195.0
    ensures CarbonIntensity("azure", "francecentral") == 56.0 && CarbonIntensity("on-prem", "fr") == 65.0
    ensures CarbonIntensity("on-prem", "local") == 300.0
    ensures PUE("aws") == 1.18 && PUE("gcp") == 1.10 && PUE("azure") == 1.20 && PUE("on-prem") == 1.58
    ensures provider + "/" + region !in KNOWN_INTENSITIES ==> CarbonIntensity(provider, region) == 300.0
    ensures provider !in {"aws", "gcp", "azure", "on-prem"} ==> PUE(provider) == 1.5
  {
    assert "aws" + "/" + "eu-west-1" == "aws/eu-west-1" && "aws" + "/" + "eu-central-1" == "aws/eu-central-1";
    assert "gcp" + "/" + "europe-west1" == "gcp/europe-west1";
    assert "azure" + "/" + "westeurope" == "azure/westeurope";
    assert "azure" + "/" + "francecentral" == "azure/francecentral";
    assert "on-prem" + "/" + "fr" == "on-prem/fr" && "on-prem" + "/" + "local" == "on-prem/local";
  }

  lemma WattsOfWaste(reports: seq<WasteReport>)
    ensures Watts(Sum(reports, CpuCores), Sum(reports, MemGB))
         == Sum(reports, CpuMilli) * 0.005 + Sum(reports, MemMebi) * 0.00037109375
  {
    SumScaled(reports, CpuCores, CpuMilli, 0.001);
    SumScaled(reports, MemGB, MemMebi, 0.0009765625);
  }

  /** 8760 hours at a PUE of 1.58 and 65 g a kWh; then 6.5 km by car a kilogram, and 21.77 kg a tree. */
  ghost predicate Emits(c: CarbonReport, watts: real) {
    && Abs(c.wattsWasted - watts) <= 0.005
    && Abs(c.kwhAnnual - watts * 13.8408) <= 0.005
    && Abs(c.co2KgAnnual - watts * 0.899652) <= 0.005
    && Abs(c.equivalentKmCar - watts * 5.847738) <= 0.005
    && Abs(c.equivalentTrees - watts * 0.899652 / 21.77) <= 0.005
    && (c.provider, c.region, c.pue, c.carbonIntensity) == ("on-prem", "fr", 1.58, 65.0)
  }

  lemma FromWatts(watts: real)
    ensures Emits(CarbonFrom("on-prem", "fr", watts), watts)
  {
    CarbonTables("on-prem", "fr");
    var co2 := watts * 0.899652;
    assert Energy(watts, "on-prem") == watts * 13.8408;
    assert Energy(watts, "on-prem") * 65.0 / 1000.0 == co2;
    CentsClose(watts);
    CentsClose(watts * 13.8408);
    CentsClose(co2);
    CentsClose(co2 * 6.5);
    CentsClose(co2 / 21.77);
  }

  lemma EmitsSame(c: CarbonReport, watts: real, same: real)
    requires Emits(c, watts) && watts == same
    ensures Emits(c, same)
  {
  }

  /** The worker's carbon figures, from the wasted resources: 5 W a core and 0.38 W a gibibyte. */
  lemma CarbonOfWaste(reports: seq<WasteReport>)
    ensures Emits(CarbonOf("on-prem", "fr", reports),
                  Sum(reports, CpuMilli) * 0.005 + Sum(reports, MemMebi) * 0.00037109375)
  {
    var watts := Watts(Sum(reports, CpuCores), Sum(reports, MemGB));
    WattsOfWaste(reports);
    FromWatts(watts);
    EmitsSame(CarbonOf("on-prem", "fr", reports), watts,
              Sum(reports, CpuMilli) * 0.005 + Sum(reports, MemMebi) * 0.00037109375);
  }

  /** What GetCarbon derives from the rounded CO2 of the latest score. */
  datatype Equivalences = Equivalences(kwhAnnual: real, kmCar: real, trees: real)

  function HandlerEquivalences(co2KgAnnual: real): Equivalences {
    Equivalences(co2KgAnnual / 0.065, co2KgAnnual * 6.5, co2KgAnnual / 21.77)
  }

  /** Recomputing from the rounded CO2 stays within 0.082 kWh, 0.0375 km and 0.0053 trees. */
  lemma EquivalencesAreClose(reports: seq<WasteReport>)
    ensures var c := CarbonOf("on-prem", "fr", reports);
            var h := HandlerEquivalences(c.co2KgAnnual);
            && Abs(h.kwhAnnual - c.kwhAnnual) < 0.082
            && Abs(h.kmCar - c.equivalentKmCar) <= 0.0375
            && Abs(h.trees - c.equivalentTrees) < 0.0053
  {
    assert CarbonIntensity("on-prem", "fr") == 65.0 by {
      assert "on-prem" + "/" + "fr" == "on-prem/fr";
    }
    var kwh := Energy(Watts(Sum(reports, CpuCores), Sum(reports, MemGB)), "on-prem");
    var co2 := kwh * 65.0 / 1000.0;
    CentsClose(kwh);
    CentsClose(co2);
    CentsClose(co2 * 6.5);
    CentsClose(co2 / 21.77);
  }
}
