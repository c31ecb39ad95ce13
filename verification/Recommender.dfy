/** The ten best recommendations (backend/internal/analyzer/recommender.go). */
module Recommender {
  import opened Counting
  import opened WasteDetector

  const TOP: nat := 10

  datatype Advice = Resize(cpuM: int, memMi: int) | AddLimits

  datatype Recommendation = Recommendation(
    priority: string,
    kind: string,
    title: string,
    advice: Advice,
    savings: real,
    target: string,
    confidence: real)

  function Rightsizing(r: WasteReport): Recommendation {
    Recommendation(
      r.priority, "rightsizing", "Rightsizing " + r.podName + "/" + r.containerName,
      Resize(r.cpuRightsizing, r.memRightsizing), r.annualCostWasteEur,
      r.namespace + "/" + r.podName, r.confidence)
  }

  function MissingLimits(r: WasteReport): Recommendation {
    Recommendation(
      "HIGH", "missing_limits", "Ajouter limits sur " + r.containerName,
      AddLimits, 0.0, r.namespace + "/" + r.podName, 0.0)
  }

  /** What one report contributes. */
  function CandidatesOf(r: WasteReport): seq<Recommendation> {
    if !r.isOverprovisioned then []
    else if r.hasLimits then [Rightsizing(r)]
    else [Rightsizing(r), MissingLimits(r)]
  }

  function Candidates(reports: seq<WasteReport>): seq<Recommendation> {
    if reports == [] then []
    else Candidates(reports[..|reports| - 1]) + CandidatesOf(reports[|reports| - 1])
  }

  function Savings(r: Recommendation): real {
    r.savings
  }

  ghost predicate Descending(s: seq<Recommendation>) {
    forall i, j | 0 <= i < j < |s| :: s[i].savings >= s[j].savings
  }

  /** What any correct sort, stable or not, may make of the candidates. */
  ghost predicate Sorts(recs: seq<Recommendation>, sorted: seq<Recommendation>) {
    multiset(sorted) == multiset(recs) && Descending(sorted)
  }

  function First(s: seq<Recommendation>, k: nat): seq<Recommendation> {
    if |s| > k then s[..k] else s
  }

  function Truncated(s: seq<Recommendation>): seq<Recommendation> {
    First(s, TOP)
  }

  method SwapWithPrevious(a: array<Recommendation>, k: nat)
    requires 0 < k < a.Length
    modifies a
    ensures a[..] == old(a[..][k := a[k - 1]][k - 1 := a[k]])
    ensures multiset(a[..]) == multiset(old(a[..]))
  {
    a[k], a[k - 1] := a[k - 1], a[k];
  }

  /** Sinks element n into the descending prefix before it. */
  method Insert(a: array<Recommendation>, n: nat)
    requires n < a.Length && Descending(a[..n])
    modifies a
    ensures Descending(a[..n + 1])
    ensures multiset(a[..]) == multiset(old(a[..]))
  {
    var k := n;
    while k > 0 && a[k].savings > a[k - 1].savings
      invariant 0 <= k <= n
      invariant multiset(a[..]) == multiset(old(a[..]))
      invariant forall i, j | 0 <= i < j <= n && j != k :: a[..][i].savings >= a[..][j].savings
    {
      SwapWithPrevious(a, k);
      k := k - 1;
    }
    assert forall i | 0 <= i <= n :: a[..n + 1][i] == a[..][i];
  }

  /** Stands for the library sort: in place, by savings, highest first. */
  method SortSlice(a: array<Recommendation>)
    modifies a
    ensures Sorts(old(a[..]), a[..])
  {
    for n := 0 to a.Length
      invariant multiset(a[..]) == multiset(old(a[..]))
      invariant Descending(a[..n])
    {
      Insert(a, n);
    }
    assert a[..a.Length] == a[..];
  }

  method GenerateRecommendations(reports: seq<WasteReport>) returns (result: seq<Recommendation>)
    ensures IsResult(reports, result)
  {
    var recs: seq<Recommendation> := [];
    for n := 0 to |reports|
      invariant recs == Candidates(reports[..n])
    {
      var r := reports[n];
      assert reports[..n + 1][..n] == reports[..n];
      if r.isOverprovisioned {
        recs := recs + [Rightsizing(r)];
        if !r.hasLimits {
          recs := recs + [MissingLimits(r)];
        }
      }
    }
    assert reports[..|reports|] == reports;
    var slice := new Recommendation[|recs|](i requires 0 <= i < |recs| => recs[i]);
    assert slice[..] == recs;
    SortSlice(slice);
    ghost var sorted := slice[..];
    result := slice[..];
    if |result| > 10 {
      result := result[..10];
    }
    assert Sorts(Candidates(reports), sorted) && result == Truncated(sorted);
  }

  // ----- main results

  ghost predicate NoLosses(s: seq<Recommendation>) {
    forall r | r in s :: r.savings >= 0.0
  }

  lemma TakeAway<T>(p: multiset<T>, s: multiset<T>, x: T, h: T)
    requires p <= s && x in p && (h in p ==> x == h)
    ensures p - multiset{x} <= s - multiset{h}
  {
  }

  /** Some picked element is worth no more than the best, and the others come from the rest. */
  lemma SetOneAside(sorted: seq<Recommendation>, pick: seq<Recommendation>) returns (i: nat)
    requires Descending(sorted) && pick != [] && multiset(pick) <= multiset(sorted)
    ensures sorted != [] && i < |pick| && pick[i].savings <= sorted[0].savings
    ensures multiset(pick[..i] + pick[i + 1..]) <= multiset(sorted[1..])
  {
    assert pick[0] in multiset(pick);
    assert sorted == [sorted[0]] + sorted[1..];
    if sorted[0] in pick {
      i :| 0 <= i < |pick| && pick[i] == sorted[0];
    } else {
      i := 0;
    }
    assert pick[i] in multiset(sorted);
    PullMultiset(pick, i);
    TakeAway(multiset(pick), multiset(sorted), pick[i], sorted[0]);
  }

  lemma PutBack(sorted: seq<Recommendation>, pick: seq<Recommendation>, i: nat, k: nat)
    requires sorted != [] && i < |pick| <= k && pick[i].savings <= sorted[0].savings
    requires Sum(pick[..i] + pick[i + 1..], Savings) <= Sum(First(sorted[1..], k - 1), Savings)
    ensures Sum(pick, Savings) <= Sum(First(sorted, k), Savings)
  {
    PullFront(pick, i, Savings);
    var best := First(sorted, k);
    assert best != [] && best[0] == sorted[0];
    assert best[1..] == First(sorted[1..], k - 1);
    assert Sum(best, Savings) == Savings(best[0]) + Sum(best[1..], Savings);
  }

  /** Taking any k of a descending list earns at most what its first k earn. */
  lemma {:induction false} PrefixIsBest(sorted: seq<Recommendation>, pick: seq<Recommendation>, k: nat)
    requires Descending(sorted) && NoLosses(sorted)
    requires multiset(pick) <= multiset(sorted) && |pick| <= k
    ensures Sum(pick, Savings) <= Sum(First(sorted, k), Savings)
    decreases |sorted|
  {
    if pick == [] {
      SumNonNegative(First(sorted, k));
    } else {
      var i := SetOneAside(sorted, pick);
      PrefixIsBest(sorted[1..], pick[..i] + pick[i + 1..], k - 1);
      PutBack(sorted, pick, i, k);
    }
  }

  lemma {:induction false} SumNonNegative(s: seq<Recommendation>)
    requires NoLosses(s)
    ensures Sum(s, Savings) >= 0.0
  {
    if s != [] {
      SumNonNegative(s[1..]);
    }
  }

  /** No choice of at most ten candidates is worth more than the ten that are returned. */
  lemma TopTenIsOptimal(recs: seq<Recommendation>, sorted: seq<Recommendation>, pick: seq<Recommendation>)
    requires Sorts(recs, sorted) && NoLosses(recs)
    requires multiset(pick) <= multiset(recs) && |pick| <= TOP
    ensures Sum(pick, Savings) <= Sum(Truncated(sorted), Savings)
    ensures |Truncated(sorted)| <= TOP && multiset(Truncated(sorted)) <= multiset(recs)
    ensures Descending(Truncated(sorted))
  {
    forall r | r in sorted ensures r.savings >= 0.0 {
      assert r in multiset(sorted);
    }
    PrefixIsBest(sorted, pick, TOP);
    TruncatedIsPart(sorted);
  }

  lemma TruncatedIsPart(sorted: seq<Recommendation>)
    ensures multiset(Truncated(sorted)) <= multiset(sorted)
  {
    if |sorted| > TOP {
      assert sorted == sorted[..TOP] + sorted[TOP..];
    }
  }

  function SavingsOf(s: seq<Recommendation>): (r: seq<real>)
    ensures |r| == |s| && forall i | 0 <= i < |r| :: r[i] == s[i].savings
  {
    seq(|s|, i requires 0 <= i < |s| => s[i].savings)
  }

  ghost function Worth(x: real): Recommendation -> real {
    (r: Recommendation) => if r.savings >= x then 1.0 else 0.0
  }

  /** In a descending list, those worth at least x are exactly the first ones. */
  lemma {:induction false} WorthCount(s: seq<Recommendation>, x: real, n: nat)
    requires Descending(s) && n <= |s|
    requires forall i | 0 <= i < n :: s[i].savings >= x
    requires forall i | n <= i < |s| :: s[i].savings < x
    ensures Sum(s, Worth(x)) == n as real
  {
    if s != [] {
      WorthCount(s[1..], x, if n > 0 then n - 1 else 0);
    }
  }

  lemma {:induction false} Boundary(s: seq<Recommendation>, x: real) returns (n: nat)
    requires Descending(s)
    ensures n <= |s|
    ensures forall i | 0 <= i < n :: s[i].savings >= x
    ensures forall i | n <= i < |s| :: s[i].savings < x
  {
    if s == [] || s[|s| - 1].savings >= x {
      n := |s|;
    } else {
      n := Boundary(s[..|s| - 1], x);
    }
  }

  /** All correct sorts, stable or not, show the same sequence of savings. */
  lemma SavingsDoNotDependOnTheSort(recs: seq<Recommendation>, a: seq<Recommendation>, b: seq<Recommendation>)
    requires Sorts(recs, a) && Sorts(recs, b)
    ensures SavingsOf(Truncated(a)) == SavingsOf(Truncated(b))
  {
    assert |a| == |multiset(a)| == |multiset(b)| == |b|;
    forall i | 0 <= i < |a| ensures a[i].savings == b[i].savings {
      NotBelow(a, b, i);
      NotBelow(b, a, i);
    }
  }

  lemma NotBelow(a: seq<Recommendation>, b: seq<Recommendation>, i: nat)
    requires multiset(a) == multiset(b) && Descending(a) && Descending(b) && i < |a| == |b|
    ensures a[i].savings <= b[i].savings
  {
    var x := a[i].savings;
    var n := Boundary(a, x);
    var m := Boundary(b, x);
    WorthCount(a, x, n);
    WorthCount(b, x, m);
    SumPermutation(a, b, Worth(x));
    assert n > i;
  }

  /** A candidate that was left out is worth no more than any that was returned, and the list is full. */
  lemma LeftOutIsWorthLess(recs: seq<Recommendation>, sorted: seq<Recommendation>, out: Recommendation)
    requires Sorts(recs, sorted)
    requires multiset(Truncated(sorted))[out] < multiset(recs)[out]
    ensures |Truncated(sorted)| == TOP
    ensures forall r | r in Truncated(sorted) :: r.savings >= out.savings
  {
    assert |sorted| > TOP;
    assert sorted == sorted[..TOP] + sorted[TOP..];
    assert out in sorted[TOP..];
    var j :| TOP <= j < |sorted| && sorted[j] == out;
  }

  lemma {:induction false} CandidateKinds(reports: seq<WasteReport>)
    requires forall r | r in reports :: r.annualCostWasteEur >= 0.0
    ensures NoLosses(Candidates(reports))
    ensures forall c | c in Candidates(reports) && c.kind == "missing_limits" :: c.savings == 0.0
  {
    if reports != [] {
      CandidateKinds(reports[..|reports| - 1]);
    }
  }

  /** A reminder about missing limits is never shown while a paying rightsizing is left out. */
  lemma RemindersNeverDisplace(reports: seq<WasteReport>, sorted: seq<Recommendation>, out: Recommendation)
    requires forall r | r in reports :: r.annualCostWasteEur >= 0.0
    requires Sorts(Candidates(reports), sorted) && out.savings > 0.0
    requires multiset(Truncated(sorted))[out] < multiset(Candidates(reports))[out]
    ensures forall r | r in Truncated(sorted) :: r.kind == "rightsizing"
  {
    LeftOutIsWorthLess(Candidates(reports), sorted, out);
    CandidateKinds(reports);
    OnlyTwoKinds(reports);
    TruncatedIsPart(sorted);
    forall r | r in Truncated(sorted) ensures r.kind == "rightsizing" {
      assert r in multiset(Truncated(sorted));
      assert r in multiset(sorted);
      assert r in Candidates(reports);
    }
  }

  lemma {:induction false} OnlyTwoKinds(reports: seq<WasteReport>)
    ensures forall c | c in Candidates(reports) :: c.kind == "rightsizing" || c.kind == "missing_limits"
  {
    if reports != [] {
      OnlyTwoKinds(reports[..|reports| - 1]);
    }
  }

  // ----- what is recommended, by the reports

  /** The recommendation is to resize what the report is about, with the report's own figures. */
  ghost predicate ResizesFor(x: Recommendation, r: WasteReport) {
    && r.isOverprovisioned && x.kind == "rightsizing" && x.priority == r.priority
    && x.title == "Rightsizing " + r.podName + "/" + r.containerName
    && x.advice == Resize(r.cpuRightsizing, r.memRightsizing) && x.savings == r.annualCostWasteEur
    && x.target == r.namespace + "/" + r.podName && x.confidence == r.confidence
  }

  /** It is a reminder that the container of the report has no limits. */
  ghost predicate RemindsOf(x: Recommendation, r: WasteReport) {
    && r.isOverprovisioned && !r.hasLimits && x.kind == "missing_limits" && x.priority == "HIGH"
    && x.title == "Ajouter limits sur " + r.containerName
    && x.advice == AddLimits && x.savings == 0.0
    && x.target == r.namespace + "/" + r.podName && x.confidence == 0.0
  }

  ghost function Resizing(x: Recommendation): WasteReport -> bool {
    (r: WasteReport) => ResizesFor(x, r)
  }

  ghost function Reminding(x: Recommendation): WasteReport -> bool {
    (r: WasteReport) => RemindsOf(x, r)
  }

  ghost function Over(): WasteReport -> bool {
    (r: WasteReport) => r.isOverprovisioned
  }

  ghost function OverWithoutLimits(): WasteReport -> bool {
    (r: WasteReport) => r.isOverprovisioned && !r.hasLimits
  }

  lemma FromOneReport(r: WasteReport, x: Recommendation)
    ensures multiset(CandidatesOf(r))[x] == (if ResizesFor(x, r) then 1 else 0) + if RemindsOf(x, r) then 1 else 0
    ensures |CandidatesOf(r)| == (if Over()(r) then 1 else 0) + if OverWithoutLimits()(r) then 1 else 0
  {
    assert x == Rightsizing(r) && r.isOverprovisioned <==> ResizesFor(x, r);
    assert x == MissingLimits(r) && r.isOverprovisioned && !r.hasLimits <==> RemindsOf(x, r);
  }

  lemma {:induction false} CandidateCopies(reports: seq<WasteReport>, x: Recommendation)
    ensures multiset(Candidates(reports))[x] == Count(reports, Resizing(x)) + Count(reports, Reminding(x))
    ensures |Candidates(reports)| == Count(reports, Over()) + Count(reports, OverWithoutLimits())
  {
    if reports != [] {
      CandidateCopies(reports[..|reports| - 1], x);
      FromOneReport(reports[|reports| - 1], x);
    }
  }

  lemma {:induction false} CountWitness<T>(s: seq<T>, p: T -> bool) returns (x: T)
    requires Count(s, p) > 0
    ensures x in s && p(x)
  {
    x := s[|s| - 1];
    if !p(x) {
      x := CountWitness(s[..|s| - 1], p);
    }
  }

  /** What GenerateRecommendations may return. */
  ghost predicate IsResult(reports: seq<WasteReport>, result: seq<Recommendation>) {
    exists sorted :: Sorts(Candidates(reports), sorted) && result == Truncated(sorted)
  }

  /** Everything that is shown is the resizing of an overprovisioned report or the reminder for one without limits. */
  lemma ShownIsTrue(reports: seq<WasteReport>, result: seq<Recommendation>, x: Recommendation)
    requires IsResult(reports, result) && x in result
    ensures exists r | r in reports :: ResizesFor(x, r) || RemindsOf(x, r)
  {
    var sorted :| Sorts(Candidates(reports), sorted) && result == Truncated(sorted);
    TruncatedIsPart(sorted);
    assert x in multiset(result) && x in multiset(sorted);
    CandidateCopies(reports, x);
    if Count(reports, Resizing(x)) > 0 {
      var r := CountWitness(reports, Resizing(x));
    } else {
      var r := CountWitness(reports, Reminding(x));
    }
  }

  /** While there are at most ten, each overprovisioned report gives its resizing, and its reminder if it needs one. */
  lemma ShortListsAreComplete(reports: seq<WasteReport>, result: seq<Recommendation>, x: Recommendation)
    requires IsResult(reports, result)
    requires Count(reports, Over()) + Count(reports, OverWithoutLimits()) <= 10
    ensures |result| == Count(reports, Over()) + Count(reports, OverWithoutLimits())
    ensures multiset(result)[x] == Count(reports, Resizing(x)) + Count(reports, Reminding(x))
  {
    var sorted :| Sorts(Candidates(reports), sorted) && result == Truncated(sorted);
    CandidateCopies(reports, x);
    assert |sorted| == |multiset(sorted)| == |Candidates(reports)|;
  }

  /** The amounts at stake: the cost of each overprovisioned report, and 0 for each reminder. */
  function Amounts(reports: seq<WasteReport>): multiset<real> {
    if reports == [] then multiset{}
    else
      var r := reports[|reports| - 1];
      Amounts(reports[..|reports| - 1])
      + (if r.isOverprovisioned then multiset{r.annualCostWasteEur} else multiset{})
      + if r.isOverprovisioned && !r.hasLimits then multiset{0.0} else multiset{}
  }

  lemma SavingsAppend(s: seq<Recommendation>, t: seq<Recommendation>)
    ensures SavingsOf(s + t) == SavingsOf(s) + SavingsOf(t)
  {
  }

  lemma {:induction false} CandidateAmounts(reports: seq<WasteReport>)
    ensures multiset(SavingsOf(Candidates(reports))) == Amounts(reports)
  {
    if reports != [] {
      var prefix, r := reports[..|reports| - 1], reports[|reports| - 1];
      CandidateAmounts(prefix);
      SavingsAppend(Candidates(prefix), CandidatesOf(r));
      OneReportAmounts(r);
    }
  }

  lemma OneReportAmounts(r: WasteReport)
    ensures multiset(SavingsOf(CandidatesOf(r)))
         == (if r.isOverprovisioned then multiset{r.annualCostWasteEur} else multiset{})
            + if r.isOverprovisioned && !r.hasLimits then multiset{0.0} else multiset{}
  {
    if r.isOverprovisioned && r.hasLimits {
      assert SavingsOf(CandidatesOf(r)) == [r.annualCostWasteEur];
    } else if r.isOverprovisioned {
      assert SavingsOf(CandidatesOf(r)) == [r.annualCostWasteEur, 0.0];
    }
  }

  ghost predicate Falling(s: seq<real>) {
    forall i, j | 0 <= i < j < |s| :: s[i] >= s[j]
  }

  lemma SavingsPermutation(a: seq<Recommendation>, b: seq<Recommendation>)
    requires multiset(a) == multiset(b)
    ensures multiset(SavingsOf(a)) == multiset(SavingsOf(b))
  {
    MapPermutation(a, b, Savings);
    assert SavingsOf(a) == Map(a, Savings) && SavingsOf(b) == Map(b, Savings);
  }

  lemma FirstSavings(sorted: seq<Recommendation>)
    requires Descending(sorted)
    ensures Falling(SavingsOf(sorted))
    ensures SavingsOf(Truncated(sorted)) == if |sorted| > 10 then SavingsOf(sorted)[..10] else SavingsOf(sorted)
  {
  }

  /** The savings shown are the ten largest of the amounts, in falling order. */
  lemma ShowsTheLargest(reports: seq<WasteReport>, result: seq<Recommendation>) returns (all: seq<real>)
    requires IsResult(reports, result)
    ensures multiset(all) == Amounts(reports) && Falling(all)
    ensures SavingsOf(result) == if |all| > 10 then all[..10] else all
  {
    var sorted :| Sorts(Candidates(reports), sorted) && result == Truncated(sorted);
    all := SavingsOf(sorted);
    CandidateAmounts(reports);
    SavingsPermutation(sorted, Candidates(reports));
    FirstSavings(sorted);
  }
}
