/**
 The three health scores: the agent's analyzer registry
 (agent/internal/analyzers/registry.go), the agent's diagnostics collector
 (agent/internal/diagnostics/collector.go) and the backend's AI diagnostics
 (backend/internal/ai/diagnostics_service.go).
 */
module HealthScore {
  import opened Counting

  /** The fields that the three issue records of the program share. */
  datatype Issue = Issue(
    id: string,
    issueType: string,
    severity: string,
    namespace: string,
    kind: string,
    name: string,
    message: string,
    detectedAt: int)

  function AgentWeight(i: Issue): real {
    match i.severity
    case "critical" => 15.0
    case "warning" => 5.0
    case "info" => 1.0
    case _ => 0.0
  }

  function BackendWeight(i: Issue): real {
    match i.severity
    case "critical" => 20.0
    case "warning" => 8.0
    case _ => 2.0
  }

  ghost function Penalty(issues: seq<Issue>, weight: Issue -> real): real {
    Sum(issues, weight)
  }

  /** What is left of 100 once every issue has been paid for, and never less than 0. */
  ghost function Score(issues: seq<Issue>, weight: Issue -> real): real {
    if Penalty(issues, weight) > 100.0 then 0.0 else 100.0 - Penalty(issues, weight)
  }

  ghost predicate NonNegative(weight: Issue -> real) {
    forall i :: weight(i) >= 0.0
  }

  /** The registry's score. */
  method ComputeScore(issues: seq<Issue>) returns (score: real)
    ensures score == Score(issues, AgentWeight)
  {
    if |issues| == 0 {
      return 100.0;
    }
    var penalty := 0.0;
    for n := 0 to |issues|
      invariant penalty == Penalty(issues[..n], AgentWeight)
    {
      SumPush(issues[..n], issues[n], AgentWeight);
      assert issues[..n + 1] == issues[..n] + [issues[n]];
      match issues[n].severity
      case "critical" => penalty := penalty + 15.0;
      case "warning" => penalty := penalty + 5.0;
      case "info" => penalty := penalty + 1.0;
      case _ =>
    }
    assert issues[..|issues|] == issues;
    var s := 100.0 - penalty;
    if s >= 0.0 {
      return s;
    }
    return 0.0;
  }

  /** The collector's score, from the literal severities. */
  method ComputeHealthScore(issues: seq<Issue>) returns (score: real)
    ensures score == Score(issues, AgentWeight)
  {
    if |issues| == 0 {
      return 100.0;
    }
    var penalty := 0.0;
    for n := 0 to |issues|
      invariant penalty == Penalty(issues[..n], AgentWeight)
    {
      SumPush(issues[..n], issues[n], AgentWeight);
      assert issues[..n + 1] == issues[..n] + [issues[n]];
      if issues[n].severity == "critical" {
        penalty := penalty + 15.0;
      } else if issues[n].severity == "warning" {
        penalty := penalty + 5.0;
      } else if issues[n].severity == "info" {
        penalty := penalty + 1.0;
      }
    }
    assert issues[..|issues|] == issues;
    score := 100.0 - penalty;
    if score < 0.0 {
      score := 0.0;
    }
  }

  /** The backend's score: heavier, and any other severity costs 2. */
  method ComputeHealth(issues: seq<Issue>) returns (score: real)
    ensures score == Score(issues, BackendWeight)
  {
    if |issues| == 0 {
      return 100.0;
    }
    var penalty := 0.0;
    for n := 0 to |issues|
      invariant penalty == Penalty(issues[..n], BackendWeight)
    {
      SumPush(issues[..n], issues[n], BackendWeight);
      assert issues[..n + 1] == issues[..n] + [issues[n]];
      match issues[n].severity
      case "critical" => penalty := penalty + 20.0;
      case "warning" => penalty := penalty + 8.0;
      case _ => penalty := penalty + 2.0;
    }
    assert issues[..|issues|] == issues;
    var s := 100.0 - penalty;
    if s >= 0.0 {
      return s;
    }
    return 0.0;
  }

  lemma {:induction false} PenaltyNonNegative(issues: seq<Issue>, weight: Issue -> real)
    requires NonNegative(weight)
    ensures Penalty(issues, weight) >= 0.0
  {
    if issues != [] {
      PenaltyNonNegative(issues[1..], weight);
    }
  }

  /** The score does not depend on the order in which issues were collected. */
  lemma ScorePermutation(a: seq<Issue>, b: seq<Issue>, weight: Issue -> real)
    requires multiset(a) == multiset(b)
    ensures Score(a, weight) == Score(b, weight)
  {
    SumPermutation(a, b, weight);
  }

  /** Scores of two collections combine to the score of both, in every one of the three systems. */
  lemma ScoreOfBoth(a: seq<Issue>, b: seq<Issue>, weight: Issue -> real)
    requires NonNegative(weight)
    ensures var s := Score(a, weight) + Score(b, weight) - 100.0;
            Score(a + b, weight) == if s < 0.0 then 0.0 else s
  {
    SumAppend(a, b, weight);
    PenaltyNonNegative(a, weight);
    PenaltyNonNegative(b, weight);
  }

  /** The backend never scores a cluster better than the agent does. */
  lemma BackendNeverAboveAgent(issues: seq<Issue>)
    ensures 0.0 <= Score(issues, BackendWeight) <= Score(issues, AgentWeight) <= 100.0
  {
    SumMono(issues, AgentWeight, BackendWeight);
    PenaltyNonNegative(issues, AgentWeight);
  }

  ghost function OfSeverity(severity: string): Issue -> bool {
    (i: Issue) => i.severity == severity
  }

  ghost function Number(issues: seq<Issue>, severity: string): nat {
    Count(issues, OfSeverity(severity))
  }

  lemma {:induction false} AgentPenalty(issues: seq<Issue>)
    ensures Penalty(issues, AgentWeight)
         == 15.0 * Number(issues, "critical") as real + 5.0 * Number(issues, "warning") as real
            + Number(issues, "info") as real
  {
    if issues != [] {
      var prefix, i := issues[..|issues| - 1], issues[|issues| - 1];
      AgentPenalty(prefix);
      SumPush(prefix, i, AgentWeight);
      assert issues == prefix + [i];
      SeveritiesDiffer();
    }
  }

  lemma SeveritiesDiffer()
    ensures "critical" != "warning" && "critical" != "info" && "warning" != "info"
  {
    assert |"critical"| == 8 && |"warning"| == 7 && |"info"| == 4;
  }

  lemma {:induction false} BackendPenalty(issues: seq<Issue>)
    ensures Penalty(issues, BackendWeight)
         == 2.0 * |issues| as real + 18.0 * Number(issues, "critical") as real + 6.0 * Number(issues, "warning") as real
  {
    if issues != [] {
      var prefix, i := issues[..|issues| - 1], issues[|issues| - 1];
      BackendPenalty(prefix);
      SumPush(prefix, i, BackendWeight);
      assert issues == prefix + [i];
      SeveritiesDiffer();
    }
  }

  /** The agents' score, by how many issues of each severity there are; other severities cost nothing. */
  lemma AgentScoreCounts(issues: seq<Issue>)
    ensures var s := 100 - 15 * Number(issues, "critical") - 5 * Number(issues, "warning") - Number(issues, "info");
            Score(issues, AgentWeight) == if s < 0 then 0.0 else s as real
  {
    AgentPenalty(issues);
  }

  /** The backend's: 20 for a critical issue, 8 for a warning and 2 for any other one. */
  lemma BackendScoreCounts(issues: seq<Issue>)
    ensures var s := 100 - 20 * Number(issues, "critical") - 8 * Number(issues, "warning")
                     - 2 * (|issues| - Number(issues, "critical") - Number(issues, "warning"));
            Score(issues, BackendWeight) == if s < 0 then 0.0 else s as real
  {
    BackendPenalty(issues);
  }
}
