/**
 Ingesting agent snapshots: the metric rows are appended, the cluster's unresolved issues are
 deleted, and the issues of the new snapshot are inserted
 (backend/internal/api/handlers/metrics.go). Every statement is taken to succeed; row ids and
 timestamps are not part of the rows.
 */
module Ingest {
  import opened Counting

  datatype AgentPod = AgentPod(
    podName: string,
    containerName: string,
    namespace: string,
    nodeName: string,
    cpuRequestM: real,
    cpuLimitM: real,
    memRequestMi: real,
    memLimitMi: real,
    hasLimits: bool,
    restartCount: int)

  datatype Snapshot = Snapshot(clusterId: string, pods: seq<AgentPod>)

  datatype MetricRow = MetricRow(clusterId: string, pod: AgentPod)

  /** What the formatted message and details are built from. */
  datatype Detail = NoLimits | Restarts(count: int) | LimitRatio(ratio: real, request: real, limit: real)

  datatype IssueRow = IssueRow(
    clusterId: string,
    issueType: string,
    severity: string,
    namespace: string,
    resourceName: string,
    detail: Detail,
    resolved: bool)

  function LimitsIssue(cluster: string, p: AgentPod): seq<IssueRow> {
    if !p.hasLimits
    then [IssueRow(cluster, "MissingLimits", "warning", p.namespace, p.podName, NoLimits, false)]
    else []
  }

  function RestartIssue(cluster: string, p: AgentPod): seq<IssueRow> {
    if p.restartCount >= 5
    then [IssueRow(cluster, "HighRestarts", if p.restartCount >= 10 then "critical" else "warning",
                   p.namespace, p.podName, Restarts(p.restartCount), false)]
    else []
  }

  function OversizedIssue(cluster: string, p: AgentPod): seq<IssueRow> {
    if p.cpuRequestM > 1000.0 && p.cpuLimitM > 0.0 && p.cpuLimitM / p.cpuRequestM > 4.0
    then [IssueRow(cluster, "Oversized", "info", p.namespace, p.podName,
                   LimitRatio(p.cpuLimitM / p.cpuRequestM, p.cpuRequestM, p.cpuLimitM), false)]
    else []
  }

  function IssuesOf(cluster: string, p: AgentPod): seq<IssueRow> {
    LimitsIssue(cluster, p) + RestartIssue(cluster, p) + OversizedIssue(cluster, p)
  }

  /** The issues that a list of pods gives rise to. */
  function Derived(cluster: string, pods: seq<AgentPod>): seq<IssueRow> {
    if pods == [] then []
    else
      var p := pods[|pods| - 1];
      Derived(cluster, pods[..|pods| - 1]) + IssuesOf(cluster, p)
  }

  lemma DerivedNext(cluster: string, pods: seq<AgentPod>, n: nat)
    requires n < |pods|
    ensures Derived(cluster, pods[..n + 1]) == Derived(cluster, pods[..n]) + IssuesOf(cluster, pods[n])
  {
    assert pods[..n + 1][..n] == pods[..n];
  }

  predicate Open(row: IssueRow, cluster: string) {
    row.clusterId == cluster && !row.resolved
  }

  /** The open issues of a cluster, and all other rows. */
  function OpenIssues(rows: seq<IssueRow>, cluster: string): seq<IssueRow> {
    if rows == [] then []
    else OpenIssues(rows[..|rows| - 1], cluster) + if Open(rows[|rows| - 1], cluster) then [rows[|rows| - 1]] else []
  }

  function OtherIssues(rows: seq<IssueRow>, cluster: string): seq<IssueRow> {
    if rows == [] then []
    else OtherIssues(rows[..|rows| - 1], cluster) + if Open(rows[|rows| - 1], cluster) then [] else [rows[|rows| - 1]]
  }

  function MetricRows(snap: Snapshot): seq<MetricRow> {
    seq(|snap.pods|, i requires 0 <= i < |snap.pods| => MetricRow(snap.clusterId, snap.pods[i]))
  }

  /** The issue table after one ingest. */
  function IssuesAfter(rows: seq<IssueRow>, snap: Snapshot): seq<IssueRow> {
    OtherIssues(rows, snap.clusterId) + Derived(snap.clusterId, snap.pods)
  }

  class Database {
    var metrics: seq<MetricRow>
    var issues: seq<IssueRow>
    var lastSeen: set<string>

    constructor ()
      ensures metrics == [] && issues == [] && lastSeen == {}
    {
      metrics, issues, lastSeen := [], [], {};
    }

    /** DELETE of the cluster's rows that are not resolved. */
    method DeleteOpen(cluster: string)
      modifies this`issues
      ensures issues == OtherIssues(old(issues), cluster)
    {
      var kept: seq<IssueRow> := [];
      for n := 0 to |issues|
        invariant kept == OtherIssues(issues[..n], cluster)
        invariant issues == old(issues)
      {
        assert issues[..n + 1][..n] == issues[..n];
        if !Open(issues[n], cluster) {
          kept := kept + [issues[n]];
        }
      }
      assert issues[..|issues|] == issues;
      issues := kept;
    }

    /** The inserts for one pod; returns how many there were. */
    method InsertIssues(cluster: string, pod: AgentPod) returns (count: nat)
      modifies this`issues
      ensures issues == old(issues) + IssuesOf(cluster, pod) && count == |IssuesOf(cluster, pod)|
    {
      count := 0;
      if !pod.hasLimits {
        issues := issues + [IssueRow(cluster, "MissingLimits", "warning", pod.namespace, pod.podName, NoLimits, false)];
        count := count + 1;
      }
      if pod.restartCount >= 5 {
        var severity := "warning";
        if pod.restartCount >= 10 {
          severity := "critical";
        }
        issues := issues + [IssueRow(cluster, "HighRestarts", severity, pod.namespace, pod.podName,
                                     Restarts(pod.restartCount), false)];
        count := count + 1;
      }
      if pod.cpuRequestM > 1000.0 && pod.cpuLimitM > 0.0 {
        var ratio := pod.cpuLimitM / pod.cpuRequestM;
        if ratio > 4.0 {
          issues := issues + [IssueRow(cluster, "Oversized", "info", pod.namespace, pod.podName,
                                       LimitRatio(ratio, pod.cpuRequestM, pod.cpuLimitM), false)];
          count := count + 1;
        }
      }
    }

    method StoreMetrics(snap: Snapshot)
      modifies this`metrics
      ensures metrics == old(metrics) + MetricRows(snap)
    {
      for n := 0 to |snap.pods|
        invariant metrics == old(metrics) + MetricRows(snap)[..n]
      {
        metrics := metrics + [MetricRow(snap.clusterId, snap.pods[n])];
      }
    }

    method InsertAllIssues(cluster: string, pods: seq<AgentPod>) returns (issueCount: nat)
      modifies this`issues
      ensures issues == old(issues) + Derived(cluster, pods) && issueCount == |Derived(cluster, pods)|
    {
      issueCount := 0;
      ghost var found: seq<IssueRow> := [];
      for n := 0 to |pods|
        invariant found == Derived(cluster, pods[..n])
        invariant issues == old(issues) + found && issueCount == |found|
      {
        DerivedNext(cluster, pods, n);
        var count := InsertIssues(cluster, pods[n]);
        issueCount := issueCount + count;
        AppendAssociates(old(issues), found, IssuesOf(cluster, pods[n]));
        found := found + IssuesOf(cluster, pods[n]);
      }
      assert pods[..|pods|] == pods;
    }

    /** Returns issues_found. */
    method IngestMetrics(snap: Snapshot) returns (issueCount: nat)
      modifies this
      ensures metrics == old(metrics) + MetricRows(snap)
      ensures |metrics| == old(|metrics|) + |snap.pods|
      ensures forall i | 0 <= i < |snap.pods| ::
                metrics[old(|metrics|) + i] == MetricRow(snap.clusterId, snap.pods[i])
      ensures issues == IssuesAfter(old(issues), snap)
      ensures issueCount == |Derived(snap.clusterId, snap.pods)| == Wrongs(snap.pods)
      ensures lastSeen == old(lastSeen) + {snap.clusterId}
    {
      IssuesAreCounted(snap.clusterId, snap.pods);
      StoreMetrics(snap);
      DeleteOpen(snap.clusterId);
      issueCount := InsertAllIssues(snap.clusterId, snap.pods);
      lastSeen := lastSeen + {snap.clusterId};
    }
  }

  // ----- main results

  lemma {:induction false} OpenAppend(a: seq<IssueRow>, b: seq<IssueRow>, cluster: string)
    ensures OpenIssues(a + b, cluster) == OpenIssues(a, cluster) + OpenIssues(b, cluster)
    ensures OtherIssues(a + b, cluster) == OtherIssues(a, cluster) + OtherIssues(b, cluster)
  {
    if b == [] {
      assert a + b == a;
    } else {
      var b' := b[..|b| - 1];
      assert (a + b)[..|a + b| - 1] == a + b';
      OpenAppend(a, b', cluster);
    }
  }

  lemma {:induction false} OthersHaveNoOpen(rows: seq<IssueRow>, cluster: string)
    ensures OpenIssues(OtherIssues(rows, cluster), cluster) == []
    ensures OtherIssues(OtherIssues(rows, cluster), cluster) == OtherIssues(rows, cluster)
  {
    if rows != [] {
      var prefix, last := rows[..|rows| - 1], rows[|rows| - 1];
      OthersHaveNoOpen(prefix, cluster);
      OpenAppend(OtherIssues(prefix, cluster), if Open(last, cluster) then [] else [last], cluster);
    }
  }

  lemma {:induction false} OpenElsewhereKept(rows: seq<IssueRow>, cluster: string, other: string)
    requires cluster != other
    ensures OpenIssues(OtherIssues(rows, cluster), other) == OpenIssues(rows, other)
  {
    if rows != [] {
      var prefix, last := rows[..|rows| - 1], rows[|rows| - 1];
      OpenElsewhereKept(prefix, cluster, other);
      OpenAppend(OtherIssues(prefix, cluster), if Open(last, cluster) then [] else [last], other);
    }
  }

  lemma {:induction false} DerivedAllOpen(cluster: string, pods: seq<AgentPod>)
    ensures forall row | row in Derived(cluster, pods) :: Open(row, cluster)
    ensures |Derived(cluster, pods)| <= 3 * |pods|
  {
    if pods != [] {
      DerivedAllOpen(cluster, pods[..|pods| - 1]);
    }
  }

  lemma DerivedIsOpen(cluster: string, pods: seq<AgentPod>, other: string)
    ensures forall row | row in Derived(cluster, pods) :: Open(row, cluster)
    ensures OpenIssues(Derived(cluster, pods), cluster) == Derived(cluster, pods)
    ensures OtherIssues(Derived(cluster, pods), cluster) == []
    ensures cluster != other ==> OpenIssues(Derived(cluster, pods), other) == []
    ensures |Derived(cluster, pods)| <= 3 * |pods|
  {
    DerivedAllOpen(cluster, pods);
    AllOpen(Derived(cluster, pods), cluster, other);
  }

  lemma {:induction false} AllOpen(rows: seq<IssueRow>, cluster: string, other: string)
    requires forall row | row in rows :: Open(row, cluster)
    ensures OpenIssues(rows, cluster) == rows && OtherIssues(rows, cluster) == []
    ensures cluster != other ==> OpenIssues(rows, other) == []
  {
    if rows != [] {
      AllOpen(rows[..|rows| - 1], cluster, other);
      assert rows == rows[..|rows| - 1] + [rows[|rows| - 1]];
    }
  }

  /**
   One ingest replaces the cluster's open issues by those of the snapshot, at most three per pod,
   and touches neither resolved rows nor any other cluster's.
   */
  lemma IngestReplacesOpenIssues(rows: seq<IssueRow>, snap: Snapshot, other: string)
    ensures var after := IssuesAfter(rows, snap);
            && OpenIssues(after, snap.clusterId) == Derived(snap.clusterId, snap.pods)
            && |OpenIssues(after, snap.clusterId)| <= 3 * |snap.pods|
            && OtherIssues(after, snap.clusterId) == OtherIssues(rows, snap.clusterId)
            && (other != snap.clusterId ==> OpenIssues(after, other) == OpenIssues(rows, other))
  {
    var c := snap.clusterId;
    DerivedIsOpen(c, snap.pods, other);
    OpenAppend(OtherIssues(rows, c), Derived(c, snap.pods), c);
    OpenAppend(OtherIssues(rows, c), Derived(c, snap.pods), other);
    OthersHaveNoOpen(rows, c);
    if other != c {
      OpenElsewhereKept(rows, c, other);
    }
  }

  /** What the row says is wrong with the pod, and that it is. */
  ghost predicate Describes(row: IssueRow, p: AgentPod) {
    && row.namespace == p.namespace && row.resourceName == p.podName && !row.resolved
    && match row.issueType
       case "MissingLimits" => !p.hasLimits && row.severity == "warning" && row.detail == NoLimits
       case "HighRestarts" =>
         && p.restartCount >= 5 && row.severity == (if p.restartCount < 10 then "warning" else "critical")
         && row.detail == Restarts(p.restartCount)
       case "Oversized" =>
         && p.cpuRequestM > 1000.0 && p.cpuLimitM > 4.0 * p.cpuRequestM && row.severity == "info"
         && row.detail == LimitRatio(p.cpuLimitM / p.cpuRequestM, p.cpuRequestM, p.cpuLimitM)
       case _ => false
  }

  lemma RatioAboveFour(request: real, limit: real)
    requires request > 0.0
    ensures limit / request > 4.0 <==> limit > 4.0 * request
  {
    var q := limit / request;
    assert q * request == limit;
    if q > 4.0 {
      assert (q - 4.0) * request > 0.0;
    } else {
      assert (4.0 - q) * request >= 0.0;
    }
  }

  lemma PodIssues(cluster: string, p: AgentPod, row: IssueRow)
    ensures row in IssuesOf(cluster, p) <==> row.clusterId == cluster && Describes(row, p)
  {
    if p.cpuRequestM > 1000.0 {
      RatioAboveFour(p.cpuRequestM, p.cpuLimitM);
    }
    assert row in IssuesOf(cluster, p)
      <==> row in LimitsIssue(cluster, p) || row in RestartIssue(cluster, p) || row in OversizedIssue(cluster, p);
  }

  lemma {:induction false} DerivedRows(cluster: string, pods: seq<AgentPod>, row: IssueRow)
    ensures row in Derived(cluster, pods) <==> exists p | p in pods :: row.clusterId == cluster && Describes(row, p)
  {
    if pods != [] {
      var prefix, last := pods[..|pods| - 1], pods[|pods| - 1];
      DerivedRows(cluster, prefix, row);
      PodIssues(cluster, last, row);
      assert pods == prefix + [last];
    }
  }

  lemma {:induction false} OpenMembers(rows: seq<IssueRow>, cluster: string, row: IssueRow)
    ensures row in OpenIssues(rows, cluster) <==> row in rows && Open(row, cluster)
  {
    if rows != [] {
      var prefix, last := rows[..|rows| - 1], rows[|rows| - 1];
      OpenMembers(prefix, cluster, row);
      assert rows == prefix + [last];
    }
  }

  /**
   After an ingest the cluster's open rows are exactly the true descriptions of the snapshot's pods:
   no limits; five restarts or more, critical from ten on; a CPU limit above four times a request
   above 1000m.
   */
  lemma OpenRowsDescribePods(rows: seq<IssueRow>, snap: Snapshot, row: IssueRow)
    ensures row in IssuesAfter(rows, snap) && row.clusterId == snap.clusterId && !row.resolved
       <==> row.clusterId == snap.clusterId && exists p | p in snap.pods :: Describes(row, p)
  {
    IngestReplacesOpenIssues(rows, snap, snap.clusterId);
    OpenMembers(IssuesAfter(rows, snap), snap.clusterId, row);
    DerivedRows(snap.clusterId, snap.pods, row);
  }

  ghost predicate IsOversized(p: AgentPod) {
    p.cpuRequestM > 1000.0 && p.cpuLimitM > 4.0 * p.cpuRequestM
  }

  /** How many of the three things are wrong with the pods, counted with their pods. */
  ghost function Wrongs(pods: seq<AgentPod>): nat {
    Count(pods, (p: AgentPod) => !p.hasLimits) + Count(pods, (p: AgentPod) => p.restartCount >= 5)
    + Count(pods, (p: AgentPod) => IsOversized(p))
  }

  lemma {:induction false} IssuesAreCounted(cluster: string, pods: seq<AgentPod>)
    ensures |Derived(cluster, pods)| == Wrongs(pods)
  {
    if pods != [] {
      var p := pods[|pods| - 1];
      IssuesAreCounted(cluster, pods[..|pods| - 1]);
      if p.cpuRequestM > 1000.0 {
        RatioAboveFour(p.cpuRequestM, p.cpuLimitM);
      }
    }
  }

  /** Ingesting the same snapshot again changes nothing in the issue table. */
  lemma IngestIsIdempotent(rows: seq<IssueRow>, snap: Snapshot)
    ensures IssuesAfter(IssuesAfter(rows, snap), snap) == IssuesAfter(rows, snap)
  {
    IngestReplacesOpenIssues(rows, snap, snap.clusterId);
  }

  function IngestAll(rows: seq<IssueRow>, snaps: seq<Snapshot>): seq<IssueRow> {
    if snaps == [] then rows
    else IssuesAfter(IngestAll(rows, snaps[..|snaps| - 1]), snaps[|snaps| - 1])
  }

  /** The open issues a history of ingests should leave: those of the cluster's last snapshot. */
  function Expected(rows: seq<IssueRow>, snaps: seq<Snapshot>, cluster: string): seq<IssueRow> {
    if snaps == [] then OpenIssues(rows, cluster)
    else
      var last := snaps[|snaps| - 1];
      if last.clusterId == cluster then Derived(cluster, last.pods)
      else Expected(rows, snaps[..|snaps| - 1], cluster)
  }

  function Resolved(rows: seq<IssueRow>): seq<IssueRow> {
    if rows == [] then []
    else Resolved(rows[..|rows| - 1]) + if rows[|rows| - 1].resolved then [rows[|rows| - 1]] else []
  }

  /** After any serial history over any clusters, each cluster shows its last snapshot's issues. */
  lemma {:induction false} OpenIssuesFollowLastSnapshot(rows: seq<IssueRow>, snaps: seq<Snapshot>, cluster: string)
    ensures OpenIssues(IngestAll(rows, snaps), cluster) == Expected(rows, snaps, cluster)
  {
    if snaps != [] {
      var prefix, last := snaps[..|snaps| - 1], snaps[|snaps| - 1];
      OpenIssuesFollowLastSnapshot(rows, prefix, cluster);
      IngestReplacesOpenIssues(IngestAll(rows, prefix), last, cluster);
    }
  }

  lemma {:induction false} ResolvedAppend(a: seq<IssueRow>, b: seq<IssueRow>)
    ensures Resolved(a + b) == Resolved(a) + Resolved(b)
  {
    if b == [] {
      assert a + b == a;
    } else {
      var b' := b[..|b| - 1];
      assert (a + b)[..|a + b| - 1] == a + b';
      ResolvedAppend(a, b');
    }
  }

  lemma {:induction false} ResolvedKept(rows: seq<IssueRow>, cluster: string)
    ensures Resolved(OtherIssues(rows, cluster)) == Resolved(rows)
  {
    if rows != [] {
      var prefix, last := rows[..|rows| - 1], rows[|rows| - 1];
      ResolvedKept(prefix, cluster);
      ResolvedAppend(OtherIssues(prefix, cluster), if Open(last, cluster) then [] else [last]);
    }
  }

  lemma {:induction false} NoneResolved(rows: seq<IssueRow>)
    requires forall row | row in rows :: !row.resolved
    ensures Resolved(rows) == []
  {
    if rows != [] {
      NoneResolved(rows[..|rows| - 1]);
    }
  }

  /** No history of ingests ever touches a resolved row. */
  lemma {:induction false} ResolvedRowsSurvive(rows: seq<IssueRow>, snaps: seq<Snapshot>)
    ensures Resolved(IngestAll(rows, snaps)) == Resolved(rows)
  {
    if snaps != [] {
      var prefix, last := snaps[..|snaps| - 1], snaps[|snaps| - 1];
      var before := IngestAll(rows, prefix);
      ResolvedRowsSurvive(rows, prefix);
      ResolvedKept(before, last.clusterId);
      DerivedIsOpen(last.clusterId, last.pods, last.clusterId);
      NoneResolved(Derived(last.clusterId, last.pods));
      ResolvedAppend(OtherIssues(before, last.clusterId), Derived(last.clusterId, last.pods));
    }
  }

  // ----- ingests that overlap

  /** A call of the handler: whether its DELETE ran, and how many of its issues are inserted. */
  datatype Call = Call(snap: Snapshot, deleted: bool, inserted: nat) {
    function Issues(): seq<IssueRow> {
      Derived(snap.clusterId, snap.pods)
    }

    predicate Complete() {
      deleted && inserted == |Issues()|
    }
  }

  /** A statement on the issue table, by the number of the call it belongs to. */
  datatype Event = Deleted(call: nat, cluster: string) | Inserted(call: nat, row: IssueRow)

  /** log holds the statements in the order in which the database ran them. */
  datatype State = State(issues: seq<IssueRow>, calls: seq<Call>, log: seq<Event>)

  datatype Action = Start(snap: Snapshot) | Delete(i: nat) | Insert(i: nat)

  predicate Enabled(s: State, a: Action) {
    match a
    case Start(_) => true
    case Delete(i) => i < |s.calls| && !s.calls[i].deleted
    case Insert(i) => i < |s.calls| && s.calls[i].deleted && s.calls[i].inserted < |s.calls[i].Issues()|
  }

  function Apply(s: State, a: Action): State
    requires Enabled(s, a)
  {
    match a
    case Start(snap) => s.(calls := s.calls + [Call(snap, false, 0)])
    case Delete(i) =>
      var c := s.calls[i];
      State(OtherIssues(s.issues, c.snap.clusterId), s.calls[i := c.(deleted := true)],
            s.log + [Deleted(i, c.snap.clusterId)])
    case Insert(i) =>
      var c := s.calls[i];
      var row := c.Issues()[c.inserted];
      State(s.issues + [row], s.calls[i := c.(inserted := c.inserted + 1)], s.log + [Inserted(i, row)])
  }

  ghost predicate ValidRun(s: State, acts: seq<Action>)
    decreases |acts|
  {
    acts == [] || (Enabled(s, acts[0]) && ValidRun(Apply(s, acts[0]), acts[1..]))
  }

  ghost function Final(s: State, acts: seq<Action>): State
    requires ValidRun(s, acts)
    decreases |acts|
  {
    if acts == [] then s else Final(Apply(s, acts[0]), acts[1..])
  }

  function Init(rows: seq<IssueRow>): State {
    State(rows, [], [])
  }

  /** The rows inserted by the statements that p selects, in order. */
  ghost function Rows(log: seq<Event>, p: Event -> bool): seq<IssueRow> {
    if log == [] then []
    else
      var e := log[|log| - 1];
      Rows(log[..|log| - 1], p) + if e.Inserted? && p(e) then [e.row] else []
  }

  ghost function For(cluster: string): Event -> bool {
    (e: Event) => e.Inserted? && e.row.clusterId == cluster
  }

  ghost function ByCall(i: nat): Event -> bool {
    (e: Event) => e.call == i
  }

  /** Inserts for the cluster by other calls than i. */
  ghost function ByOthers(cluster: string, i: nat): Event -> bool {
    (e: Event) => e.Inserted? && e.row.clusterId == cluster && e.call != i
  }

  lemma {:induction false} RowsPush(log: seq<Event>, e: Event, p: Event -> bool)
    ensures Rows(log + [e], p) == Rows(log, p) + if e.Inserted? && p(e) then [e.row] else []
  {
    assert (log + [e])[..|log|] == log;
  }

  lemma {:induction false} RowsAppend(a: seq<Event>, b: seq<Event>, p: Event -> bool)
    ensures Rows(a + b, p) == Rows(a, p) + Rows(b, p)
  {
    if b == [] {
      assert a + b == a;
    } else {
      var b', e := b[..|b| - 1], b[|b| - 1];
      assert a + b == (a + b') + [e];
      RowsPush(a + b', e, p);
      RowsAppend(a, b', p);
    }
  }

  lemma {:induction false} NoRows(log: seq<Event>, p: Event -> bool)
    ensures Rows(log, p) == [] <==> forall e | e in log :: !(e.Inserted? && p(e))
  {
    if log != [] {
      var log', e := log[..|log| - 1], log[|log| - 1];
      NoRows(log', p);
      assert log == log' + [e];
    }
  }

  lemma {:induction false} DeletePush(log: seq<Event>, e: Event, p: Event -> bool)
    requires e.Deleted?
    ensures Rows(log + [e], p) == Rows(log, p)
  {
    RowsPush(log, e, p);
  }

  lemma {:induction false} AroundDelete(log: seq<Event>, d: nat, p: Event -> bool)
    requires d < |log| && log[d].Deleted?
    ensures Rows(log, p) == Rows(log[..d], p) + Rows(log[d + 1..], p)
  {
    var front, after := log[..d], log[d + 1..];
    DeletePush(front, log[d], p);
    RowsAppend(front + [log[d]], after, p);
    assert log == (front + [log[d]]) + after;
  }

  /** If p selects nothing up to the DELETE at d, it selects its rows after it. */
  lemma {:induction false} RowsAfter(log: seq<Event>, d: nat, p: Event -> bool)
    requires d < |log| && log[d].Deleted? && Rows(log[..d], p) == []
    ensures Rows(log[d + 1..], p) == Rows(log, p)
  {
    AroundDelete(log, d, p);
    EmptyAppend(Rows(log[d + 1..], p));
  }

  /** A cluster's inserts are those of one call and those of the others. */
  lemma {:induction false} RowsSplit(log: seq<Event>, cluster: string, i: nat)
    requires forall e | e in log && e.Inserted? && e.call == i :: e.row.clusterId == cluster
    ensures multiset(Rows(log, For(cluster)))
         == multiset(Rows(log, ByCall(i))) + multiset(Rows(log, ByOthers(cluster, i)))
  {
    if log != [] {
      var log', e := log[..|log| - 1], log[|log| - 1];
      RowsSplit(log', cluster, i);
      assert e in log;
      var all, own, late := Rows(log', For(cluster)), Rows(log', ByCall(i)), Rows(log', ByOthers(cluster, i));
      if e.Inserted? && e.row.clusterId == cluster {
        assert multiset(all + [e.row]) == multiset(all) + multiset{e.row};
        assert multiset(own + [e.row]) == multiset(own) + multiset{e.row};
        assert multiset(late + [e.row]) == multiset(late) + multiset{e.row};
      }
    }
  }

  lemma {:induction false} OnlyOwnRows(log: seq<Event>, cluster: string, i: nat)
    requires forall e | e in log && e.Inserted? :: e.row.clusterId == cluster <==> e.call == i
    ensures Rows(log, For(cluster)) == Rows(log, ByCall(i))
  {
    if log != [] {
      OnlyOwnRows(log[..|log| - 1], cluster, i);
      assert log[|log| - 1] in log;
    }
  }

  /** The open issues by the log: what was open at first, emptied by each DELETE, extended by each insert. */
  ghost function Since(rows: seq<IssueRow>, log: seq<Event>, cluster: string): seq<IssueRow> {
    if log == [] then OpenIssues(rows, cluster)
    else
      var e, before := log[|log| - 1], Since(rows, log[..|log| - 1], cluster);
      if e.Deleted? then (if e.cluster == cluster then [] else before)
      else before + if e.row.clusterId == cluster then [e.row] else []
  }

  ghost predicate NoDelete(log: seq<Event>, cluster: string, from: nat) {
    forall n | from <= n < |log| :: !(log[n].Deleted? && log[n].cluster == cluster)
  }

  /** Statement d is the last DELETE for the cluster. */
  ghost predicate IsLastDelete(log: seq<Event>, cluster: string, d: nat) {
    d < |log| && log[d].Deleted? && log[d].cluster == cluster && NoDelete(log, cluster, d + 1)
  }

  lemma {:induction false} SinceStart(rows: seq<IssueRow>, log: seq<Event>, cluster: string)
    requires NoDelete(log, cluster, 0)
    ensures Since(rows, log, cluster) == OpenIssues(rows, cluster) + Rows(log, For(cluster))
  {
    if log != [] {
      SinceStart(rows, log[..|log| - 1], cluster);
    }
  }

  lemma {:induction false} SinceLastDelete(rows: seq<IssueRow>, log: seq<Event>, cluster: string, d: nat)
    requires IsLastDelete(log, cluster, d)
    ensures Since(rows, log, cluster) == Rows(log[d + 1..], For(cluster))
  {
    if d + 1 < |log| {
      var log' := log[..|log| - 1];
      SinceLastDelete(rows, log', cluster, d);
      assert log[d + 1..] == log'[d + 1..] + [log[|log| - 1]];
      RowsPush(log'[d + 1..], log[|log| - 1], For(cluster));
    }
  }

  ghost predicate EventOk(s: State, e: Event) {
    && e.call < |s.calls| && s.calls[e.call].deleted
    && match e
       case Deleted(i, cluster) => cluster == s.calls[i].snap.clusterId
       case Inserted(i, row) => Open(row, s.calls[i].snap.clusterId)
  }

  ghost predicate CallOk(s: State, i: nat)
    requires i < |s.calls|
  {
    var c := s.calls[i];
    && c.inserted <= |c.Issues()|
    && Rows(s.log, ByCall(i)) == c.Issues()[..c.inserted]
    && (!c.deleted ==> c.inserted == 0)
    && (c.deleted ==> Deleted(i, c.snap.clusterId) in s.log)
  }

  ghost predicate Inv(rows: seq<IssueRow>, s: State) {
    && (forall e | e in s.log :: EventOk(s, e))
    && (forall i | 0 <= i < |s.calls| :: CallOk(s, i))
    && (forall d | 0 <= d < |s.log| && s.log[d].Deleted? :: Rows(s.log[..d], ByCall(s.log[d].call)) == [])
    && (forall cluster :: OpenIssues(s.issues, cluster) == Since(rows, s.log, cluster))
    && Resolved(s.issues) == Resolved(rows)
  }

  lemma InvStart(rows: seq<IssueRow>, s: State, a: Action)
    requires Inv(rows, s) && a.Start?
    ensures Inv(rows, Apply(s, a))
  {
    var s' := Apply(s, a);
    forall e | e in s'.log ensures EventOk(s', e) {
      assert EventOk(s, e);
    }
    forall i | 0 <= i < |s'.calls| ensures CallOk(s', i) {
      if i < |s.calls| {
        assert CallOk(s, i);
      } else {
        forall e | e in s.log ensures !ByCall(i)(e) {
          assert EventOk(s, e);
        }
        NoRows(s.log, ByCall(i));
      }
    }
  }

  /** One statement of call i extends the log by e. */
  ghost predicate Statement(s: State, s': State, i: nat, e: Event) {
    && i < |s.calls| && e.call == i && s'.log == s.log + [e]
    && |s'.calls| == |s.calls| && s'.calls == s.calls[i := s'.calls[i]]
    && s'.calls[i].snap == s.calls[i].snap && s'.calls[i].deleted
  }

  lemma EventsStep(rows: seq<IssueRow>, s: State, s': State, i: nat, e: Event)
    requires Inv(rows, s) && Statement(s, s', i, e) && EventOk(s', e)
    ensures forall f | f in s'.log :: EventOk(s', f)
  {
    forall f | f in s'.log ensures EventOk(s', f) {
      assert f == e || EventOk(s, f);
    }
  }

  lemma CallsStep(rows: seq<IssueRow>, s: State, s': State, i: nat, e: Event)
    requires Inv(rows, s) && Statement(s, s', i, e) && CallOk(s', i)
    ensures forall j | 0 <= j < |s'.calls| :: CallOk(s', j)
  {
    forall j | 0 <= j < |s'.calls| ensures CallOk(s', j) {
      if j != i {
        assert CallOk(s, j);
        OtherRowsKept(s.log, e, j);
        assert s'.log[..|s.log|] == s.log;
      }
    }
  }

  lemma {:induction false} OtherRowsKept(log: seq<Event>, e: Event, j: nat)
    requires e.call != j
    ensures Rows(log + [e], ByCall(j)) == Rows(log, ByCall(j))
  {
    RowsPush(log, e, ByCall(j));
  }

  lemma NothingYet(rows: seq<IssueRow>, s: State, i: nat)
    requires Inv(rows, s) && i < |s.calls| && !s.calls[i].deleted
    ensures Rows(s.log, ByCall(i)) == []
  {
    assert CallOk(s, i);
  }

  lemma {:induction false} DeletesStep(rows: seq<IssueRow>, s: State, s': State, i: nat, e: Event)
    requires Inv(rows, s) && Statement(s, s', i, e)
    requires e.Deleted? ==> !s.calls[i].deleted
    ensures forall d | 0 <= d < |s'.log| && s'.log[d].Deleted? :: Rows(s'.log[..d], ByCall(s'.log[d].call)) == []
  {
    forall d | 0 <= d < |s'.log| && s'.log[d].Deleted? ensures Rows(s'.log[..d], ByCall(s'.log[d].call)) == [] {
      TakePushed(s.log, e, d);
      if d == |s.log| {
        NothingYet(rows, s, i);
        TakeAll(s.log, d);
      }
    }
  }

  lemma SinceDelete(rows: seq<IssueRow>, s: State, i: nat, cluster: string)
    requires Inv(rows, s) && Enabled(s, Delete(i))
    ensures var s' := Apply(s, Delete(i)); OpenIssues(s'.issues, cluster) == Since(rows, s'.log, cluster)
  {
    var s', c := Apply(s, Delete(i)), s.calls[i].snap.clusterId;
    assert s'.log[..|s'.log| - 1] == s.log;
    OthersHaveNoOpen(s.issues, c);
    if cluster != c {
      OpenElsewhereKept(s.issues, c, cluster);
    }
  }

  lemma InvDelete(rows: seq<IssueRow>, s: State, i: nat)
    requires Inv(rows, s) && Enabled(s, Delete(i))
    ensures Inv(rows, Apply(s, Delete(i)))
  {
    var s', c := Apply(s, Delete(i)), s.calls[i].snap.clusterId;
    var e := Deleted(i, c);
    assert CallOk(s, i);
    RowsPush(s.log, e, ByCall(i));
    assert s'.log[|s.log|] == e;
    EventsStep(rows, s, s', i, e);
    CallsStep(rows, s, s', i, e);
    DeletesStep(rows, s, s', i, e);
    forall cluster ensures OpenIssues(s'.issues, cluster) == Since(rows, s'.log, cluster) {
      SinceDelete(rows, s, i, cluster);
    }
    ResolvedKept(s.issues, c);
  }

  lemma SinceInsert(rows: seq<IssueRow>, s: State, i: nat, cluster: string)
    requires Inv(rows, s) && Enabled(s, Insert(i))
    requires Open(s.calls[i].Issues()[s.calls[i].inserted], s.calls[i].snap.clusterId)
    ensures var s' := Apply(s, Insert(i)); OpenIssues(s'.issues, cluster) == Since(rows, s'.log, cluster)
  {
    var s' := Apply(s, Insert(i));
    assert s'.log[..|s'.log| - 1] == s.log && s'.issues[..|s'.issues| - 1] == s.issues;
  }

  lemma {:induction false} NextOwnRow(log: seq<Event>, i: nat, own: seq<IssueRow>, n: nat)
    requires n < |own| && Rows(log, ByCall(i)) == own[..n]
    ensures Rows(log + [Inserted(i, own[n])], ByCall(i)) == own[..n + 1]
  {
    RowsPush(log, Inserted(i, own[n]), ByCall(i));
    TakeNext(own, n);
  }

  lemma InsertCall(rows: seq<IssueRow>, s: State, i: nat)
    requires Inv(rows, s) && Enabled(s, Insert(i))
    ensures CallOk(Apply(s, Insert(i)), i)
  {
    assert CallOk(s, i);
    NextOwnRow(s.log, i, s.calls[i].Issues(), s.calls[i].inserted);
  }

  lemma InvInsert(rows: seq<IssueRow>, s: State, i: nat)
    requires Inv(rows, s) && Enabled(s, Insert(i))
    ensures Inv(rows, Apply(s, Insert(i)))
  {
    var s', c := Apply(s, Insert(i)), s.calls[i];
    var row := c.Issues()[c.inserted];
    var e := Inserted(i, row);
    DerivedAllOpen(c.snap.clusterId, c.snap.pods);
    assert row in c.Issues();
    InsertCall(rows, s, i);
    EventsStep(rows, s, s', i, e);
    CallsStep(rows, s, s', i, e);
    DeletesStep(rows, s, s', i, e);
    forall cluster ensures OpenIssues(s'.issues, cluster) == Since(rows, s'.log, cluster) {
      SinceInsert(rows, s, i, cluster);
    }
    NoneResolved([row]);
    ResolvedAppend(s.issues, [row]);
  }

  lemma {:induction false} InvRun(rows: seq<IssueRow>, s: State, acts: seq<Action>)
    requires Inv(rows, s) && ValidRun(s, acts)
    ensures Inv(rows, Final(s, acts))
    decreases |acts|
  {
    if acts != [] {
      match acts[0] {
        case Start(_) => InvStart(rows, s, acts[0]);
        case Delete(i) => InvDelete(rows, s, i);
        case Insert(i) => InvInsert(rows, s, i);
      }
      InvRun(rows, Apply(s, acts[0]), acts[1..]);
    }
  }

  lemma NoInsertBeforeDelete(rows: seq<IssueRow>, s: State, cluster: string)
    requires Inv(rows, s) && NoDelete(s.log, cluster, 0)
    ensures Rows(s.log, For(cluster)) == []
  {
    forall e | e in s.log ensures !For(cluster)(e) {
      assert EventOk(s, e) && CallOk(s, e.call);
    }
    NoRows(s.log, For(cluster));
  }

  /**
   However the statements of any number of ingests interleave, the open issues of a cluster are
   exactly what was inserted for it since the last DELETE for it, in that order; without such a DELETE
   they are the ones it had. Resolved rows are never touched.
   */
  lemma OpenIssuesFollowLastDelete(rows: seq<IssueRow>, acts: seq<Action>, cluster: string)
    requires ValidRun(Init(rows), acts)
    ensures var s := Final(Init(rows), acts);
            && (NoDelete(s.log, cluster, 0) ==> OpenIssues(s.issues, cluster) == OpenIssues(rows, cluster))
            && (forall d: nat | IsLastDelete(s.log, cluster, d) ::
                  OpenIssues(s.issues, cluster) == Rows(s.log[d + 1..], For(cluster)))
            && Resolved(s.issues) == Resolved(rows)
  {
    InvRun(rows, Init(rows), acts);
    var s := Final(Init(rows), acts);
    if NoDelete(s.log, cluster, 0) {
      NoInsertBeforeDelete(rows, s, cluster);
      SinceStart(rows, s.log, cluster);
    }
    forall d: nat | IsLastDelete(s.log, cluster, d)
      ensures OpenIssues(s.issues, cluster) == Rows(s.log[d + 1..], For(cluster))
    {
      SinceLastDelete(rows, s.log, cluster, d);
    }
  }

  /** Everything a finished call inserted came after its own DELETE. */
  lemma AllAfterOwnDelete(rows: seq<IssueRow>, s: State, d: nat)
    requires Inv(rows, s) && d < |s.log| && s.log[d].Deleted?
    requires s.log[d].call < |s.calls| && s.calls[s.log[d].call].Complete()
    ensures Rows(s.log[d + 1..], ByCall(s.log[d].call)) == s.calls[s.log[d].call].Issues()
  {
    var i := s.log[d].call;
    var c := s.calls[i];
    assert CallOk(s, i);
    TakeAll(c.Issues(), c.inserted);
    RowsAfter(s.log, d, ByCall(i));
  }

  /** No other call inserts an issue for the cluster after statement d. */
  ghost predicate NothingLate(log: seq<Event>, cluster: string, d: nat)
    requires d < |log|
  {
    forall e | e in log[d + 1..] && e.Inserted? && e.row.clusterId == cluster :: e.call == log[d].call
  }

  /** Call i is an ingest of the cluster that has run its DELETE. */
  ghost predicate HasDeleted(s: State, cluster: string, i: nat) {
    i < |s.calls| && s.calls[i].deleted && s.calls[i].snap.clusterId == cluster
  }

  /**
   When statement d ran, no other ingest of the cluster was between its own DELETE and its last insert:
   each one had already made all its inserts.
   */
  ghost predicate NoneHalfway(s: State, cluster: string, d: nat)
    requires d < |s.log|
  {
    forall j: nat | HasDeleted(s, cluster, j) && j != s.log[d].call ::
      Rows(s.log[..d], ByCall(j)) == s.calls[j].Issues()
  }

  ghost predicate AllComplete(s: State, cluster: string) {
    forall j: nat | HasDeleted(s, cluster, j) :: s.calls[j].Complete()
  }

  /** A complete call had inserted everything before statement d exactly when it inserted nothing after it. */
  lemma {:induction false} DoneBeforeIff(rows: seq<IssueRow>, s: State, d: nat, j: nat)
    requires Inv(rows, s) && d < |s.log| && s.log[d].Deleted? && j < |s.calls| && s.calls[j].Complete()
    ensures Rows(s.log[..d], ByCall(j)) == s.calls[j].Issues()
       <==> forall e | e in s.log[d + 1..] :: !(e.Inserted? && e.call == j)
  {
    var front, after := Rows(s.log[..d], ByCall(j)), Rows(s.log[d + 1..], ByCall(j));
    assert CallOk(s, j);
    TakeAll(s.calls[j].Issues(), s.calls[j].inserted);
    AroundDelete(s.log, d, ByCall(j));
    AppendNothing(front, after);
    NoRows(s.log[d + 1..], ByCall(j));
  }

  lemma NothingLateIff(rows: seq<IssueRow>, s: State, cluster: string, d: nat)
    requires Inv(rows, s) && d < |s.log| && s.log[d].Deleted? && AllComplete(s, cluster)
    ensures NothingLate(s.log, cluster, d) <==> NoneHalfway(s, cluster, d)
  {
    forall j: nat | HasDeleted(s, cluster, j)
      ensures Rows(s.log[..d], ByCall(j)) == s.calls[j].Issues()
         <==> forall e | e in s.log[d + 1..] :: !(e.Inserted? && e.call == j)
    {
      DoneBeforeIff(rows, s, d, j);
    }
    forall e | e in s.log[d + 1..] && e.Inserted?
      ensures HasDeleted(s, cluster, e.call) <==> e.row.clusterId == cluster
    {
      assert e in s.log && EventOk(s, e);
    }
  }

  /**
   Once the ingest with the last DELETE is complete, the cluster's open issues are those of its
   snapshot together with what other ingests inserted after that DELETE; so they are those of its
   snapshot alone exactly when no other ingest did. If all the cluster's ingests are complete, that is
   decided when the DELETE runs: no other ingest may be halfway at that instant.
   */
  lemma LastDeleterStandsAloneIff(rows: seq<IssueRow>, acts: seq<Action>, cluster: string, d: nat)
    requires ValidRun(Init(rows), acts)
    requires IsLastDelete(Final(Init(rows), acts).log, cluster, d)
    requires var s := Final(Init(rows), acts);
             s.log[d].call < |s.calls| && s.calls[s.log[d].call].Complete()
    ensures var s := Final(Init(rows), acts);
            var own, late := s.calls[s.log[d].call].Issues(), Rows(s.log[d + 1..], ByOthers(cluster, s.log[d].call));
            && multiset(OpenIssues(s.issues, cluster)) == multiset(own) + multiset(late)
            && (OpenIssues(s.issues, cluster) == own <==> NothingLate(s.log, cluster, d))
            && (AllComplete(s, cluster) ==>
                  (OpenIssues(s.issues, cluster) == own <==> NoneHalfway(s, cluster, d)))
  {
    InvRun(rows, Init(rows), acts);
    var s := Final(Init(rows), acts);
    OwnAndLate(rows, acts, cluster, d);
    if AllComplete(s, cluster) {
      NothingLateIff(rows, s, cluster, d);
    }
  }

  lemma OwnAndLate(rows: seq<IssueRow>, acts: seq<Action>, cluster: string, d: nat)
    requires ValidRun(Init(rows), acts)
    requires IsLastDelete(Final(Init(rows), acts).log, cluster, d)
    requires var s := Final(Init(rows), acts);
             s.log[d].call < |s.calls| && s.calls[s.log[d].call].Complete()
    ensures var s := Final(Init(rows), acts);
            var own, late := s.calls[s.log[d].call].Issues(), Rows(s.log[d + 1..], ByOthers(cluster, s.log[d].call));
            && multiset(OpenIssues(s.issues, cluster)) == multiset(own) + multiset(late)
            && (OpenIssues(s.issues, cluster) == own <==> NothingLate(s.log, cluster, d))
  {
    InvRun(rows, Init(rows), acts);
    var s := Final(Init(rows), acts);
    var i, after := s.log[d].call, s.log[d + 1..];
    assert s.log[d] in s.log;
    forall e | e in after && e.Inserted? && e.call == i ensures e.row.clusterId == cluster {
      assert EventOk(s, e) && EventOk(s, s.log[d]);
    }
    OpenIssuesFollowLastDelete(rows, acts, cluster);
    AllAfterOwnDelete(rows, s, d);
    RowsSplit(after, cluster, i);
    NoRows(after, ByOthers(cluster, i));
    if Rows(after, ByOthers(cluster, i)) == [] {
      OnlyOwnRows(after, cluster, i);
    } else {
      assert |multiset(OpenIssues(s.issues, cluster))| > |multiset(s.calls[i].Issues())|;
    }
  }

  lemma {:induction false} Then(s: State, acts: seq<Action>, a: Action)
    requires ValidRun(s, acts) && Enabled(Final(s, acts), a)
    ensures ValidRun(s, acts + [a]) && Final(s, acts + [a]) == Apply(Final(s, acts), a)
    decreases |acts|
  {
    if acts == [] {
      var next := Apply(s, a);
      assert (acts + [a])[1..] == [] && ValidRun(next, []) && Final(next, []) == next;
    } else {
      assert (acts + [a])[1..] == acts[1..] + [a];
      Then(Apply(s, acts[0]), acts[1..], a);
    }
  }

  /** Call i issues all its inserts. */
  lemma InsertAll(s: State, acts: seq<Action>, i: nat) returns (acts': seq<Action>)
    requires ValidRun(s, acts)
    requires var m := Final(s, acts); i < |m.calls| && m.calls[i].deleted && m.calls[i].inserted == 0
    ensures ValidRun(s, acts')
    ensures var m, f := Final(s, acts), Final(s, acts');
            && f.issues == m.issues + m.calls[i].Issues()
            && |f.calls| == |m.calls| && f.calls[i].snap == m.calls[i].snap && f.calls[i].Complete()
            && forall j | 0 <= j < |m.calls| && j != i :: f.calls[j] == m.calls[j]
  {
    acts' := acts;
    var m := Final(s, acts);
    var own := m.calls[i].Issues();
    for n := 0 to |own|
      invariant ValidRun(s, acts')
      invariant Final(s, acts').issues == m.issues + own[..n]
      invariant Final(s, acts').calls == m.calls[i := m.calls[i].(inserted := n)]
    {
      Then(s, acts', Insert(i));
      acts' := acts' + [Insert(i)];
      TakeNext(own, n);
      AppendAssociates(m.issues, own[..n], [own[n]]);
    }
    TakeAll(own, |own|);
  }

  lemma BothDelete(rows: seq<IssueRow>, a: Snapshot, b: Snapshot) returns (acts: seq<Action>)
    requires a.clusterId == b.clusterId
    ensures ValidRun(Init(rows), acts)
    ensures Final(Init(rows), acts).issues == OtherIssues(OtherIssues(rows, a.clusterId), a.clusterId)
    ensures Final(Init(rows), acts).calls == [Call(a, true, 0), Call(b, true, 0)]
  {
    acts := [];
    Then(Init(rows), acts, Start(a));
    acts := acts + [Start(a)];
    Then(Init(rows), acts, Start(b));
    acts := acts + [Start(b)];
    Then(Init(rows), acts, Delete(0));
    acts := acts + [Delete(0)];
    Then(Init(rows), acts, Delete(1));
    acts := acts + [Delete(1)];
  }

  /** Two ingests whose DELETEs both run before their inserts leave the issues of both. */
  lemma OverlapCanAddUp(rows: seq<IssueRow>, a: Snapshot, b: Snapshot) returns (acts: seq<Action>)
    requires a.clusterId == b.clusterId
    ensures ValidRun(Init(rows), acts)
    ensures var s := Final(Init(rows), acts);
            && |s.calls| == 2 && s.calls[0].snap == a && s.calls[1].snap == b
            && s.calls[0].Complete() && s.calls[1].Complete()
            && OpenIssues(s.issues, b.clusterId) == s.calls[0].Issues() + s.calls[1].Issues()
  {
    var c := a.clusterId;
    var kept := OtherIssues(OtherIssues(rows, c), c);
    acts := BothDelete(rows, a, b);
    acts := InsertAll(Init(rows), acts, 0);
    assert Final(Init(rows), acts).issues == kept + Derived(c, a.pods);
    acts := InsertAll(Init(rows), acts, 1);
    assert Final(Init(rows), acts).issues == kept + Derived(c, a.pods) + Derived(c, b.pods);
    OthersHaveNoOpen(OtherIssues(rows, c), c);
    OpenOfBoth(kept, a, b);
  }

  lemma OpenOfBoth(kept: seq<IssueRow>, a: Snapshot, b: Snapshot)
    requires a.clusterId == b.clusterId && OpenIssues(kept, a.clusterId) == []
    ensures var x, y := Derived(a.clusterId, a.pods), Derived(b.clusterId, b.pods);
            OpenIssues(kept + x + y, a.clusterId) == x + y
  {
    var c := a.clusterId;
    var x, y := Derived(c, a.pods), Derived(c, b.pods);
    DerivedIsOpen(c, a.pods, c);
    DerivedIsOpen(c, b.pods, c);
    OpenAppend(kept + x, y, c);
    OpenAppend(kept, x, c);
    assert [] + x == x;
  }
}
