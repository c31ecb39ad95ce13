/**
 Turning warning events into issues, in two ways: the diagnostics collector deduplicates before it
 filters (agent/internal/diagnostics/collector.go), the event analyzer filters before it
 deduplicates (agent/internal/analyzers/event_analyzer.go). Times are in seconds.
 */
module Events {
  import opened HealthScore

  datatype Event = Event(
    namespace: string,
    name: string,
    kind: string,
    reason: string,
    message: string,
    lastTimestamp: int,
    count: int)

  const HOUR: int := 3600

  /** Both implementations identify an event by the same three parts. */
  function Key(e: Event): string {
    e.namespace + "/" + e.name + "/" + e.reason
  }

  const COLLECTOR_IGNORES: set<string> := {"Scheduled", "Pulled", "Started"}

  const ANALYZER_IGNORES: set<string> :=
    {"Scheduled", "Pulled", "Started", "Created", "Killing", "Preempting", "ScalingReplicaSet"}

  function CollectorIssue(e: Event): Issue {
    Issue(Key(e), e.reason, "warning", e.namespace, e.kind, e.name, e.message, e.lastTimestamp)
  }

  function AnalyzerIssue(e: Event, now: int): Issue {
    Issue(Key(e), e.reason, if e.count > 10 then "critical" else "warning", e.namespace, e.kind, e.name, e.message, now)
  }

  predicate CollectorKeeps(e: Event, now: int) {
    now - e.lastTimestamp <= HOUR && e.reason !in COLLECTOR_IGNORES
  }

  predicate AnalyzerKeeps(e: Event, now: int) {
    e.reason !in ANALYZER_IGNORES && now - e.lastTimestamp <= 2 * HOUR
  }

  /** Event i is the first of the list with its key. */
  ghost predicate FirstOfKey(events: seq<Event>, i: nat) {
    i < |events| && forall j | 0 <= j < i :: Key(events[j]) != Key(events[i])
  }

  ghost predicate FirstAndKept(events: seq<Event>, now: int, i: nat) {
    && i < |events| && CollectorKeeps(events[i], now)
    && forall j | 0 <= j < i :: Key(events[j]) != Key(events[i])
  }

  /** Event i is the first with its key among those the analyzer keeps. */
  ghost predicate FirstKept(events: seq<Event>, now: int, i: nat) {
    && i < |events| && AnalyzerKeeps(events[i], now)
    && forall j | 0 <= j < i && AnalyzerKeeps(events[j], now) :: Key(events[j]) != Key(events[i])
  }

  ghost predicate Increasing(s: seq<nat>) {
    forall i, j | 0 <= i < j < |s| :: s[i] < s[j]
  }

  /** source gives, for each issue, the position of the event it was made from. */
  ghost predicate CollectorReport(events: seq<Event>, now: int, issues: seq<Issue>, source: seq<nat>) {
    && |issues| == |source| && Increasing(source)
    && (forall n | 0 <= n < |source| :: source[n] < |events| && issues[n] == CollectorIssue(events[source[n]]))
    && forall i: nat :: i in source <==> FirstAndKept(events, now, i)
  }

  ghost predicate AnalyzerReport(events: seq<Event>, now: int, issues: seq<Issue>, source: seq<nat>) {
    && |issues| == |source| && Increasing(source)
    && (forall n | 0 <= n < |source| :: source[n] < |events| && issues[n] == AnalyzerIssue(events[source[n]], now))
    && forall i: nat :: i in source <==> FirstKept(events, now, i)
  }

  /** Deduplicates first: an event that is filtered out still hides later events with its key. */
  method CollectEvents(events: seq<Event>, now: int) returns (issues: seq<Issue>)
    ensures exists source :: CollectorReport(events, now, issues, source)
  {
    issues := [];
    ghost var source: seq<nat> := [];
    var seen: set<string> := {};
    for n := 0 to |events|
      invariant seen == set i | 0 <= i < n :: Key(events[i])
      invariant |issues| == |source| && Increasing(source)
      invariant forall m | 0 <= m < |source| :: source[m] < n && issues[m] == CollectorIssue(events[source[m]])
      invariant forall i: nat :: i in source <==> i < n && FirstAndKept(events, now, i)
    {
      var e := events[n];
      if Key(e) in seen {
        continue;
      }
      seen := seen + {Key(e)};
      if now - e.lastTimestamp > HOUR {
        continue;
      }
      if e.reason == "Scheduled" || e.reason == "Pulled" || e.reason == "Started" {
        continue;
      }
      issues := issues + [CollectorIssue(e)];
      source := source + [n];
    }
    assert CollectorReport(events, now, issues, source);
  }

  /** Filters first: only events that count can hide later ones. */
  method AnalyzeEvents(events: seq<Event>, now: int) returns (issues: seq<Issue>)
    ensures exists source :: AnalyzerReport(events, now, issues, source)
  {
    issues := [];
    ghost var source: seq<nat> := [];
    var seen: set<string> := {};
    for n := 0 to |events|
      invariant seen == set i | 0 <= i < n && AnalyzerKeeps(events[i], now) :: Key(events[i])
      invariant |issues| == |source| && Increasing(source)
      invariant forall m | 0 <= m < |source| :: source[m] < n && issues[m] == AnalyzerIssue(events[source[m]], now)
      invariant forall i: nat :: i in source <==> i < n && FirstKept(events, now, i)
    {
      var e := events[n];
      if e.reason in ANALYZER_IGNORES {
        continue;
      }
      if now - e.lastTimestamp > 2 * HOUR {
        continue;
      }
      if Key(e) in seen {
        continue;
      }
      seen := seen + {Key(e)};
      issues := issues + [AnalyzerIssue(e, now)];
      source := source + [n];
    }
    assert AnalyzerReport(events, now, issues, source);
  }

  // ----- main results

  ghost predicate Reported(issues: seq<Issue>, key: string) {
    exists n | 0 <= n < |issues| :: issues[n].id == key
  }

  lemma {:induction false} FirstExists(events: seq<Event>, i: nat) returns (f: nat)
    requires i < |events|
    ensures f <= i && FirstOfKey(events, f) && Key(events[f]) == Key(events[i])
    decreases i
  {
    if FirstOfKey(events, i) {
      f := i;
    } else {
      var j :| 0 <= j < i && Key(events[j]) == Key(events[i]);
      f := FirstExists(events, j);
    }
  }

  lemma {:induction false} FirstKeptExists(events: seq<Event>, now: int, i: nat) returns (f: nat)
    requires i < |events| && AnalyzerKeeps(events[i], now)
    ensures f <= i && FirstKept(events, now, f) && Key(events[f]) == Key(events[i])
    decreases i
  {
    if FirstKept(events, now, i) {
      f := i;
    } else {
      var j :| 0 <= j < i && AnalyzerKeeps(events[j], now) && Key(events[j]) == Key(events[i]);
      f := FirstKeptExists(events, now, j);
    }
  }

  /** The collector reports a key exactly when the first event with that key qualifies. */
  lemma CollectorReportsFirst(events: seq<Event>, now: int, issues: seq<Issue>, source: seq<nat>, i: nat)
    requires CollectorReport(events, now, issues, source) && FirstOfKey(events, i)
    ensures Reported(issues, Key(events[i])) <==> CollectorKeeps(events[i], now)
    ensures CollectorKeeps(events[i], now)
       <==> now - events[i].lastTimestamp <= 3600 && events[i].reason !in {"Scheduled", "Pulled", "Started"}
  {
    if CollectorKeeps(events[i], now) {
      assert FirstAndKept(events, now, i);
      var n :| 0 <= n < |source| && source[n] == i;
      assert issues[n].id == Key(events[i]);
    }
    if Reported(issues, Key(events[i])) {
      var n :| 0 <= n < |issues| && issues[n].id == Key(events[i]);
      assert source[n] in source;
      assert source[n] == i;
    }
  }

  ghost predicate NewestFirst(events: seq<Event>) {
    forall i, j | 0 <= i < j < |events| :: events[i].lastTimestamp >= events[j].lastTimestamp
  }

  ghost predicate SlashFree(s: string) {
    '/' !in s
  }

  /** The part of a key after its last slash is the reason. */
  lemma KeyGivesReason(a: Event, b: Event)
    requires SlashFree(a.reason) && SlashFree(b.reason) && Key(a) == Key(b)
    ensures a.reason == b.reason
  {
    var k, l := Key(a), Key(b);
    var m, n := |k| - |a.reason|, |l| - |b.reason|;
    assert k[m - 1] == '/' && l[n - 1] == '/';
    assert forall i | m <= i < |k| :: k[i] == a.reason[i - m] && a.reason[i - m] in a.reason;
    assert forall i | n <= i < |l| :: l[i] == b.reason[i - n] && b.reason[i - n] in b.reason;
    assert m == n;
    assert a.reason == k[m..] && b.reason == l[n..];
  }

  /** Events with equal keys are ignored together; slashes in a reason are what could break this. */
  ghost predicate KeysDecideIgnoring(events: seq<Event>) {
    forall e, f | e in events && f in events && Key(e) == Key(f) ::
      e.reason in COLLECTOR_IGNORES <==> f.reason in COLLECTOR_IGNORES
  }

  lemma SlashFreeReasons(events: seq<Event>)
    requires forall e | e in events :: SlashFree(e.reason)
    ensures KeysDecideIgnoring(events)
  {
    forall e, f | e in events && f in events && Key(e) == Key(f) ensures e.reason == f.reason {
      KeyGivesReason(e, f);
    }
  }

  /** On a newest-first list that is the same as: some event with the key qualifies. */
  lemma CollectorOnNewestFirst(events: seq<Event>, now: int, issues: seq<Issue>, source: seq<nat>, key: string)
    requires CollectorReport(events, now, issues, source)
    requires NewestFirst(events) && KeysDecideIgnoring(events)
    ensures Reported(issues, key)
       <==> exists i | 0 <= i < |events| :: Key(events[i]) == key && CollectorKeeps(events[i], now)
  {
    if Reported(issues, key) {
      var n :| 0 <= n < |issues| && issues[n].id == key;
      assert source[n] in source;
    }
    if i :| 0 <= i < |events| && Key(events[i]) == key && CollectorKeeps(events[i], now) {
      var f := FirstExists(events, i);
      assert events[f] in events && events[i] in events;
      CollectorReportsFirst(events, now, issues, source, f);
    }
  }

  /** The analyzer reports a key exactly when some event with it qualifies, in any order of events. */
  lemma AnalyzerReportsSome(events: seq<Event>, now: int, issues: seq<Issue>, source: seq<nat>, key: string)
    requires AnalyzerReport(events, now, issues, source)
    ensures Reported(issues, key)
       <==> exists i | 0 <= i < |events| :: Key(events[i]) == key && AnalyzerKeeps(events[i], now)
    ensures forall e :: AnalyzerKeeps(e, now) == (now - e.lastTimestamp <= 7200 && e.reason !in {
                "Scheduled", "Pulled", "Started", "Created", "Killing", "Preempting", "ScalingReplicaSet"})
  {
    if Reported(issues, key) {
      var n :| 0 <= n < |issues| && issues[n].id == key;
      assert source[n] in source;
    }
    if i :| 0 <= i < |events| && Key(events[i]) == key && AnalyzerKeeps(events[i], now) {
      var f := FirstKeptExists(events, now, i);
      var n :| 0 <= n < |source| && source[n] == f;
      assert issues[n].id == key;
    }
  }

  /** The issue is about the event. */
  ghost predicate About(x: Issue, e: Event) {
    && x.id == e.namespace + "/" + e.name + "/" + e.reason && x.issueType == e.reason
    && (x.namespace, x.name, x.kind, x.message) == (e.namespace, e.name, e.kind, e.message)
  }

  /**
   Each reported issue is about its event. The collector's are warnings at the event's own time; the
   analyzer's are dated now, and critical if the event occurred more than ten times.
   */
  lemma IssuesAreAboutEvents(events: seq<Event>, now: int, issues: seq<Issue>, source: seq<nat>, n: nat)
    requires n < |issues| && |issues| == |source|
    ensures CollectorReport(events, now, issues, source) ==>
              var e := events[source[n]];
              About(issues[n], e) && issues[n].severity == "warning" && issues[n].detectedAt == e.lastTimestamp
    ensures AnalyzerReport(events, now, issues, source) ==>
              var e := events[source[n]];
              About(issues[n], e) && issues[n].severity == (if e.count <= 10 then "warning" else "critical")
              && issues[n].detectedAt == now
  {
  }

  /** No identifier is reported twice, by either implementation. */
  lemma IdsAreDistinct(events: seq<Event>, now: int, issues: seq<Issue>, source: seq<nat>, m: nat, n: nat)
    requires CollectorReport(events, now, issues, source) || AnalyzerReport(events, now, issues, source)
    requires m < n < |issues|
    ensures issues[m].id != issues[n].id
  {
    assert source[m] in source && source[n] in source;
  }

  /** Whatever the collector reports, the analyzer reports too, unless its longer list ignores the reason. */
  lemma AnalyzerCoversCollector(
    events: seq<Event>, now: int,
    collected: seq<Issue>, cs: seq<nat>, analyzed: seq<Issue>, an: seq<nat>, n: nat)
    requires CollectorReport(events, now, collected, cs) && AnalyzerReport(events, now, analyzed, an)
    requires n < |collected| && collected[n].issueType !in ANALYZER_IGNORES
    ensures Reported(analyzed, collected[n].id)
  {
    assert cs[n] in cs;
    AnalyzerReportsSome(events, now, analyzed, an, collected[n].id);
  }

  /** An event that qualifies is never behind a first one with its key that does not. */
  ghost predicate NothingHidden(events: seq<Event>, now: int) {
    forall f: nat, i: nat | f < i < |events| && FirstOfKey(events, f) && Key(events[f]) == Key(events[i]) ::
      CollectorKeeps(events[i], now) ==> CollectorKeeps(events[f], now)
  }

  /**
   On any list, in any order, the collector reports the key of every qualifying event exactly when
   nothing is hidden.
   */
  lemma CollectorMissesNothingIff(events: seq<Event>, now: int, issues: seq<Issue>, source: seq<nat>)
    requires CollectorReport(events, now, issues, source)
    ensures (forall i | 0 <= i < |events| && CollectorKeeps(events[i], now) :: Reported(issues, Key(events[i])))
       <==> NothingHidden(events, now)
  {
    forall i | 0 <= i < |events| && CollectorKeeps(events[i], now) && NothingHidden(events, now)
      ensures Reported(issues, Key(events[i]))
    {
      var f := FirstExists(events, i);
      CollectorReportsFirst(events, now, issues, source, f);
    }
    forall f: nat, i: nat | f < i < |events| && FirstOfKey(events, f) && Key(events[f]) == Key(events[i])
      ensures CollectorKeeps(events[f], now) <==> Reported(issues, Key(events[i]))
    {
      CollectorReportsFirst(events, now, issues, source, f);
    }
  }

  /** Out of order that happens: a stale first event hides a recent one that qualifies. */
  lemma CollectorCanMiss(now: int, issues: seq<Issue>, source: seq<nat>)
    requires var stale := Event("ns", "pod", "Pod", "BackOff", "", now - HOUR - 1, 1);
             CollectorReport([stale, stale.(lastTimestamp := now)], now, issues, source)
    ensures var recent := Event("ns", "pod", "Pod", "BackOff", "", now, 1);
            CollectorKeeps(recent, now) && !Reported(issues, Key(recent))
  {
    var stale := Event("ns", "pod", "Pod", "BackOff", "", now - HOUR - 1, 1);
    var events := [stale, stale.(lastTimestamp := now)];
    assert Key(events[0]) == Key(events[1]);
    CollectorReportsFirst(events, now, issues, source, 0);
  }
}
