/**
 What a backlog does to the worker (backend/internal/worker/consumer.go): replicas that call handle as
 soon as they can, so that a message waits only for the messages pushed to its subscription before it.
 The wait that Consumer bounds by a parameter is derived here from the length of the queue.
 */
module Backlog {
  import opened Counting
  import opened Consumer

  /** A delivery finds at most backlog unfinished ones in its subscription; a call lives up to deadline. */
  datatype Load = Load(backlog: nat, deadline: nat)

  ghost function Unfinished(subscription: nat): Handler -> bool {
    (h: Handler) => !Finished(h) && h.subscription == subscription
  }

  /** A replica with a message whose turn it is starts on it before any time passes. */
  ghost predicate Prompt(d: Load, s: State, a: Action) {
    && Possible(s, a)
    && match a
       case Tick(ms) =>
         forall h | 0 <= h < |s.handlers| && !Finished(s.handlers[h]) ::
           if s.handlers[h].phase.Buffered? then ms == 0 || !IsNext(s, h)
           else s.now + ms <= s.handlers[h].startedAt + d.deadline
       case Deliver(_, subscription) => Count(s.handlers, Unfinished(subscription)) <= d.backlog
       case _ => true
  }

  ghost predicate PromptRun(d: Load, s: State, acts: seq<Action>)
    decreases |acts|
  {
    acts == [] || (Prompt(d, s, acts[0]) && PromptRun(d, Apply(s, acts[0]), acts[1..]))
  }

  ghost function End(d: Load, s: State, acts: seq<Action>): State
    requires PromptRun(d, s, acts)
    decreases |acts|
  {
    if acts == [] then s else End(d, Apply(s, acts[0]), acts[1..])
  }

  /** The bounds that a load puts on waits and calls. */
  function Waits(d: Load): Limits {
    Limits(d.backlog * d.deadline, d.deadline)
  }

  /** The time that backlog - p calls of the longest kind take. */
  function Slack(d: Load, p: nat): int {
    (d.backlog - p) * d.deadline
  }

  lemma SlackFacts(d: Load, p: nat)
    requires p <= d.backlog
    ensures 0 <= Slack(d, p) <= d.backlog * d.deadline
    ensures p > 0 ==> Slack(d, p - 1) == Slack(d, p) + d.deadline <= d.backlog * d.deadline
  {
    assert d.backlog * d.deadline == Slack(d, p) + p * d.deadline;
    assert p * d.deadline >= 0;
    if p > 0 {
      assert p * d.deadline == (p - 1) * d.deadline + d.deadline;
      assert (p - 1) * d.deadline >= 0;
    }
  }

  // ----- the invariant

  ghost function Ahead(s: State, h: nat): nat
    requires h < |s.handlers|
  {
    Count(s.handlers[..h], Unfinished(s.handlers[h].subscription))
  }

  /** handle runs for one message of a subscription at a time, in the order of delivery. */
  ghost predicate InOrder(s: State) {
    forall j, h | 0 <= j < h < |s.handlers| && s.handlers[j].subscription == s.handlers[h].subscription ::
      Finished(s.handlers[j]) || !Live(s.handlers[h])
  }

  /** Delivery j is running, in the subscription of delivery h and not behind it. */
  ghost predicate RunsBefore(s: State, j: nat, h: nat)
    requires h < |s.handlers|
  {
    j <= h && Live(s.handlers[j]) && s.handlers[j].subscription == s.handlers[h].subscription
  }

  /** With p deliveries in front, the turn of the first of them has come early enough. */
  ghost predicate OnTime(d: Load, s: State, h: nat)
    requires h < |s.handlers|
  {
    !Finished(s.handlers[h]) ==>
      && Ahead(s, h) <= d.backlog
      && var limit := s.handlers[h].deliveredAt + Slack(d, Ahead(s, h));
         && (forall j: nat | RunsBefore(s, j, h) :: s.handlers[j].startedAt <= limit)
         && ((forall j: nat | j <= h :: !RunsBefore(s, j, h)) ==> s.now <= limit)
  }

  ghost predicate LoadInv(d: Load, s: State) {
    && InOrder(s)
    && (forall h | 0 <= h < |s.handlers| :: OnTime(d, s, h))
    && (forall h | 0 <= h < |s.handlers| && Live(s.handlers[h]) ::
          s.handlers[h].startedAt <= s.now <= s.handlers[h].startedAt + d.deadline)
  }

  lemma SomeCounted<T>(s: seq<T>, i: nat, p: T -> bool)
    requires i < |s| && p(s[i])
    ensures Count(s, p) > 0
  {
    CountUpdate(s, i, s[i], p);
    assert s == (s[..i] + [s[i]]) + s[i + 1..];
    CountPush(s[..i], s[i], p);
    CountAppend(s[..i] + [s[i]], s[i + 1..], p);
  }

  /** The first unfinished delivery of h's subscription. */
  lemma {:induction false} FirstUnfinished(s: State, h: nat) returns (j: nat)
    requires h < |s.handlers| && !Finished(s.handlers[h])
    ensures j <= h && !Finished(s.handlers[j]) && IsNext(s, j)
    ensures s.handlers[j].subscription == s.handlers[h].subscription
    decreases h
  {
    if IsNext(s, h) {
      j := h;
    } else {
      var k :| 0 <= k < h && s.handlers[k].subscription == s.handlers[h].subscription && !Finished(s.handlers[k]);
      j := FirstUnfinished(s, k);
    }
  }

  /** While time passes, the turn of an unfinished delivery's subscription is taken. */
  lemma TurnTaken(d: Load, s: State, ms: nat, h: nat) returns (j: nat)
    requires LoadInv(d, s) && Prompt(d, s, Tick(ms))
    requires h < |s.handlers| && !Finished(s.handlers[h]) && ms > 0
    ensures RunsBefore(s, j, h)
  {
    j := FirstUnfinished(s, h);
  }

  lemma TickIsBounded(d: Load, s: State, ms: nat, h: nat)
    requires LoadInv(d, s) && Prompt(d, s, Tick(ms))
    requires h < |s.handlers| && !Finished(s.handlers[h])
    ensures s.now + ms <= Until(Waits(d), s.handlers[h])
  {
    assert OnTime(d, s, h);
    SlackFacts(d, Ahead(s, h));
    if s.handlers[h].phase.Buffered? {
      if j: nat :| j <= h && RunsBefore(s, j, h) {
        assert s.handlers[..h][j] == s.handlers[j];
        SomeCounted(s.handlers[..h], j, Unfinished(s.handlers[h].subscription));
        assert s.now + ms <= s.handlers[j].startedAt + d.deadline;
      } else if ms > 0 {
        var j := TurnTaken(d, s, ms, h);
      }
    }
  }

  lemma LoadTick(d: Load, s: State, ms: nat)
    requires LoadInv(d, s) && Prompt(d, s, Tick(ms))
    ensures LoadInv(d, Apply(s, Tick(ms)))
  {
    var s' := Apply(s, Tick(ms));
    forall h | 0 <= h < |s'.handlers| ensures OnTime(d, s', h) {
      assert OnTime(d, s, h);
      if !Finished(s.handlers[h]) {
        assert Ahead(s', h) == Ahead(s, h);
        forall j: nat | j <= h ensures RunsBefore(s', j, h) == RunsBefore(s, j, h) {}
        if ms > 0 {
          var j := TurnTaken(d, s, ms, h);
        }
      }
    }
  }

  lemma LoadDeliver(d: Load, s: State, a: Action)
    requires LoadInv(d, s) && a.Deliver? && Prompt(d, s, a)
    ensures LoadInv(d, Apply(s, a))
  {
    var s' := Apply(s, a);
    var n := |s.handlers|;
    forall h | 0 <= h < |s'.handlers| ensures OnTime(d, s', h) {
      if h < n {
        assert OnTime(d, s, h);
        assert s'.handlers[..h] == s.handlers[..h];
        forall j: nat | j <= h ensures RunsBefore(s', j, h) == RunsBefore(s, j, h) {}
      } else {
        assert s'.handlers[..n] == s.handlers;
        SlackFacts(d, Ahead(s', n));
      }
    }
  }

  /** A step of delivery i that rewrites its record only. */
  ghost predicate Rewrites(s: State, s': State, i: nat) {
    && i < |s.handlers| && |s'.handlers| == |s.handlers| && s'.handlers == s.handlers[i := s'.handlers[i]]
    && s'.now == s.now && !Finished(s.handlers[i])
    && s'.handlers[i].subscription == s.handlers[i].subscription
    && s'.handlers[i].deliveredAt == s.handlers[i].deliveredAt
  }

  lemma AheadRewritten(s: State, s': State, i: nat, h: nat)
    requires Rewrites(s, s', i) && h < |s.handlers|
    ensures Ahead(s', h) == Ahead(s, h)
            - if i < h && s.handlers[h].subscription == s.handlers[i].subscription && Finished(s'.handlers[i])
              then 1 else 0
  {
    if i < h {
      assert s'.handlers[..h] == s.handlers[..h][i := s'.handlers[i]];
      CountUpdate(s.handlers[..h], i, s'.handlers[i], Unfinished(s.handlers[h].subscription));
    } else {
      assert s'.handlers[..h] == s.handlers[..h];
    }
  }

  /** handle goes on. */
  lemma LoadProgress(d: Load, s: State, s': State, i: nat)
    requires LoadInv(d, s) && Rewrites(s, s', i) && Live(s.handlers[i]) && Live(s'.handlers[i])
    requires s'.handlers[i].startedAt == s.handlers[i].startedAt
    ensures LoadInv(d, s')
  {
    forall h | 0 <= h < |s'.handlers| ensures OnTime(d, s', h) {
      assert OnTime(d, s, h);
      AheadRewritten(s, s', i, h);
      forall j: nat | j <= h ensures RunsBefore(s', j, h) == RunsBefore(s, j, h) {}
    }
  }

  /** handle is called. */
  lemma LoadEnter(d: Load, s: State, s': State, i: nat)
    requires LoadInv(d, s) && Rewrites(s, s', i) && s.handlers[i].phase.Buffered? && IsNext(s, i)
    requires Live(s'.handlers[i]) && s'.handlers[i].startedAt == s.now
    ensures LoadInv(d, s')
  {
    forall h | 0 <= h < |s'.handlers| ensures OnTime(d, s', h) {
      assert OnTime(d, s, h);
      AheadRewritten(s, s', i, h);
      if s.handlers[h].subscription == s.handlers[i].subscription && h >= i {
        assert forall j: nat | j <= h :: !RunsBefore(s, j, h);
        assert RunsBefore(s', i, h);
      } else {
        forall j: nat | j <= h ensures RunsBefore(s', j, h) == RunsBefore(s, j, h) {}
      }
    }
  }

  /** A delivery ends, by a reply or a crash: those behind it move up. */
  lemma LoadFinish(d: Load, s: State, s': State, i: nat)
    requires LoadInv(d, s) && Rewrites(s, s', i) && Finished(s'.handlers[i])
    ensures LoadInv(d, s')
  {
    forall h | 0 <= h < |s'.handlers| ensures OnTime(d, s', h) {
      assert OnTime(d, s, h);
      AheadRewritten(s, s', i, h);
      if !Finished(s'.handlers[h]) {
        forall j: nat | j <= h && j != i ensures RunsBefore(s', j, h) == RunsBefore(s, j, h) {}
        if i < h && s.handlers[h].subscription == s.handlers[i].subscription {
          assert s.handlers[..h][i] == s.handlers[i];
          SomeCounted(s.handlers[..h], i, Unfinished(s.handlers[h].subscription));
          SlackFacts(d, Ahead(s, h));
          if Live(s.handlers[i]) {
            assert RunsBefore(s, i, h);
          }
        }
      }
    }
  }

  lemma LoadPublish(d: Load, s: State, a: Action)
    requires LoadInv(d, s) && a.Publish?
    ensures LoadInv(d, Apply(s, a))
  {
    var s' := Apply(s, a);
    forall h | 0 <= h < |s'.handlers| ensures OnTime(d, s', h) {
      assert OnTime(d, s, h);
      forall j: nat | j <= h ensures RunsBefore(s', j, h) == RunsBefore(s, j, h) {}
    }
  }

  /** The steps of handle after its call, and crashes. */
  lemma LoadOwn(d: Load, s: State, a: Action, i: nat)
    requires LoadInv(d, s) && Prompt(d, s, a)
    requires a in [CheckSignature(i), Parse(i), Reply(i), Crash(i)] || (a.Persist? && a.h == i)
    ensures LoadInv(d, Apply(s, a))
  {
    var s' := Apply(s, a);
    if Finished(s'.handlers[i]) {
      LoadFinish(d, s, s', i);
    } else {
      LoadProgress(d, s, s', i);
    }
  }

  lemma LoadStep(d: Load, s: State, a: Action)
    requires LoadInv(d, s) && Prompt(d, s, a)
    ensures LoadInv(d, Apply(s, a))
  {
    match a
    case Tick(ms) => LoadTick(d, s, ms);
    case Publish(_, _) => LoadPublish(d, s, a);
    case Deliver(_, _) => LoadDeliver(d, s, a);
    case Enter(i) => LoadEnter(d, s, Apply(s, a), i);
    case CheckSignature(i) => LoadOwn(d, s, a, i);
    case Parse(i) => LoadOwn(d, s, a, i);
    case Persist(i, _) => LoadOwn(d, s, a, i);
    case Reply(i) => LoadOwn(d, s, a, i);
    case Crash(i) => LoadOwn(d, s, a, i);
  }

  lemma PromptIsBounded(d: Load, s: State, a: Action)
    requires LoadInv(d, s) && Prompt(d, s, a)
    ensures Enabled(Waits(d), s, a)
  {
    if a.Tick? {
      forall k | k in s.handlers && !Finished(k) ensures s.now + a.ms <= Until(Waits(d), k) {
        var h :| 0 <= h < |s.handlers| && s.handlers[h] == k;
        TickIsBounded(d, s, a.ms, h);
      }
    }
  }

  // ----- main results

  /**
   Behind at most backlog others, a message waits at most backlog times the deadline: every run of
   prompt replicas is a run within these limits.
   */
  lemma {:induction false} PromptRunsAreBounded(d: Load, s: State, acts: seq<Action>)
    requires LoadInv(d, s) && PromptRun(d, s, acts)
    ensures ValidRun(Waits(d), s, acts) && Final(Waits(d), s, acts) == End(d, s, acts)
    decreases |acts|
  {
    if acts != [] {
      PromptIsBounded(d, s, acts[0]);
      LoadStep(d, s, acts[0]);
      PromptRunsAreBounded(d, Apply(s, acts[0]), acts[1..]);
    }
  }

  // ----- a run that reaches the bound

  lemma {:induction false} Then(d: Load, s: State, acts: seq<Action>, a: Action)
    requires PromptRun(d, s, acts) && Prompt(d, End(d, s, acts), a)
    ensures PromptRun(d, s, acts + [a]) && End(d, s, acts + [a]) == Apply(End(d, s, acts), a)
    decreases |acts|
  {
    if acts == [] {
      var next := Apply(s, a);
      assert (acts + [a])[1..] == [] && PromptRun(d, next, []) && End(d, next, []) == next;
    } else {
      assert (acts + [a])[1..] == acts[1..] + [a];
      Then(d, Apply(s, acts[0]), acts[1..], a);
    }
  }

  lemma {:induction false} RunAppend(d: Load, s: State, a: seq<Action>, b: seq<Action>)
    requires PromptRun(d, s, a) && PromptRun(d, End(d, s, a), b)
    ensures PromptRun(d, s, a + b) && End(d, s, a + b) == End(d, End(d, s, a), b)
    decreases |a|
  {
    if a == [] {
      assert a + b == b;
    } else {
      assert (a + b)[0] == a[0] && (a + b)[1..] == a[1..] + b;
      RunAppend(d, Apply(s, a[0]), a[1..], b);
    }
  }

  const FRESH: Message := Message(true, true, Available, 0)
  const SENT: Message := Message(true, true, InFlight(0), 1)
  const ACKED: Message := Message(true, true, Acked, 1)

  /** Delivery k waits in subscription 0. */
  function Queued(k: nat): Handler {
    Handler(k, 0, 0, 0, Buffered, false, false)
  }

  /** Delivery k took its full deadline, after those before it did. */
  function Acknowledged(d: Load, k: nat): Handler {
    Handler(k, 0, 0, k * d.deadline, Acking, true, true)
  }

  /** Of n messages pushed to subscription 0 at instant 0, the first i are done. */
  function Partly(d: Load, n: nat, i: nat): State {
    State(i * d.deadline,
          seq(n, k => if k < i then ACKED else SENT),
          seq(n, k requires k >= 0 => if k < i then Acknowledged(d, k) else Queued(k)),
          seq(i, k requires k >= 0 => k))
  }

  lemma Published(d: Load, n: nat) returns (acts: seq<Action>)
    ensures PromptRun(d, INIT, acts) && End(d, INIT, acts) == State(0, seq(n, _ => FRESH), [], [])
  {
    acts := [];
    for i := 0 to n
      invariant PromptRun(d, INIT, acts) && End(d, INIT, acts) == State(0, seq(i, _ => FRESH), [], [])
    {
      Then(d, INIT, acts, Publish(true, true));
      acts := acts + [Publish(true, true)];
    }
  }

  /** Of n messages, the first i are pushed to subscription 0. */
  function Delivered(n: nat, i: nat): State {
    State(0, seq(n, k => if k < i then SENT else FRESH), seq(i, k requires k >= 0 => Queued(k)), [])
  }

  lemma DeliverNext(d: Load, i: nat)
    requires i <= d.backlog
    ensures Prompt(d, Delivered(d.backlog + 1, i), Deliver(i, 0))
    ensures Apply(Delivered(d.backlog + 1, i), Deliver(i, 0)) == Delivered(d.backlog + 1, i + 1)
  {
    var s := Delivered(d.backlog + 1, i);
    CountAll(s.handlers, Unfinished(0));
    assert s.messages[i] == FRESH;
    assert Apply(s, Deliver(i, 0)).messages == Delivered(d.backlog + 1, i + 1).messages;
  }

  lemma Pushed(d: Load) returns (acts: seq<Action>)
    ensures PromptRun(d, INIT, acts) && End(d, INIT, acts) == Partly(d, d.backlog + 1, 0)
  {
    var n := d.backlog + 1;
    acts := Published(d, n);
    assert End(d, INIT, acts) == Delivered(n, 0);
    for i := 0 to n
      invariant PromptRun(d, INIT, acts) && End(d, INIT, acts) == Delivered(n, i)
    {
      DeliverNext(d, i);
      Then(d, INIT, acts, Deliver(i, 0));
      acts := acts + [Deliver(i, 0)];
    }
    assert Delivered(n, n) == Partly(d, n, 0);
  }

  /** handle has got as far as calling the database. */
  lemma Parsed(d: Load, s: State, h: nat) returns (acts: seq<Action>)
    requires h < |s.handlers| && s.handlers[h].phase.Buffered? && IsNext(s, h) && Good(s, s.handlers[h].msg)
    ensures PromptRun(d, s, acts)
    ensures End(d, s, acts)
         == s.(handlers := s.handlers[h := s.handlers[h].(startedAt := s.now, phase := Persisting)])
  {
    acts := [];
    Then(d, s, acts, Enter(h));
    acts := acts + [Enter(h)];
    Then(d, s, acts, CheckSignature(h));
    acts := acts + [CheckSignature(h)];
    Then(d, s, acts, Parse(h));
    acts := acts + [Parse(h)];
  }

  /** Call i has got as far as calling the database. */
  function Calling(d: Load, n: nat, i: nat): State
    requires i < n
  {
    var s := Partly(d, n, i);
    s.(handlers := s.handlers[i := s.handlers[i].(startedAt := s.now, phase := Persisting)])
  }

  lemma TakesDeadline(d: Load, n: nat, i: nat)
    requires i < n
    ensures Prompt(d, Calling(d, n, i), Tick(d.deadline))
  {
    var s := Calling(d, n, i);
    forall h | 0 <= h < n && !Finished(s.handlers[h]) ensures h == i || (h > i && !IsNext(s, h)) {
      if h > i {
        assert !Finished(s.handlers[i]);
      }
    }
  }

  lemma Acknowledges(d: Load, n: nat, i: nat) returns (acts: seq<Action>)
    requires i < n
    ensures PromptRun(d, Calling(d, n, i), acts) && End(d, Calling(d, n, i), acts) == Partly(d, n, i + 1)
  {
    var s := Calling(d, n, i);
    acts := [];
    TakesDeadline(d, n, i);
    Then(d, s, acts, Tick(d.deadline));
    acts := acts + [Tick(d.deadline)];
    Then(d, s, acts, Persist(i, true));
    acts := acts + [Persist(i, true)];
    Then(d, s, acts, Reply(i));
    acts := acts + [Reply(i)];
    assert (i + 1) * d.deadline == i * d.deadline + d.deadline;
    assert End(d, s, acts).messages == Partly(d, n, i + 1).messages;
    assert End(d, s, acts).handlers == Partly(d, n, i + 1).handlers;
    assert End(d, s, acts).scores == Partly(d, n, i + 1).scores;
  }

  /** The next call takes the whole deadline. */
  lemma ServeNext(d: Load, n: nat, i: nat) returns (acts: seq<Action>)
    requires i < n
    ensures PromptRun(d, Partly(d, n, i), acts) && End(d, Partly(d, n, i), acts) == Partly(d, n, i + 1)
  {
    acts := Parsed(d, Partly(d, n, i), i);
    var more := Acknowledges(d, n, i);
    RunAppend(d, Partly(d, n, i), acts, more);
    acts := acts + more;
  }

  /** All messages but the last are done, and it is the last one's turn. */
  lemma LastTurn(d: Load) returns (acts: seq<Action>)
    ensures PromptRun(d, INIT, acts) && End(d, INIT, acts) == Partly(d, d.backlog + 1, d.backlog)
  {
    acts := Pushed(d);
    for i := 0 to d.backlog
      invariant PromptRun(d, INIT, acts) && End(d, INIT, acts) == Partly(d, d.backlog + 1, i)
    {
      var more := ServeNext(d, d.backlog + 1, i);
      RunAppend(d, INIT, acts, more);
      acts := acts + more;
    }
  }

  /** The first instant at which the last message's turn has come and its ack wait is over. */
  function Meeting(d: Load): nat {
    if d.backlog * d.deadline < ACK_WAIT then ACK_WAIT else d.backlog * d.deadline
  }

  /** The last message was redelivered to subscription 1; both deliveries have got to the given phase. */
  function Both(d: Load, status: Status, phase: Phase, done: bool): State {
    State(Meeting(d),
          seq(d.backlog, _ => ACKED) + [Message(true, true, status, 2)],
          seq(d.backlog, k requires k >= 0 => Acknowledged(d, k))
          + [Handler(d.backlog, 0, 0, d.backlog * d.deadline, phase, done, done),
             Handler(d.backlog, 1, Meeting(d), Meeting(d), phase, done, done)],
          seq(d.backlog, k requires k >= 0 => k) + if done then [d.backlog, d.backlog] else [])
  }

  /** The last message is being handled, and its ack wait is over. */
  function Late(d: Load): State {
    State(Meeting(d), seq(d.backlog, _ => ACKED) + [SENT],
          seq(d.backlog, k requires k >= 0 => Acknowledged(d, k))
          + [Handler(d.backlog, 0, 0, d.backlog * d.deadline, Entered, false, false)],
          seq(d.backlog, k requires k >= 0 => k))
  }

  lemma RunsLate(d: Load) returns (acts: seq<Action>)
    requires (d.backlog + 1) * d.deadline >= ACK_WAIT
    ensures PromptRun(d, Partly(d, d.backlog + 1, d.backlog), acts)
    ensures End(d, Partly(d, d.backlog + 1, d.backlog), acts) == Late(d)
  {
    var s, b := Partly(d, d.backlog + 1, d.backlog), d.backlog;
    assert (b + 1) * d.deadline == b * d.deadline + d.deadline;
    acts := [];
    Then(d, s, acts, Enter(b));
    acts := acts + [Enter(b)];
    Then(d, s, acts, Tick(Meeting(d) - b * d.deadline));
    acts := acts + [Tick(Meeting(d) - b * d.deadline)];
  }

  lemma Redelivered(d: Load) returns (acts: seq<Action>)
    ensures PromptRun(d, Late(d), acts)
    ensures End(d, Late(d), acts) == Both(d, InFlight(Meeting(d)), Entered, false)
  {
    var s, b := Late(d), d.backlog;
    acts := [];
    CountNone(s.handlers, Unfinished(1));
    Then(d, s, acts, Deliver(b, 1));
    acts := acts + [Deliver(b, 1)];
    Then(d, s, acts, Enter(b + 1));
    acts := acts + [Enter(b + 1)];
  }

  lemma BothParse(d: Load) returns (acts: seq<Action>)
    ensures PromptRun(d, Both(d, InFlight(Meeting(d)), Entered, false), acts)
    ensures End(d, Both(d, InFlight(Meeting(d)), Entered, false), acts)
         == Both(d, InFlight(Meeting(d)), Persisting, false)
  {
    var s, b := Both(d, InFlight(Meeting(d)), Entered, false), d.backlog;
    acts := [];
    Then(d, s, acts, CheckSignature(b));
    acts := acts + [CheckSignature(b)];
    Then(d, s, acts, CheckSignature(b + 1));
    acts := acts + [CheckSignature(b + 1)];
    Then(d, s, acts, Parse(b));
    acts := acts + [Parse(b)];
    Then(d, s, acts, Parse(b + 1));
    acts := acts + [Parse(b + 1)];
  }

  lemma BothPersist(d: Load) returns (acts: seq<Action>)
    ensures PromptRun(d, Both(d, InFlight(Meeting(d)), Persisting, false), acts)
    ensures End(d, Both(d, InFlight(Meeting(d)), Persisting, false), acts) == Both(d, Acked, Acking, true)
  {
    var s, b := Both(d, InFlight(Meeting(d)), Persisting, false), d.backlog;
    acts := [];
    Then(d, s, acts, Persist(b, true));
    acts := acts + [Persist(b, true)];
    Then(d, s, acts, Persist(b + 1, true));
    acts := acts + [Persist(b + 1, true)];
    Then(d, s, acts, Reply(b));
    acts := acts + [Reply(b)];
    Then(d, s, acts, Reply(b + 1));
    acts := acts + [Reply(b + 1)];
  }

  lemma TwoRows(d: Load)
    ensures Count(Both(d, Acked, Acking, true).scores, RowOf(d.backlog)) == 2
  {
    var first: seq<nat> := seq(d.backlog, k requires k >= 0 => k);
    CountNone(first, RowOf(d.backlog));
    CountPush(first, d.backlog, RowOf(d.backlog));
    CountPush(first + [d.backlog], d.backlog, RowOf(d.backlog));
    assert first + [d.backlog] + [d.backlog] == Both(d, Acked, Acking, true).scores;
  }

  /**
   When backlog + 1 calls can take as long as the ack wait, a message at the end of the queue is
   redelivered to another replica and processed twice at once. Nothing crashes, every delivery ends in
   an ack, and the message leaves two rows.
   */
  lemma BacklogGivesTwoRows(d: Load) returns (acts: seq<Action>, more: seq<Action>)
    requires (d.backlog + 1) * d.deadline >= ACK_WAIT
    ensures PromptRun(d, INIT, acts) && !NeverTwoHandlers(End(d, INIT, acts))
    ensures PromptRun(d, INIT, acts + more)
    ensures var s := End(d, INIT, acts + more);
            && Good(s, d.backlog) && Count(s.scores, RowOf(d.backlog)) == 2
            && forall h | h in s.handlers :: h.phase.Acking?
  {
    acts := LastTurn(d);
    var late := RunsLate(d);
    RunAppend(d, INIT, acts, late);
    acts := acts + late;
    var race := Redelivered(d);
    RunAppend(d, INIT, acts, race);
    acts := acts + race;
    var both := Both(d, InFlight(Meeting(d)), Entered, false);
    assert Live(both.handlers[d.backlog]) && Live(both.handlers[d.backlog + 1]);
    more := BothParse(d);
    var rest := BothPersist(d);
    RunAppend(d, both, more, rest);
    more := more + rest;
    RunAppend(d, INIT, acts, more);
    TwoRows(d);
  }

  /**
   With prompt replicas, handle never runs twice at once for a message exactly when backlog + 1 calls
   always take less than the ack wait. For the 30 seconds of the code that means: only if no message
   is ever pushed to a subscription that is still busy.
   */
  lemma OneHandlerUnderLoadIff(d: Load)
    ensures (forall acts | PromptRun(d, INIT, acts) :: NeverTwoHandlers(End(d, INIT, acts)))
       <==> (d.backlog + 1) * d.deadline < 60_000
    ensures d.deadline == 30_000 ==> ((d.backlog + 1) * d.deadline < 60_000 <==> d.backlog == 0)
  {
    assert (d.backlog + 1) * d.deadline == d.backlog * d.deadline + d.deadline;
    if (d.backlog + 1) * d.deadline < ACK_WAIT {
      forall acts | PromptRun(d, INIT, acts) ensures NeverTwoHandlers(End(d, INIT, acts)) {
        PromptRunsAreBounded(d, INIT, acts);
        OneHandlerIff(Waits(d));
      }
    } else {
      var acts, more := BacklogGivesTwoRows(d);
    }
  }

  /** A signed, well-formed message has at most one row more than deliveries that were lost. */
  ghost predicate OneRow(s: State, m: nat) {
    Good(s, m) ==> Count(s.scores, RowOf(m)) <= Count(s.handlers, Crashes(m)) + 1
  }

  /** Without crashes no snapshot is stored twice, in any run of prompt replicas, under the same condition. */
  lemma OneRowUnderLoadIff(d: Load)
    ensures (forall acts, m: nat | PromptRun(d, INIT, acts) :: OneRow(End(d, INIT, acts), m))
       <==> (d.backlog + 1) * d.deadline < 60_000
  {
    assert (d.backlog + 1) * d.deadline == d.backlog * d.deadline + d.deadline;
    if (d.backlog + 1) * d.deadline < ACK_WAIT {
      forall acts, m: nat | PromptRun(d, INIT, acts) ensures OneRow(End(d, INIT, acts), m) {
        PromptRunsAreBounded(d, INIT, acts);
        if Good(End(d, INIT, acts), m) {
          DuplicatesNeedCrashes(Waits(d), acts, m);
        }
      }
    } else {
      var acts, more := BacklogGivesTwoRows(d);
      var s := End(d, INIT, acts + more);
      CountNone(s.handlers, Crashes(d.backlog));
      assert !OneRow(s, d.backlog);
    }
  }
}
