/**
 The per-tenant request limiter shared by all API replicas
 (backend/internal/api/middleware/ratelimit.go), as a state machine over every interleaving of
 clock reads, INCR steps, EXPIRE steps and decisions. Times are in seconds of one common clock, as
 exact as reals: nothing depends on how fine that clock ticks.
 */
module RateLimit {
  import opened Counting

  const LIMIT: nat := 1000
  const MINUTE: real := 60.0
  const TTL: real := 120.0

  type Time = t: real | 0.0 <= t

  /** The clock minute of an instant. */
  function Minute(t: Time): (m: nat)
    ensures m as real * MINUTE <= t < (m as real + 1.0) * MINUTE
  {
    (t / MINUTE).Floor
  }

  /** The Redis key of a tenant in one clock minute; RenderKeyInjective justifies the pair. */
  datatype Key = Key(tenant: string, minute: nat)

  /** The first instant of a key's minute. */
  function Opens(k: Key): Time {
    k.minute as real * MINUTE
  }

  /** A Redis counter; it has no expiry until the first EXPIRE reaches it. */
  datatype Entry = Entry(count: nat, expiry: Option<Time>)

  /**
   Stamped: the clock was read and the key is fixed. Counted: INCR ran. Replied: EXPIRE ran too and
   the pipeline returned. Done: the limiter decided. The number is incr.Val(): it is 0 when Redis
   could not be reached.
   */
  datatype Phase =
    | Stamped
    | Counted(count: nat)
    | Replied(count: nat)
    | Done(count: nat)
    | Bypassed

  /** stampedAt is the clock read that fixed the key; incrAt is the instant of the INCR, once it ran. */
  datatype Request = Request(tenant: string, stampedAt: Time, incrAt: Time, phase: Phase) {
    function Window(): Key {
      Key(tenant, Minute(stampedAt))
    }

    predicate Keyed() {
      !phase.Bypassed?
    }

    function Rank(): nat {
      if phase.Counted? || phase.Replied? || phase.Done? then phase.count else 0
    }
  }

  datatype State = State(now: Time, store: map<Key, Entry>, log: seq<Request>)

  datatype Action =
    | Tick(dt: Time)
    | Arrive(tenant: string)
    | Incr(i: nat)
    | Expire(i: nat)
    | Unreachable(i: nat)
    | Decide(i: nat)

  predicate Live(s: State, k: Key) {
    k in s.store && (s.store[k].expiry.None? || s.now < s.store[k].expiry.value)
  }

  function Value(s: State, k: Key): nat {
    if Live(s, k) then s.store[k].count else 0
  }

  /** maxDelay bounds the time between a request's clock read and its INCR at Redis. */
  predicate Enabled(maxDelay: Time, s: State, a: Action) {
    match a
    case Tick(_) => true
    case Arrive(_) => true
    case Incr(i) =>
      && i < |s.log|
      && s.log[i].phase.Stamped?
      && s.log[i].stampedAt <= s.now <= s.log[i].stampedAt + maxDelay
    case Expire(i) => i < |s.log| && s.log[i].phase.Counted?
    case Unreachable(i) => i < |s.log| && s.log[i].phase.Stamped?
    case Decide(i) => i < |s.log| && s.log[i].phase.Replied?
  }

  function Apply(maxDelay: Time, s: State, a: Action): State
    requires Enabled(maxDelay, s, a)
  {
    match a
    case Tick(dt) => s.(now := s.now + dt)
    case Arrive(tenant) =>
      s.(log := s.log + [Request(tenant, s.now, s.now, if tenant == "" then Bypassed else Stamped)])
    case Incr(i) =>
      var k := s.log[i].Window();
      var n := Value(s, k) + 1;
      var expiry := if Live(s, k) then s.store[k].expiry else None;
      s.(store := s.store[k := Entry(n, expiry)],
         log := s.log[i := s.log[i].(phase := Counted(n), incrAt := s.now)])
    case Expire(i) =>
      var k := s.log[i].Window();
      var log := s.log[i := s.log[i].(phase := Replied(s.log[i].phase.count))];
      if Live(s, k)
      then s.(store := s.store[k := s.store[k].(expiry := Some(s.now + TTL))], log := log)
      else s.(log := log)
    case Unreachable(i) => s.(log := s.log[i := s.log[i].(phase := Replied(0))])
    case Decide(i) => s.(log := s.log[i := s.log[i].(phase := Done(s.log[i].phase.count))])
  }

  ghost predicate ValidRun(maxDelay: Time, s: State, acts: seq<Action>)
    decreases |acts|
  {
    acts == [] || (Enabled(maxDelay, s, acts[0])
                   && ValidRun(maxDelay, Apply(maxDelay, s, acts[0]), acts[1..]))
  }

  ghost function Final(maxDelay: Time, s: State, acts: seq<Action>): State
    requires ValidRun(maxDelay, s, acts)
    decreases |acts|
  {
    if acts == [] then s else Final(maxDelay, Apply(maxDelay, s, acts[0]), acts[1..])
  }

  const INIT := State(0.0, map[], [])

  // ----- what is counted

  /** The limiter lets a request through unless the count it saw is above the limit. */
  predicate Admitted(r: Request) {
    r.phase.Bypassed? || (r.phase.Done? && !(r.phase.count > LIMIT))
  }

  ghost function Arrivals(k: Key): Request -> bool {
    (r: Request) => r.Keyed() && r.Window() == k
  }

  ghost function Ranked(k: Key): Request -> bool {
    (r: Request) => r.Keyed() && r.Window() == k && r.Rank() > 0
  }

  ghost function Within(k: Key, m: nat): Request -> bool {
    (r: Request) => r.Keyed() && r.Window() == k && 0 < r.Rank() <= m
  }

  ghost function Beyond(k: Key, m: nat): Request -> bool {
    (r: Request) => r.Keyed() && r.Window() == k && r.Rank() > m
  }

  ghost function WithinAfter(k: Key, n: nat): Request -> bool {
    (r: Request) => r.Keyed() && r.Window() == k && n < r.Rank() <= LIMIT
  }

  /** Let through without having been counted, because Redis did not answer. */
  ghost function FailOpen(k: Key): Request -> bool {
    (r: Request) => r.Keyed() && r.Window() == k && r.phase.Done? && r.phase.count == 0
  }

  ghost function Passed(k: Key): Request -> bool {
    (r: Request) => r.Keyed() && r.Window() == k && Admitted(r)
  }

  /** Let through by the counter, with a clock read in the given interval. */
  ghost function StampedBetween(tenant: string, from: Time, to: Time): Request -> bool {
    (r: Request) => r.Keyed() && r.tenant == tenant && from <= r.stampedAt < to && Admitted(r) && r.Rank() > 0
  }

  /** Let through by the counter, by an INCR in the given interval. */
  ghost function AdmittedBetween(tenant: string, from: Time, to: Time): Request -> bool {
    (r: Request) => r.Keyed() && r.tenant == tenant && from <= r.incrAt < to && Admitted(r) && r.Rank() > 0
  }

  /** What the counter lets through in the minute that starts at the given instant. */
  ghost function AdmittedIn(log: seq<Request>, tenant: string, from: Time): nat {
    Count(log, AdmittedBetween(tenant, from, from + MINUTE))
  }

  /** Let through after the request that the counter gave number n. */
  ghost function PassedAfter(k: Key, n: nat): Request -> bool {
    (r: Request) => r.Keyed() && r.Window() == k && Admitted(r) && r.Rank() > n
  }

  ghost function PassedByCounter(k: Key): Request -> bool {
    (r: Request) => r.Keyed() && r.Window() == k && Admitted(r) && r.Rank() > 0
  }

  // ----- the invariant

  ghost predicate RequestOk(maxDelay: Time, s: State, r: Request) {
    && r.stampedAt <= r.incrAt <= s.now
    && r.incrAt <= r.stampedAt + maxDelay
    && (r.tenant == "" <==> r.phase.Bypassed?)
  }

  /** The counts of a window: the counter numbers its requests 1, 2, 3, ... */
  ghost predicate CountsOk(s: State, k: Key) {
    && (s.now < Opens(k) + TTL ==> Value(s, k) == Count(s.log, Ranked(k)))
    && (forall m: nat :: Count(s.log, Within(k, m)) == Min(Count(s.log, Ranked(k)), m))
  }

  ghost predicate Inv(maxDelay: Time, s: State) {
    && (forall r | r in s.log :: RequestOk(maxDelay, s, r))
    && (forall k | k in s.store :: s.store[k].expiry.Some? ==>
                                     Opens(k) + TTL <= s.store[k].expiry.value)
    && (forall k: Key :: CountsOk(s, k))
  }

  lemma InvTick(maxDelay: Time, s: State, dt: Time)
    requires Inv(maxDelay, s)
    ensures Inv(maxDelay, s.(now := s.now + dt))
  {
    var s' := s.(now := s.now + dt);
    forall k: Key ensures CountsOk(s', k) {
      assert CountsOk(s, k);
      assert s'.now < Opens(k) + TTL ==> Live(s', k) == Live(s, k);
    }
    forall r | r in s'.log ensures RequestOk(maxDelay, s', r) {
      assert RequestOk(maxDelay, s, r);
    }
  }

  lemma CountsIncr(maxDelay: Time, s: State, i: nat, k: Key)
    requires maxDelay <= MINUTE && Inv(maxDelay, s) && Enabled(maxDelay, s, Incr(i))
    ensures CountsOk(Apply(maxDelay, s, Incr(i)), k)
  {
    var s' := Apply(maxDelay, s, Incr(i));
    var key := s.log[i].Window();
    assert CountsOk(s, k) && CountsOk(s, key);
    assert s.now < Opens(key) + TTL;
    CountUpdate(s.log, i, s'.log[i], Ranked(k));
    forall m: nat ensures Count(s'.log, Within(k, m)) == Min(Count(s'.log, Ranked(k)), m) {
      CountUpdate(s.log, i, s'.log[i], Within(k, m));
    }
    assert k != key ==> Value(s', k) == Value(s, k);
  }

  lemma InvIncr(maxDelay: Time, s: State, i: nat)
    requires maxDelay <= MINUTE && Inv(maxDelay, s) && Enabled(maxDelay, s, Incr(i))
    ensures Inv(maxDelay, Apply(maxDelay, s, Incr(i)))
  {
    var s' := Apply(maxDelay, s, Incr(i));
    assert CountsOk(s, s.log[i].Window());
    forall k: Key ensures CountsOk(s', k) {
      CountsIncr(maxDelay, s, i, k);
    }
    assert s.log[i] in s.log;
    forall r | r in s'.log ensures RequestOk(maxDelay, s', r) {
      assert r in s.log || r == s'.log[i];
    }
  }

  /** A step that changes no key, no number and no counter keeps the counts. */
  lemma CountsKept(s: State, s': State, k: Key)
    requires CountsOk(s, k) && s'.now == s.now && Value(s', k) == Value(s, k)
    requires Count(s'.log, Ranked(k)) == Count(s.log, Ranked(k))
    requires forall m: nat :: Count(s'.log, Within(k, m)) == Count(s.log, Within(k, m))
    ensures CountsOk(s', k)
  {
  }

  lemma InvArrive(maxDelay: Time, s: State, tenant: string)
    requires Inv(maxDelay, s)
    ensures Inv(maxDelay, Apply(maxDelay, s, Arrive(tenant)))
  {
    var s' := Apply(maxDelay, s, Arrive(tenant));
    var r := s'.log[|s.log|];
    forall k: Key ensures CountsOk(s', k) {
      CountPush(s.log, r, Ranked(k));
      forall m: nat ensures Count(s'.log, Within(k, m)) == Count(s.log, Within(k, m)) {
        CountPush(s.log, r, Within(k, m));
      }
      CountsKept(s, s', k);
    }
    forall q | q in s'.log ensures RequestOk(maxDelay, s', q) {
      assert q in s.log || q == r;
    }
  }

  lemma OtherKeepsCounters(maxDelay: Time, s: State, a: Action, k: Key)
    requires Enabled(maxDelay, s, a) && (a.Expire? || a.Unreachable? || a.Decide?)
    ensures Value(Apply(maxDelay, s, a), k) == Value(s, k)
  {
  }

  /** EXPIRE, a failed pipeline and the decision rewrite one log entry, but neither its key nor its number. */
  lemma InvOther(maxDelay: Time, s: State, a: Action)
    requires Inv(maxDelay, s) && Enabled(maxDelay, s, a) && (a.Expire? || a.Unreachable? || a.Decide?)
    ensures Inv(maxDelay, Apply(maxDelay, s, a))
  {
    var s' := Apply(maxDelay, s, a);
    var i := a.i;
    var r := s'.log[i];
    assert s.log[i] in s.log && RequestOk(maxDelay, s, s.log[i]);
    forall k: Key ensures CountsOk(s', k) {
      CountUpdate(s.log, i, r, Ranked(k));
      forall m: nat ensures Count(s'.log, Within(k, m)) == Count(s.log, Within(k, m)) {
        CountUpdate(s.log, i, r, Within(k, m));
      }
      OtherKeepsCounters(maxDelay, s, a, k);
      CountsKept(s, s', k);
    }
    forall q | q in s'.log ensures RequestOk(maxDelay, s', q) {
      assert q in s.log || q == r;
    }
  }

  lemma InvStep(maxDelay: Time, s: State, a: Action)
    requires maxDelay <= MINUTE && Inv(maxDelay, s) && Enabled(maxDelay, s, a)
    ensures Inv(maxDelay, Apply(maxDelay, s, a))
  {
    match a
    case Tick(dt) => InvTick(maxDelay, s, dt);
    case Arrive(tenant) => InvArrive(maxDelay, s, tenant);
    case Incr(i) => InvIncr(maxDelay, s, i);
    case _ => InvOther(maxDelay, s, a);
  }

  lemma {:induction false} InvRun(maxDelay: Time, s: State, acts: seq<Action>)
    requires maxDelay <= MINUTE && Inv(maxDelay, s) && ValidRun(maxDelay, s, acts)
    ensures Inv(maxDelay, Final(maxDelay, s, acts))
    decreases |acts|
  {
    if acts != [] {
      InvStep(maxDelay, s, acts[0]);
      InvRun(maxDelay, Apply(maxDelay, s, acts[0]), acts[1..]);
    }
  }

  lemma InvInit(maxDelay: Time)
    ensures Inv(maxDelay, INIT)
  {
    forall k: Key ensures CountsOk(INIT, k) {
      assert Count(INIT.log, Ranked(k)) == 0;
    }
  }

  lemma Reachable(maxDelay: Time, acts: seq<Action>)
    requires maxDelay <= MINUTE && ValidRun(maxDelay, INIT, acts)
    ensures Inv(maxDelay, Final(maxDelay, INIT, acts))
  {
    InvInit(maxDelay);
    InvRun(maxDelay, INIT, acts);
  }

  // ----- main results

  /** In every run, the counter lets at most 1000 requests of a tenant-minute through. */
  lemma NeverAboveLimit(maxDelay: Time, acts: seq<Action>, k: Key)
    requires maxDelay <= MINUTE && ValidRun(maxDelay, INIT, acts)
    ensures Count(Final(maxDelay, INIT, acts).log, PassedByCounter(k)) <= 1000
  {
    Reachable(maxDelay, acts);
    var s := Final(maxDelay, INIT, acts);
    assert CountsOk(s, k);
    CountMono(s.log, PassedByCounter(k), Within(k, LIMIT));
  }

  /**
   Once every request of a tenant-minute is decided, exactly min(counted arrivals, 1000) of them
   were let through, plus those that arrived while Redis was unreachable.
   */
  lemma ExactlyTheLimit(maxDelay: Time, acts: seq<Action>, k: Key)
    requires maxDelay <= MINUTE && ValidRun(maxDelay, INIT, acts)
    requires forall r | r in Final(maxDelay, INIT, acts).log && Arrivals(k)(r) :: r.phase.Done?
    ensures var log := Final(maxDelay, INIT, acts).log;
            var uncounted := Count(log, FailOpen(k));
            && uncounted <= Count(log, Arrivals(k))
            && Count(log, Passed(k)) == Min(Count(log, Arrivals(k)) - uncounted, 1000) + uncounted
  {
    Reachable(maxDelay, acts);
    var s := Final(maxDelay, INIT, acts);
    assert CountsOk(s, k);
    CountSplit(s.log, Arrivals(k), Ranked(k), FailOpen(k));
    CountSplit(s.log, Passed(k), Within(k, LIMIT), FailOpen(k));
  }

  /** Of the requests that read the clock within one minute, which overlaps two windows, at most 2000 pass. */
  lemma StampedInAMinute(maxDelay: Time, acts: seq<Action>, tenant: string, from: Time)
    requires maxDelay <= MINUTE && ValidRun(maxDelay, INIT, acts)
    ensures Count(Final(maxDelay, INIT, acts).log, StampedBetween(tenant, from, from + MINUTE)) <= 2000
  {
    var log := Final(maxDelay, INIT, acts).log;
    var k0, k1 := Key(tenant, Minute(from)), Key(tenant, Minute(from) + 1);
    NeverAboveLimit(maxDelay, acts, k0);
    NeverAboveLimit(maxDelay, acts, k1);
    CountCover(log, StampedBetween(tenant, from, from + MINUTE), PassedByCounter(k0), PassedByCounter(k1));
  }

  /**
   What passes the limiter within one minute read the clock in the minute before or in that minute,
   so it comes from at most three windows.
   */
  lemma AdmittedInAMinute(maxDelay: Time, acts: seq<Action>, tenant: string, from: Time)
    requires maxDelay <= MINUTE && ValidRun(maxDelay, INIT, acts)
    ensures AdmittedIn(Final(maxDelay, INIT, acts).log, tenant, from) <= 3000
  {
    Reachable(maxDelay, acts);
    var s := Final(maxDelay, INIT, acts);
    var q := Minute(from);
    var before, k0, k1 := Key(tenant, if q == 0 then 0 else q - 1), Key(tenant, q), Key(tenant, q + 1);
    NeverAboveLimit(maxDelay, acts, before);
    NeverAboveLimit(maxDelay, acts, k0);
    NeverAboveLimit(maxDelay, acts, k1);
    var recent := StampedBetween(tenant, Opens(k0), Opens(k1) + MINUTE);
    CountCover(s.log, recent, PassedByCounter(k0), PassedByCounter(k1));
    forall r | r in s.log && AdmittedBetween(tenant, from, from + MINUTE)(r)
      ensures PassedByCounter(before)(r) || recent(r)
    {
      assert RequestOk(maxDelay, s, r);
    }
    CountCover(s.log, AdmittedBetween(tenant, from, from + MINUTE), PassedByCounter(before), recent);
  }

  /** Without any delay an INCR happens at its clock read, and the three windows are two. */
  lemma PromptInAMinute(acts: seq<Action>, tenant: string, from: Time)
    requires ValidRun(0.0, INIT, acts)
    ensures AdmittedIn(Final(0.0, INIT, acts).log, tenant, from) <= 2000
  {
    Reachable(0.0, acts);
    var s := Final(0.0, INIT, acts);
    StampedInAMinute(0.0, acts, tenant, from);
    forall r | r in s.log && AdmittedBetween(tenant, from, from + MINUTE)(r)
      ensures StampedBetween(tenant, from, from + MINUTE)(r)
    {
      assert RequestOk(0.0, s, r);
    }
    CountMono(s.log, AdmittedBetween(tenant, from, from + MINUTE), StampedBetween(tenant, from, from + MINUTE));
  }

  /**
   A decided request of a tenant was refused exactly if the counter gave it a number above 1000: not
   when Redis could not be reached. Requests without a tenant bypass the counter.
   */
  lemma RefusedIff(maxDelay: Time, acts: seq<Action>, r: Request)
    requires maxDelay <= 60.0 && ValidRun(maxDelay, INIT, acts) && r in Final(maxDelay, INIT, acts).log
    ensures r.phase.Bypassed? <==> r.tenant == ""
    ensures r.phase.Done? ==> (!Admitted(r) <==> r.phase.count > 1000)
    ensures r.phase.Bypassed? ==> Admitted(r)
  {
    Reachable(maxDelay, acts);
    assert RequestOk(maxDelay, Final(maxDelay, INIT, acts), r);
  }

  lemma {:induction false} FailsOpen(maxDelay: Time, s: State, acts: seq<Action>, i: nat)
    requires ValidRun(maxDelay, s, acts) && i < |s.log| && s.log[i].phase in {Replied(0), Done(0)}
    ensures i < |Final(maxDelay, s, acts).log|
    ensures var r := Final(maxDelay, s, acts).log[i];
            && (r.phase == Replied(0) || (r.phase == Done(0) && Admitted(r)))
            && (s.log[i].phase == Done(0) || Decide(i) in acts ==> r.phase == Done(0))
    decreases |acts|
  {
    if acts != [] {
      assert acts == [acts[0]] + acts[1..];
      FailsOpen(maxDelay, Apply(maxDelay, s, acts[0]), acts[1..], i);
    }
  }

  /** A request that cannot reach Redis is let through, whatever else happens before it is decided. */
  lemma UnreachablePasses(maxDelay: Time, s: State, acts: seq<Action>, i: nat)
    requires ValidRun(maxDelay, s, [Unreachable(i)] + acts) && Decide(i) in acts
    ensures var end := Final(maxDelay, s, [Unreachable(i)] + acts); i < |end.log| && Admitted(end.log[i])
  {
    assert ([Unreachable(i)] + acts)[1..] == acts;
    FailsOpen(maxDelay, Apply(maxDelay, s, Unreachable(i)), acts, i);
  }

  /** Some request of the key has had its EXPIRE. */
  ghost predicate PipelineDone(s: State, k: Key) {
    exists r | r in s.log :: r.Keyed() && r.Window() == k && (r.phase.Replied? || r.phase.Done?) && r.Rank() > 0
  }

  ghost predicate ExpiryOk(s: State) {
    && (forall r | r in s.log && r.Keyed() && r.Rank() > 0 :: r.Window() in s.store)
    && (forall k | k in s.store && s.store[k].expiry.Some? :: s.store[k].expiry.value <= s.now + TTL)
    && (forall k: Key | PipelineDone(s, k) :: k in s.store && s.store[k].expiry.Some?)
  }

  lemma ExpiryIncr(maxDelay: Time, s: State, i: nat)
    requires maxDelay <= MINUTE && Inv(maxDelay, s) && ExpiryOk(s) && Enabled(maxDelay, s, Incr(i))
    ensures ExpiryOk(Apply(maxDelay, s, Incr(i)))
  {
    var s' := Apply(maxDelay, s, Incr(i));
    forall r | r in s'.log ensures r in s.log || r == s'.log[i] {}
    forall k: Key | PipelineDone(s', k) ensures k in s'.store && s'.store[k].expiry.Some? {
      var r :| r in s'.log && r.Keyed() && r.Window() == k && (r.phase.Replied? || r.phase.Done?) && r.Rank() > 0;
      assert r in s.log && PipelineDone(s, k);
    }
  }

  lemma ExpiryStep(maxDelay: Time, s: State, a: Action)
    requires maxDelay <= MINUTE && Inv(maxDelay, s) && ExpiryOk(s) && Enabled(maxDelay, s, a)
    ensures ExpiryOk(Apply(maxDelay, s, a))
  {
    var s' := Apply(maxDelay, s, a);
    match a
    case Incr(i) => ExpiryIncr(maxDelay, s, i);
    case Tick(_) =>
      assert forall k: Key :: PipelineDone(s', k) == PipelineDone(s, k);
    case Arrive(_) =>
      assert forall r | r in s'.log :: r in s.log || r.Rank() == 0;
      forall k: Key | PipelineDone(s', k) ensures PipelineDone(s, k) {
        var r :| r in s'.log && r.Keyed() && r.Window() == k && (r.phase.Replied? || r.phase.Done?) && r.Rank() > 0;
        assert r in s.log;
      }
    case _ => ExpiryOther(maxDelay, s, a);
  }

  lemma ExpiryOther(maxDelay: Time, s: State, a: Action)
    requires ExpiryOk(s) && Enabled(maxDelay, s, a) && (a.Expire? || a.Unreachable? || a.Decide?)
    ensures ExpiryOk(Apply(maxDelay, s, a))
  {
    var s' := Apply(maxDelay, s, a);
    var i := a.i;
    assert s.log[i] in s.log;
    forall r | r in s'.log ensures r in s.log || r == s'.log[i] {}
    forall k: Key | PipelineDone(s', k) ensures k in s'.store && s'.store[k].expiry.Some? {
      var r :| r in s'.log && r.Keyed() && r.Window() == k && (r.phase.Replied? || r.phase.Done?) && r.Rank() > 0;
      if r in s.log {
        assert PipelineDone(s, k);
      } else if a.Decide? {
        assert PipelineDone(s, k);
      }
    }
  }

  lemma {:induction false} ExpiryRun(maxDelay: Time, s: State, acts: seq<Action>)
    requires maxDelay <= MINUTE && Inv(maxDelay, s) && ExpiryOk(s) && ValidRun(maxDelay, s, acts)
    ensures ExpiryOk(Final(maxDelay, s, acts))
    decreases |acts|
  {
    if acts != [] {
      InvStep(maxDelay, s, acts[0]);
      ExpiryStep(maxDelay, s, acts[0]);
      ExpiryRun(maxDelay, Apply(maxDelay, s, acts[0]), acts[1..]);
    }
  }

  /** No counter stays behind: once any pipeline for its key is through, it expires within two minutes, for good. */
  lemma CountersExpire(maxDelay: Time, acts: seq<Action>, k: Key)
    requires maxDelay <= 60.0 && ValidRun(maxDelay, INIT, acts) && PipelineDone(Final(maxDelay, INIT, acts), k)
    ensures var s := Final(maxDelay, INIT, acts);
            k in s.store && s.store[k].expiry.Some? && s.store[k].expiry.value <= s.now + 120.0
  {
    InvInit(maxDelay);
    ExpiryRun(maxDelay, INIT, acts);
  }

  /** The X-RateLimit-Remaining header of a request that saw this count. */
  function RemainingHeader(count: nat): nat {
    if count < LIMIT then LIMIT - count else 0
  }

  lemma AtMostTheHeader(maxDelay: Time, s: State, k: Key, n: nat)
    requires Inv(maxDelay, s)
    ensures Count(s.log, PassedAfter(k, n)) <= RemainingHeader(n)
  {
    assert CountsOk(s, k);
    if n < LIMIT {
      CountSplit(s.log, Within(k, LIMIT), Within(k, n), WithinAfter(k, n));
      CountMono(s.log, PassedAfter(k, n), WithinAfter(k, n));
    } else {
      CountNone(s.log, PassedAfter(k, n));
    }
  }

  // ----- runs that reach the bounds

  lemma {:induction false} RunAppend(maxDelay: Time, s: State, a: seq<Action>, b: seq<Action>)
    requires ValidRun(maxDelay, s, a) && ValidRun(maxDelay, Final(maxDelay, s, a), b)
    ensures ValidRun(maxDelay, s, a + b)
    ensures Final(maxDelay, s, a + b) == Final(maxDelay, Final(maxDelay, s, a), b)
    decreases |a|
  {
    if a == [] {
      assert a + b == b;
    } else {
      assert (a + b)[0] == a[0] && (a + b)[1..] == a[1..] + b;
      RunAppend(maxDelay, Apply(maxDelay, s, a[0]), a[1..], b);
    }
  }

  lemma Then(maxDelay: Time, s: State, acts: seq<Action>, a: Action)
    requires ValidRun(maxDelay, s, acts) && Enabled(maxDelay, Final(maxDelay, s, acts), a)
    ensures ValidRun(maxDelay, s, acts + [a])
    ensures Final(maxDelay, s, acts + [a]) == Apply(maxDelay, Final(maxDelay, s, acts), a)
  {
    var mid := Final(maxDelay, s, acts);
    var next := Apply(maxDelay, mid, a);
    assert [a][1..] == [] && ValidRun(maxDelay, next, []) && Final(maxDelay, next, []) == next;
    assert ValidRun(maxDelay, mid, [a]) && Final(maxDelay, mid, [a]) == next;
    RunAppend(maxDelay, s, acts, [a]);
  }

  function Pending(tenant: string, at: Time, n: nat): seq<Request> {
    seq(n, _ => Request(tenant, at, at, Stamped))
  }

  /** n requests of the tenant arrive. */
  lemma ArriveRun(maxDelay: Time, s: State, tenant: string, n: nat) returns (acts: seq<Action>)
    requires tenant != ""
    ensures ValidRun(maxDelay, s, acts)
    ensures Final(maxDelay, s, acts) == s.(log := s.log + Pending(tenant, s.now, n))
  {
    acts := [];
    for i := 0 to n
      invariant ValidRun(maxDelay, s, acts)
      invariant Final(maxDelay, s, acts) == s.(log := s.log + Pending(tenant, s.now, i))
    {
      Then(maxDelay, s, acts, Arrive(tenant));
      acts := acts + [Arrive(tenant)];
    }
  }

  /** INCR, EXPIRE and decision of request i, which the counter gives number c + 1. */
  lemma FinishOne(maxDelay: Time, s: State, i: nat, c: nat) returns (acts: seq<Action>)
    requires i < |s.log| && Enabled(maxDelay, s, Incr(i)) && Value(s, s.log[i].Window()) == c
    ensures ValidRun(maxDelay, s, acts)
    ensures Final(maxDelay, s, acts)
         == State(s.now, s.store[s.log[i].Window() := Entry(c + 1, Some(s.now + TTL))],
                  s.log[i := s.log[i].(incrAt := s.now, phase := Done(c + 1))])
  {
    var k := s.log[i].Window();
    Then(maxDelay, s, [], Incr(i));
    acts := [] + [Incr(i)];
    var s1 := Final(maxDelay, s, acts);
    assert s1.log[i] == s.log[i].(incrAt := s.now, phase := Counted(c + 1)) && Live(s1, k);
    Then(maxDelay, s, acts, Expire(i));
    acts := acts + [Expire(i)];
    var s2 := Final(maxDelay, s, acts);
    assert s2.log[i] == s.log[i].(incrAt := s.now, phase := Replied(c + 1));
    Then(maxDelay, s, acts, Decide(i));
    acts := acts + [Decide(i)];
    assert s2.store == s.store[k := Entry(c + 1, Some(s.now + TTL))];
  }

  /** What a wave of requests leaves in the log: numbers c + 1, c + 2, ... */
  function Numbered(tenant: string, stampedAt: Time, incrAt: Time, c: nat, n: nat): (rs: seq<Request>)
    ensures |rs| == n
  {
    seq(n, i requires 0 <= i < n => Request(tenant, stampedAt, incrAt, Done(c + 1 + i)))
  }

  ghost predicate Waved(s: State, s': State, tenant: string, d: Time, c: nat, n: nat) {
    && s'.now == s.now + d
    && s'.log == s.log + Numbered(tenant, s.now, s.now + d, c, n)
    && s'.store == if n == 0 then s.store
                   else s.store[Key(tenant, Minute(s.now)) := Entry(c + n, Some(s.now + d + TTL))]
  }

  /** After i of n pending requests at the end of the log. */
  function Partly(s: State, log: seq<Request>, tenant: string, at: Time, c: nat, i: nat, n: nat): State
    requires i <= n
  {
    State(s.now,
          if i == 0 then s.store else s.store[Key(tenant, Minute(at)) := Entry(c + i, Some(s.now + TTL))],
          log + Numbered(tenant, at, s.now, c, i) + Pending(tenant, at, n - i))
  }

  lemma PartlyNext(maxDelay: Time, s: State, log: seq<Request>, tenant: string, at: Time, c: nat, i: nat, n: nat)
    returns (acts: seq<Action>)
    requires i < n && at <= s.now <= at + maxDelay && Value(s, Key(tenant, Minute(at))) == c
    ensures var mid := Partly(s, log, tenant, at, c, i, n);
            ValidRun(maxDelay, mid, acts) && Final(maxDelay, mid, acts) == Partly(s, log, tenant, at, c, i + 1, n)
  {
    var mid, next := Partly(s, log, tenant, at, c, i, n), Partly(s, log, tenant, at, c, i + 1, n);
    var j := |log| + i;
    assert mid.log[j] == Request(tenant, at, at, Stamped);
    acts := FinishOne(maxDelay, mid, j, c + i);
    assert mid.log[j := Request(tenant, at, s.now, Done(c + i + 1))] == next.log;
  }

  lemma FinishRun(maxDelay: Time, s: State, log: seq<Request>, tenant: string, at: Time, c: nat, n: nat)
    returns (acts: seq<Action>)
    requires s.log == log + Pending(tenant, at, n)
    requires at <= s.now <= at + maxDelay && Value(s, Key(tenant, Minute(at))) == c
    ensures ValidRun(maxDelay, s, acts)
    ensures Final(maxDelay, s, acts) == Partly(s, log, tenant, at, c, n, n)
  {
    acts := [];
    assert log + [] == log;
    for i := 0 to n
      invariant ValidRun(maxDelay, s, acts)
      invariant Final(maxDelay, s, acts) == Partly(s, log, tenant, at, c, i, n)
    {
      var more := PartlyNext(maxDelay, s, log, tenant, at, c, i, n);
      RunAppend(maxDelay, s, acts, more);
      acts := acts + more;
    }
  }

  /**
   n requests read the clock at the present instant, and their INCRs run d seconds later, when
   the counter of their window stands at c.
   */
  lemma WaveRun(maxDelay: Time, s: State, tenant: string, d: Time, c: nat, n: nat)
    returns (acts: seq<Action>)
    requires tenant != "" && d <= maxDelay && Value(s.(now := s.now + d), Key(tenant, Minute(s.now))) == c
    ensures ValidRun(maxDelay, s, acts) && Waved(s, Final(maxDelay, s, acts), tenant, d, c, n)
  {
    acts := ArriveRun(maxDelay, s, tenant, n);
    Then(maxDelay, s, acts, Tick(d));
    acts := acts + [Tick(d)];
    var more := FinishRun(maxDelay, Final(maxDelay, s, acts), s.log, tenant, s.now, c, n);
    RunAppend(maxDelay, s, acts, more);
    acts := acts + more;
  }

  /** The same, as a continuation of a run, after a pause. */
  lemma ThenWave(maxDelay: Time, s: State, acts: seq<Action>, pause: Time, tenant: string, d: Time, c: nat, n: nat)
    returns (acts': seq<Action>)
    requires ValidRun(maxDelay, s, acts) && tenant != "" && d <= maxDelay
    requires var mid := Final(maxDelay, s, acts);
             Value(mid.(now := mid.now + pause + d), Key(tenant, Minute(mid.now + pause))) == c
    ensures ValidRun(maxDelay, s, acts')
    ensures var mid := Final(maxDelay, s, acts);
            Waved(mid.(now := mid.now + pause), Final(maxDelay, s, acts'), tenant, d, c, n)
  {
    Then(maxDelay, s, acts, Tick(pause));
    var more := WaveRun(maxDelay, Final(maxDelay, s, acts + [Tick(pause)]), tenant, d, c, n);
    RunAppend(maxDelay, s, acts + [Tick(pause)], more);
    acts' := acts + [Tick(pause)] + more;
  }

  /** If p holds of the whole wave, its count grows by the size of the wave. */
  lemma CountWave(log: seq<Request>, tenant: string, at: Time, incrAt: Time, c: nat, n: nat, p: Request -> bool)
    requires forall i | c < i <= c + n :: p(Request(tenant, at, incrAt, Done(i)))
    ensures Count(log + Numbered(tenant, at, incrAt, c, n), p) == Count(log, p) + n
  {
    CountAll(Numbered(tenant, at, incrAt, c, n), p);
    CountAppend(log, Numbered(tenant, at, incrAt, c, n), p);
  }

  /** A window's worth of requests at one instant of the first minute. */
  lemma FullWindow(maxDelay: Time, tenant: string, at: Time) returns (acts: seq<Action>)
    requires tenant != "" && at < MINUTE
    ensures ValidRun(maxDelay, INIT, acts)
    ensures Final(maxDelay, INIT, acts)
         == State(at, map[Key(tenant, 0) := Entry(LIMIT, Some(at + TTL))], Numbered(tenant, at, at, 0, LIMIT))
  {
    assert Minute(at) == 0;
    acts := ThenWave(maxDelay, INIT, [], at, tenant, 0.0, 0, LIMIT);
    assert [] + Numbered(tenant, at, at, 0, LIMIT) == Numbered(tenant, at, at, 0, LIMIT);
  }

  /** Some run lets 2000 requests through within any span, however short, around a full minute. */
  lemma TwiceIsReached(maxDelay: Time, tenant: string, span: Time) returns (acts: seq<Action>)
    requires tenant != "" && 0.0 < span <= MINUTE
    ensures ValidRun(maxDelay, INIT, acts)
    ensures Count(Final(maxDelay, INIT, acts).log, AdmittedBetween(tenant, MINUTE - span / 2.0, MINUTE + span / 2.0))
         == 2000
  {
    var first := MINUTE - span / 2.0;
    var p := AdmittedBetween(tenant, first, MINUTE + span / 2.0);
    acts := FullWindow(maxDelay, tenant, first);
    CountAll(Numbered(tenant, first, first, 0, LIMIT), p);
    assert Minute(MINUTE) == 1;
    acts := ThenWave(maxDelay, INIT, acts, span / 2.0, tenant, 0.0, 0, LIMIT);
    CountWave(Numbered(tenant, first, first, 0, LIMIT), tenant, MINUTE, MINUTE, 0, LIMIT, p);
  }

  /** A window's worth of requests that read the clock e before the full minute is counted e after it. */
  lemma OneWindowLate(maxDelay: Time, tenant: string, e: Time) returns (acts: seq<Action>)
    requires tenant != "" && 0.0 < e < MINUTE && 2.0 * e <= maxDelay
    ensures ValidRun(maxDelay, INIT, acts)
    ensures var s := Final(maxDelay, INIT, acts);
            && s.now == MINUTE + e && s.store.Keys == {Key(tenant, 0)}
            && AdmittedIn(s.log, tenant, MINUTE + e) == LIMIT
  {
    acts := ThenWave(maxDelay, INIT, [], MINUTE - e, tenant, 2.0 * e, 0, LIMIT);
    CountWave([], tenant, MINUTE - e, MINUTE + e, 0, LIMIT, AdmittedBetween(tenant, MINUTE + e, MINUTE + e + MINUTE));
  }

  /** At the same instant a window's worth of requests of the next minute is counted. */
  lemma TwoWindowsAtOnce(maxDelay: Time, tenant: string, e: Time) returns (acts: seq<Action>)
    requires tenant != "" && 0.0 < e < MINUTE && 2.0 * e <= maxDelay
    ensures ValidRun(maxDelay, INIT, acts)
    ensures var s := Final(maxDelay, INIT, acts);
            && s.now == MINUTE + e && s.store.Keys == {Key(tenant, 0), Key(tenant, 1)}
            && AdmittedIn(s.log, tenant, MINUTE + e) == 2 * LIMIT
  {
    acts := OneWindowLate(maxDelay, tenant, e);
    var log := Final(maxDelay, INIT, acts).log;
    acts := ThenWave(maxDelay, INIT, acts, 0.0, tenant, 0.0, 0, LIMIT);
    CountWave(log, tenant, MINUTE + e, MINUTE + e, 0, LIMIT,
              AdmittedBetween(tenant, MINUTE + e, MINUTE + e + MINUTE));
  }

  /** However small the delay of INCRs may be, it lets a third window's requests in. */
  lemma ThriceIsReached(maxDelay: Time, tenant: string) returns (acts: seq<Action>, from: Time)
    requires tenant != "" && maxDelay > 0.0
    ensures ValidRun(maxDelay, INIT, acts)
    ensures AdmittedIn(Final(maxDelay, INIT, acts).log, tenant, from) == 3000
  {
    var e: Time := if maxDelay <= MINUTE then maxDelay / 2.0 else 1.0;
    from := MINUTE + e;
    acts := TwoWindowsAtOnce(maxDelay, tenant, e);
    var log := Final(maxDelay, INIT, acts).log;
    acts := ThenWave(maxDelay, INIT, acts, MINUTE - e, tenant, 0.0, 0, LIMIT);
    CountWave(log, tenant, 2.0 * MINUTE, 2.0 * MINUTE, 0, LIMIT, AdmittedBetween(tenant, from, from + MINUTE));
  }

  /**
   In every run every interval of one minute admits at most twice the limit, exactly when no time at
   all passes between a clock read and its INCR.
   */
  lemma TwiceHoldsIff(maxDelay: Time)
    ensures (forall acts, tenant: string, from: Time | ValidRun(maxDelay, INIT, acts) ::
               AdmittedIn(Final(maxDelay, INIT, acts).log, tenant, from) <= 2000)
       <==> maxDelay == 0.0
  {
    if maxDelay == 0.0 {
      forall acts, tenant: string, from: Time | ValidRun(maxDelay, INIT, acts)
        ensures AdmittedIn(Final(maxDelay, INIT, acts).log, tenant, from) <= 2000
      {
        PromptInAMinute(acts, tenant, from);
      }
    } else {
      var acts, from := ThriceIsReached(maxDelay, "t");
      assert AdmittedIn(Final(maxDelay, INIT, acts).log, "t", from) > 2 * LIMIT;
    }
  }

  /** While the minute lasts, the tenant can use up what is left of the window. */
  lemma RemainderIsUsable(maxDelay: Time, s: State, k: Key, n: nat) returns (more: seq<Action>)
    requires maxDelay <= MINUTE && Inv(maxDelay, s) && k.tenant != ""
    requires Minute(s.now) == k.minute && Value(s, k) == n
    ensures ValidRun(maxDelay, s, more)
    ensures Count(Final(maxDelay, s, more).log, PassedAfter(k, n)) == RemainingHeader(n)
  {
    assert CountsOk(s, k);
    var left := RemainingHeader(n);
    CountSplit(s.log, Ranked(k), Within(k, n), Beyond(k, n));
    CountMono(s.log, PassedAfter(k, n), Beyond(k, n));
    more := WaveRun(maxDelay, s, k.tenant, 0.0, n, left);
    CountWave(s.log, k.tenant, s.now, s.now, n, left, PassedAfter(k, n));
  }

  /**
   The header of a request, at its INCR: in no continuation does the counter let more requests of the
   tenant-minute through after this one, and while the minute lasts some continuation lets exactly
   that many through.
   */
  lemma HeaderIsWhatIsLeft(maxDelay: Time, acts: seq<Action>, i: nat)
    requires maxDelay <= MINUTE && ValidRun(maxDelay, INIT, acts)
    requires Enabled(maxDelay, Final(maxDelay, INIT, acts), Incr(i))
    ensures var s := Apply(maxDelay, Final(maxDelay, INIT, acts), Incr(i));
            var k, n := s.log[i].Window(), s.log[i].Rank();
            && n > 0
            && (forall more | ValidRun(maxDelay, s, more) ::
                  Count(Final(maxDelay, s, more).log, PassedAfter(k, n)) <= RemainingHeader(n))
            && (Minute(s.now) == k.minute ==>
                  exists more | ValidRun(maxDelay, s, more) ::
                    Count(Final(maxDelay, s, more).log, PassedAfter(k, n)) == RemainingHeader(n))
  {
    Reachable(maxDelay, acts);
    InvStep(maxDelay, Final(maxDelay, INIT, acts), Incr(i));
    var s := Apply(maxDelay, Final(maxDelay, INIT, acts), Incr(i));
    var k, n := s.log[i].Window(), s.log[i].Rank();
    forall more | ValidRun(maxDelay, s, more)
      ensures Count(Final(maxDelay, s, more).log, PassedAfter(k, n)) <= RemainingHeader(n)
    {
      InvRun(maxDelay, s, more);
      AtMostTheHeader(maxDelay, Final(maxDelay, s, more), k, n);
    }
    assert s.log[i] in s.log && RequestOk(maxDelay, s, s.log[i]);
    if Minute(s.now) == k.minute {
      var more := RemainderIsUsable(maxDelay, s, k, n);
    }
  }

  /** An INCR more than a minute after its clock read can meet an expired counter. */
  lemma LateIncrBreaksTheLimit(maxDelay: Time, tenant: string) returns (acts: seq<Action>)
    requires maxDelay > MINUTE && tenant != ""
    ensures ValidRun(maxDelay, INIT, acts)
    ensures Count(Final(maxDelay, INIT, acts).log, PassedByCounter(Key(tenant, 0))) == 1001
  {
    acts := FullWindow(maxDelay, tenant, 0.0);
    var s := Final(maxDelay, INIT, acts);
    CountAll(s.log, PassedByCounter(Key(tenant, 0)));
    var late: Time := if maxDelay <= TTL then maxDelay - MINUTE else MINUTE;
    assert Minute(MINUTE - late) == 0;
    assert !Live(s.(now := TTL), Key(tenant, 0));
    acts := ThenWave(maxDelay, INIT, acts, MINUTE - late, tenant, MINUTE + late, 0, 1);
    CountWave(s.log, tenant, MINUTE - late, TTL, 0, 1, PassedByCounter(Key(tenant, 0)));
  }

  /** The limit holds in every run exactly when no INCR is more than a minute behind its clock read. */
  lemma LimitHoldsIff(maxDelay: Time)
    ensures (forall acts, k: Key | ValidRun(maxDelay, INIT, acts) ::
               Count(Final(maxDelay, INIT, acts).log, PassedByCounter(k)) <= 1000)
       <==> maxDelay <= 60.0
  {
    if maxDelay <= MINUTE {
      forall acts, k: Key | ValidRun(maxDelay, INIT, acts)
        ensures Count(Final(maxDelay, INIT, acts).log, PassedByCounter(k)) <= 1000
      {
        NeverAboveLimit(maxDelay, acts, k);
      }
    } else {
      var acts := LateIncrBreaksTheLimit(maxDelay, "t");
      assert Count(Final(maxDelay, INIT, acts).log, PassedByCounter(Key("t", 0))) > LIMIT;
    }
  }

  // ----- the rendered key

  const DIGITS := "0123456789"

  /** n in decimal, zero-padded to w digits. */
  function Pad(n: nat, w: nat): (s: string)
    ensures |s| == w
  {
    if w == 0 then "" else Pad(n / 10, w - 1) + [DIGITS[n % 10]]
  }

  function Power10(w: nat): nat {
    if w == 0 then 1 else 10 * Power10(w - 1)
  }

  lemma {:induction false} PadInjective(m: nat, n: nat, w: nat)
    requires m < Power10(w) && n < Power10(w) && Pad(m, w) == Pad(n, w)
    ensures m == n
  {
    if w > 0 {
      var a, b := Pad(m, w), Pad(n, w);
      assert a[..w - 1] == Pad(m / 10, w - 1) && b[..w - 1] == Pad(n / 10, w - 1);
      PadInjective(m / 10, n / 10, w - 1);
      assert a[w - 1] == DIGITS[m % 10] && b[w - 1] == DIGITS[n % 10];
    }
  }

  /** A clock minute as the limiter's clock shows it. */
  datatype CivilMinute = CivilMinute(year: nat, month: nat, day: nat, hour: nat, minute: nat)

  predicate InCalendar(t: CivilMinute) {
    t.year < 10000 && t.month <= 12 && t.day <= 31 && t.hour < 24 && t.minute < 60
  }

  /** Go's layout 200601021504 */
  function Stamp(t: CivilMinute): (s: string)
    ensures |s| == 12
  {
    Pad(t.year, 4) + Pad(t.month, 2) + Pad(t.day, 2) + Pad(t.hour, 2) + Pad(t.minute, 2)
  }

  lemma StampInjective(t: CivilMinute, u: CivilMinute)
    requires InCalendar(t) && InCalendar(u) && Stamp(t) == Stamp(u)
    ensures t == u
  {
    var a, b := Stamp(t), Stamp(u);
    assert Power10(2) == 100 && Power10(4) == 10000;
    assert a[..4] == Pad(t.year, 4) && b[..4] == Pad(u.year, 4);
    assert a[4..6] == Pad(t.month, 2) && b[4..6] == Pad(u.month, 2);
    assert a[6..8] == Pad(t.day, 2) && b[6..8] == Pad(u.day, 2);
    assert a[8..10] == Pad(t.hour, 2) && b[8..10] == Pad(u.hour, 2);
    assert a[10..] == Pad(t.minute, 2) && b[10..] == Pad(u.minute, 2);
    PadInjective(t.year, u.year, 4);
    PadInjective(t.month, u.month, 2);
    PadInjective(t.day, u.day, 2);
    PadInjective(t.hour, u.hour, 2);
    PadInjective(t.minute, u.minute, 2);
  }

  /** The key as Redis sees it. */
  function RenderKey(tenant: string, t: CivilMinute): string {
    "rl:tenant:" + tenant + ":" + Stamp(t)
  }

  /** Distinct (tenant, minute) pairs have distinct keys, whatever characters the tenant id has. */
  lemma RenderKeyInjective(t0: string, m0: CivilMinute, t1: string, m1: CivilMinute)
    requires InCalendar(m0) && InCalendar(m1)
    requires RenderKey(t0, m0) == RenderKey(t1, m1)
    ensures t0 == t1 && m0 == m1
  {
    var p := "rl:tenant:";
    var a, b := RenderKey(t0, m0), RenderKey(t1, m1);
    assert |t0| == |t1|;
    assert Stamp(m0) == a[|p| + |t0| + 1..] && Stamp(m1) == b[|p| + |t1| + 1..];
    assert t0 == a[|p|..|p| + |t0|] && t1 == b[|p|..|p| + |t1|];
    StampInjective(m0, m1);
  }
}
