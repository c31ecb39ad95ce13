/**
 The 30-second read-through cache in front of the latest score of a cluster
 (backend/internal/api/handlers/score.go), racing with the workers that insert scores. Requests,
 inserts and the clock interleave freely; times are in milliseconds.
 */
module ScoreCache {
  import opened Counting

  const TTL: nat := 30_000

  /** A row of green_scores: its timestamp is the inserting worker's clock, read before the commit. */
  datatype Row = Row(time: nat, cluster: string, score: real)

  datatype Entry = Entry(score: real, expiry: nat)

  /**
   Begun: nothing read yet. Missed: the cache gave nothing usable. Fetched: a row was read, at the
   given instant. Stored: the cache write is done or has failed. Answered: score and instant.
   Waiting: the reply "no scan yet".
   */
  datatype Phase =
    | Begun
    | Missed
    | Fetched(score: real, readAt: nat)
    | Stored(score: real, readAt: nat)
    | Answered(score: real, at: nat)
    | Waiting

  datatype Request = Request(tenant: string, cluster: string, phase: Phase)

  datatype State = State(now: nat, rows: seq<Row>, cache: map<string, Entry>, log: seq<Request>)

  /** Hit and Miss are the two outcomes of the cache read; a Redis error is a Miss at any time. */
  datatype Action =
    | Tick(ms: nat)
    | Insert(row: Row)
    | Begin(tenant: string, cluster: string)
    | Hit(i: nat)
    | Miss(i: nat)
    | Fetch(i: nat, row: Row)
    | FetchFails(i: nat)
    | Store(i: nat)
    | StoreFails(i: nat)
    | Answer(i: nat)

  /**
   latency bounds the time between reading a row and using it, for the cache or the reply. tenants are
   the tenant ids that requests carry. ids are the cluster ids that rows can have (UUIDs, by
   backend/migrations/004_scores.sql:4); a request may name any cluster.
   */
  datatype Config = Config(latency: nat, tenants: set<string>, ids: iset<string>)

  function CacheKey(tenant: string, cluster: string): string {
    "tenant:" + tenant + ":score:" + cluster
  }

  /** What comes before the cluster id in a key, up to the common prefix of all keys. */
  function Head(tenant: string): string {
    tenant + ":score:"
  }

  /** One tenant's keys can be read as another's: up to the separator, one id is a prefix of the other. */
  predicate CanClash(t0: string, t1: string) {
    t0 != t1 && (Head(t0) <= Head(t1) || Head(t1) <= Head(t0))
  }

  ghost predicate ClashFree(tenants: set<string>) {
    forall t0, t1 | t0 in tenants && t1 in tenants :: !CanClash(t0, t1)
  }

  /** For some row that t1 may cache, t can send a request with the same key. */
  ghost predicate Exposed(cfg: Config, t: string, t1: string) {
    t != t1 && exists c :: c in cfg.ids && Head(t) <= Head(t1) + c
  }

  /** No other tenant can make t read a foreign score. */
  ghost predicate Safe(cfg: Config, t: string) {
    forall t1 | t1 in cfg.tenants :: !Exposed(cfg, t, t1)
  }

  ghost predicate ColonFree(s: string) {
    ':' !in s
  }

  /** The row a query ordered by time, newest first, limited to one, may return. */
  ghost predicate IsLatest(rows: seq<Row>, row: Row) {
    row in rows && forall r | r in rows && r.cluster == row.cluster :: r.time <= row.time
  }

  ghost predicate LatestScore(rows: seq<Row>, cluster: string, score: real) {
    exists row | row in rows :: row.cluster == cluster && row.score == score && IsLatest(rows, row)
  }

  predicate Live(s: State, key: string) {
    key in s.cache && s.now < s.cache[key].expiry
  }

  function KeyOf(r: Request): string {
    CacheKey(r.tenant, r.cluster)
  }

  ghost predicate Enabled(cfg: Config, s: State, a: Action) {
    match a
    case Tick(_) => true
    case Insert(row) => row.time <= s.now && row.cluster in cfg.ids
    case Begin(tenant, _) => tenant in cfg.tenants
    case Hit(i) => i < |s.log| && s.log[i].phase.Begun? && Live(s, KeyOf(s.log[i]))
    case Miss(i) => i < |s.log| && s.log[i].phase.Begun?
    case Fetch(i, row) =>
      && i < |s.log|
      && s.log[i].phase.Missed?
      && row.cluster == s.log[i].cluster
      && IsLatest(s.rows, row)
    case FetchFails(i) => i < |s.log| && s.log[i].phase.Missed?
    case Store(i) =>
      i < |s.log| && s.log[i].phase.Fetched? && s.now <= s.log[i].phase.readAt + cfg.latency
    case StoreFails(i) => i < |s.log| && s.log[i].phase.Fetched?
    case Answer(i) =>
      i < |s.log| && s.log[i].phase.Stored? && s.now <= s.log[i].phase.readAt + cfg.latency
  }

  ghost function Move(s: State, i: nat, phase: Phase): State
    requires i < |s.log|
  {
    s.(log := s.log[i := s.log[i].(phase := phase)])
  }

  ghost function Apply(cfg: Config, s: State, a: Action): State
    requires Enabled(cfg, s, a)
  {
    match a
    case Tick(ms) => s.(now := s.now + ms)
    case Insert(row) => s.(rows := s.rows + [row])
    case Begin(tenant, cluster) => s.(log := s.log + [Request(tenant, cluster, Begun)])
    case Hit(i) => Move(s, i, Answered(s.cache[KeyOf(s.log[i])].score, s.now))
    case Miss(i) => Move(s, i, Missed)
    case Fetch(i, row) => Move(s, i, Fetched(row.score, s.now))
    case FetchFails(i) => Move(s, i, Waiting)
    case Store(i) =>
      var p := s.log[i].phase;
      Move(s, i, Stored(p.score, p.readAt))
      .(cache := s.cache[KeyOf(s.log[i]) := Entry(p.score, s.now + TTL)])
    case StoreFails(i) =>
      var p := s.log[i].phase;
      Move(s, i, Stored(p.score, p.readAt))
    case Answer(i) => Move(s, i, Answered(s.log[i].phase.score, s.now))
  }

  const INIT := State(0, [], map[], [])

  /** A run, as the sequence of its states. */
  ghost predicate IsTrace(cfg: Config, tr: seq<State>) {
    && tr != []
    && tr[0] == INIT
    && forall n | 0 < n < |tr| :: StepBetween(cfg, tr[n - 1], tr[n])
  }

  ghost predicate StepBetween(cfg: Config, s: State, s': State) {
    exists a :: Enabled(cfg, s, a) && s' == Apply(cfg, s, a)
  }

  /** At some instant of the run between lo and hi, score was the latest score of the cluster. */
  ghost predicate WasLatest(tr: seq<State>, cluster: string, score: real, lo: int, hi: int) {
    exists n | 0 <= n < |tr| :: lo <= tr[n].now <= hi && LatestScore(tr[n].rows, cluster, score)
  }

  // ----- the invariant

  /** What t finds in the cache was its own cluster's latest score not long ago. */
  ghost predicate CacheFresh(cfg: Config, tr: seq<State>, s: State, t: string) {
    forall cluster | CacheKey(t, cluster) in s.cache ::
      var e := s.cache[CacheKey(t, cluster)];
      WasLatest(tr, cluster, e.score, e.expiry - TTL - cfg.latency, s.now)
  }

  ghost predicate RequestFresh(cfg: Config, tr: seq<State>, s: State, t: string, r: Request) {
    && r.tenant in cfg.tenants
    && match r.phase
       case Fetched(score, readAt) =>
         readAt <= s.now && r.cluster in cfg.ids && WasLatest(tr, r.cluster, score, readAt, readAt)
       case Stored(score, readAt) =>
         readAt <= s.now && WasLatest(tr, r.cluster, score, readAt, readAt)
       case Answered(score, at) => r.tenant == t ==> WasLatest(tr, r.cluster, score, at - (TTL - 1) - cfg.latency, at)
       case _ => true
  }

  ghost predicate Inv(cfg: Config, tr: seq<State>, s: State, t: string) {
    && CacheFresh(cfg, tr, s, t)
    && (forall r | r in s.log :: RequestFresh(cfg, tr, s, t, r))
    && (forall row | row in s.rows :: row.cluster in cfg.ids)
  }

  /** Equal keys: either both ids are equal, or neither is and the tenants clash. */
  lemma EqualKeys(t0: string, c0: string, t1: string, c1: string)
    requires CacheKey(t0, c0) == CacheKey(t1, c1)
    ensures (t0 == t1 && c0 == c1) || (CanClash(t0, t1) && c0 != c1)
  {
    var h0, h1 := Head(t0), Head(t1);
    var k := CacheKey(t0, c0)[7..];
    assert k == h0 + c0 && k == h1 + c1;
    assert h0 == k[..|h0|] && h1 == k[..|h1|];
    assert t0 == h0[..|t0|] && t1 == h1[..|t1|];
    assert c0 == k[|h0|..] && c1 == k[|h1|..];
    if |h0| <= |h1| {
      assert h0 <= h1;
    } else {
      assert h1 <= h0;
    }
  }

  /** Two clashing tenants have clusters that share a key. */
  lemma ClashingKeys(t0: string, t1: string) returns (c0: string, c1: string)
    requires CanClash(t0, t1)
    ensures CacheKey(t0, c0) == CacheKey(t1, c1) && c0 != c1
  {
    var h0, h1 := Head(t0), Head(t1);
    if h0 <= h1 {
      c0, c1 := h1[|h0|..], "";
      assert h1 == h0 + c0;
    } else {
      c0, c1 := "", h0[|h1|..];
      assert h0 == h1 + c1;
    }
    assert CacheKey(t0, c0) == "tenant:" + (h0 + c0) && CacheKey(t1, c1) == "tenant:" + (h1 + c1);
    EqualKeys(t0, c0, t1, c1);
  }

  /** Different (tenant, cluster) pairs of two tenants can share a key exactly when the tenants clash. */
  lemma CacheKeyClashIff(t0: string, t1: string)
    ensures (exists c0, c1 :: CacheKey(t0, c0) == CacheKey(t1, c1) && (t0, c0) != (t1, c1)) <==> CanClash(t0, t1)
  {
    if CanClash(t0, t1) {
      var c0, c1 := ClashingKeys(t0, t1);
    }
    forall c0, c1 | CacheKey(t0, c0) == CacheKey(t1, c1) && (t0, c0) != (t1, c1) ensures CanClash(t0, t1) {
      EqualKeys(t0, c0, t1, c1);
    }
  }

  /** Two keys with colon-free tenants are equal only if both ids are. */
  lemma CacheKeyInjective(t0: string, c0: string, t1: string, c1: string)
    requires ColonFree(t0) && ColonFree(t1) && CacheKey(t0, c0) == CacheKey(t1, c1)
    ensures t0 == t1 && c0 == c1
  {
    var p := "tenant:";
    var k0, k1 := CacheKey(t0, c0), CacheKey(t1, c1);
    assert k0[|p| + |t0|] == ':' && k1[|p| + |t1|] == ':';
    assert forall j | 0 <= j < |t0| :: k0[|p| + j] == t0[j] && t0[j] in t0;
    assert forall j | 0 <= j < |t1| :: k1[|p| + j] == t1[j] && t1[j] in t1;
    assert |t0| == |t1|;
    assert t0 == k0[|p|..|p| + |t0|] && t1 == k1[|p|..|p| + |t1|];
    EqualKeys(t0, c0, t1, c1);
  }

  /** Tenant ids without a colon never clash. */
  lemma ColonFreeNeverClash(tenants: set<string>)
    requires forall t | t in tenants :: ColonFree(t)
    ensures ClashFree(tenants)
  {
    forall t0, t1 | t0 in tenants && t1 in tenants ensures !CanClash(t0, t1) {
      if CanClash(t0, t1) {
        var c0, c1 := ClashingKeys(t0, t1);
        CacheKeyInjective(t0, c0, t1, c1);
      }
    }
  }

  lemma WasLatestExtends(tr: seq<State>, s: State, cluster: string, score: real, lo: int, hi: int, lo': int, hi': int)
    requires WasLatest(tr, cluster, score, lo, hi) && lo' <= lo && hi <= hi'
    ensures WasLatest(tr + [s], cluster, score, lo', hi')
  {
    var n :| 0 <= n < |tr| && lo <= tr[n].now <= hi && LatestScore(tr[n].rows, cluster, score);
    assert (tr + [s])[n] == tr[n];
  }

  /** A safe tenant's entries are written by itself. */
  lemma OnlyOwnKeys(cfg: Config, t: string, cluster: string, r: Request)
    requires Safe(cfg, t) && r.tenant in cfg.tenants && r.cluster in cfg.ids && CacheKey(t, cluster) == KeyOf(r)
    ensures r.tenant == t && r.cluster == cluster
  {
    EqualKeys(t, cluster, r.tenant, r.cluster);
    KeyIsHead(t, cluster);
    KeyIsHead(r.tenant, r.cluster);
  }

  lemma KeyIsHead(tenant: string, cluster: string)
    ensures CacheKey(tenant, cluster) == "tenant:" + (Head(tenant) + cluster)
    ensures CacheKey(tenant, cluster)[7..] == Head(tenant) + cluster
  {
  }

  /** Adding a state to the run keeps what the older requests were promised. */
  lemma RequestsKept(cfg: Config, tr: seq<State>, s: State, s': State, t: string)
    requires Inv(cfg, tr, s, t) && s.now <= s'.now
    ensures forall r | r in s.log :: RequestFresh(cfg, tr + [s'], s', t, r)
  {
    forall r | r in s.log ensures RequestFresh(cfg, tr + [s'], s', t, r) {
      match r.phase
      case Fetched(score, at) => WasLatestExtends(tr, s', r.cluster, score, at, at, at, at);
      case Stored(score, at) => WasLatestExtends(tr, s', r.cluster, score, at, at, at, at);
      case Answered(score, at) =>
        if r.tenant == t {
          WasLatestExtends(tr, s', r.cluster, score, at - (TTL - 1) - cfg.latency, at, at - (TTL - 1) - cfg.latency, at);
        }
      case _ =>
    }
  }

  lemma CacheKept(cfg: Config, tr: seq<State>, s: State, s': State, t: string)
    requires Inv(cfg, tr, s, t) && s.now <= s'.now && s.cache == s'.cache
    ensures CacheFresh(cfg, tr + [s'], s', t)
  {
    forall cluster | CacheKey(t, cluster) in s'.cache
      ensures var e := s'.cache[CacheKey(t, cluster)];
              WasLatest(tr + [s'], cluster, e.score, e.expiry - TTL - cfg.latency, s'.now)
    {
      var e := s.cache[CacheKey(t, cluster)];
      var lo := e.expiry - TTL - cfg.latency;
      WasLatestExtends(tr, s', cluster, e.score, lo, s.now, lo, s'.now);
    }
  }

  lemma InvStore(cfg: Config, tr: seq<State>, s: State, t: string, i: nat)
    requires Safe(cfg, t) && Inv(cfg, tr, s, t) && Enabled(cfg, s, Store(i))
    ensures var s' := Apply(cfg, s, Store(i)); Inv(cfg, tr + [s'], s', t)
  {
    var s' := Apply(cfg, s, Store(i));
    var r, p := s.log[i], s.log[i].phase;
    assert r in s.log;
    forall cluster | CacheKey(t, cluster) in s'.cache
      ensures var e := s'.cache[CacheKey(t, cluster)];
              WasLatest(tr + [s'], cluster, e.score, e.expiry - TTL - cfg.latency, s'.now)
    {
      var e := s'.cache[CacheKey(t, cluster)];
      var lo := e.expiry - TTL - cfg.latency;
      if CacheKey(t, cluster) == KeyOf(r) {
        EqualKeys(t, cluster, r.tenant, r.cluster);
        OnlyOwnKeys(cfg, t, cluster, r);
        WasLatestExtends(tr, s', cluster, p.score, p.readAt, p.readAt, lo, s'.now);
      } else {
        WasLatestExtends(tr, s', cluster, e.score, lo, s.now, lo, s'.now);
      }
    }
    RequestsKept(cfg, tr, s, s', t);
    WasLatestExtends(tr, s', r.cluster, p.score, p.readAt, p.readAt, p.readAt, p.readAt);
    assert forall q | q in s'.log :: q in s.log || q == s'.log[i];
  }

  lemma InvMove(cfg: Config, tr: seq<State>, s: State, t: string, i: nat, phase: Phase)
    requires Inv(cfg, tr, s, t) && i < |s.log|
    requires var s' := Move(s, i, phase); RequestFresh(cfg, tr + [s'], s', t, s'.log[i])
    ensures var s' := Move(s, i, phase); Inv(cfg, tr + [s'], s', t)
  {
    var s' := Move(s, i, phase);
    RequestsKept(cfg, tr, s, s', t);
    CacheKept(cfg, tr, s, s', t);
    assert forall r | r in s'.log :: r in s.log || r == s'.log[i];
  }

  lemma InvStep(cfg: Config, tr: seq<State>, s: State, t: string, a: Action)
    requires Safe(cfg, t) && tr != [] && s == tr[|tr| - 1]
    requires Inv(cfg, tr, s, t) && Enabled(cfg, s, a)
    ensures var s' := Apply(cfg, s, a); Inv(cfg, tr + [s'], s', t)
  {
    var s' := Apply(cfg, s, a);
    match a
    case Tick(_) =>
      RequestsKept(cfg, tr, s, s', t);
      CacheKept(cfg, tr, s, s', t);
    case Insert(_) =>
      RequestsKept(cfg, tr, s, s', t);
      CacheKept(cfg, tr, s, s', t);
    case Begin(_, _) =>
      RequestsKept(cfg, tr, s, s', t);
      CacheKept(cfg, tr, s, s', t);
    case Hit(i) =>
      var r := s.log[i];
      assert r in s.log;
      var e := s.cache[KeyOf(r)];
      var lo := e.expiry - TTL - cfg.latency;
      if r.tenant == t {
        WasLatestExtends(tr, s', r.cluster, e.score, lo, s.now, s.now - (TTL - 1) - cfg.latency, s.now);
      }
      InvMove(cfg, tr, s, t, i, Answered(e.score, s.now));
    case Miss(i) =>
      assert s.log[i] in s.log;
      InvMove(cfg, tr, s, t, i, Missed);
    case Fetch(i, row) =>
      assert s.log[i] in s.log;
      assert (tr + [s'])[|tr|] == s' && LatestScore(s'.rows, row.cluster, row.score);
      InvMove(cfg, tr, s, t, i, Fetched(row.score, s.now));
    case FetchFails(i) =>
      assert s.log[i] in s.log;
      InvMove(cfg, tr, s, t, i, Waiting);
    case Store(i) => InvStore(cfg, tr, s, t, i);
    case StoreFails(i) =>
      var r, p := s.log[i], s.log[i].phase;
      assert r in s.log;
      WasLatestExtends(tr, s', r.cluster, p.score, p.readAt, p.readAt, p.readAt, p.readAt);
      InvMove(cfg, tr, s, t, i, Stored(p.score, p.readAt));
    case Answer(i) =>
      var r, p := s.log[i], s.log[i].phase;
      assert r in s.log;
      WasLatestExtends(tr, s', r.cluster, p.score, p.readAt, p.readAt, s.now - (TTL - 1) - cfg.latency, s.now);
      InvMove(cfg, tr, s, t, i, Answered(p.score, s.now));
  }

  lemma {:induction false} InvTrace(cfg: Config, tr: seq<State>, t: string)
    requires Safe(cfg, t) && IsTrace(cfg, tr)
    ensures Inv(cfg, tr, tr[|tr| - 1], t)
    decreases |tr|
  {
    var n := |tr| - 1;
    if n > 0 {
      var prev := tr[..n];
      InvTrace(cfg, prev, t);
      assert StepBetween(cfg, tr[n - 1], tr[n]);
      var a :| Enabled(cfg, tr[n - 1], a) && tr[n] == Apply(cfg, tr[n - 1], a);
      InvStep(cfg, prev, tr[n - 1], t, a);
      assert tr == prev + [tr[n]];
    }
  }

  // ----- main results

  /** The answer was the latest score of its own cluster less than 30 seconds and the latency before. */
  ghost predicate Recent(cfg: Config, tr: seq<State>, r: Request)
    requires r.phase.Answered?
  {
    WasLatest(tr, r.cluster, r.phase.score, r.phase.at - 29_999 - cfg.latency, r.phase.at)
  }

  /**
   Every score that a safe tenant is answered with was the latest score of its own cluster at some
   instant less than 30 seconds plus the fetch latency before the answer.
   */
  lemma AnswersAreRecent(cfg: Config, tr: seq<State>, r: Request)
    requires Safe(cfg, r.tenant) && IsTrace(cfg, tr)
    requires r in tr[|tr| - 1].log && r.phase.Answered?
    ensures Recent(cfg, tr, r)
  {
    InvTrace(cfg, tr, r.tenant);
  }

  /** A safe tenant has an entry only for a cluster that has a row. */
  lemma OnlyScoresAreCached(cfg: Config, tr: seq<State>, tenant: string, cluster: string)
    requires Safe(cfg, tenant) && IsTrace(cfg, tr)
    requires CacheKey(tenant, cluster) in tr[|tr| - 1].cache
    ensures exists row | row in tr[|tr| - 1].rows :: row.cluster == cluster
  {
    InvTrace(cfg, tr, tenant);
    var s := tr[|tr| - 1];
    var e := s.cache[CacheKey(tenant, cluster)];
    var n :| 0 <= n < |tr| && LatestScore(tr[n].rows, cluster, e.score);
    var row := LatestRow(tr[n].rows, cluster, e.score);
    RowsGrow(cfg, tr, n);
    assert row in s.rows;
  }

  lemma LatestRow(rows: seq<Row>, cluster: string, score: real) returns (row: Row)
    requires LatestScore(rows, cluster, score)
    ensures row in rows && row.cluster == cluster
  {
    row :| row in rows && row.cluster == cluster && row.score == score && IsLatest(rows, row);
  }

  lemma {:induction false} RowsGrow(cfg: Config, tr: seq<State>, n: nat)
    requires IsTrace(cfg, tr) && n < |tr|
    ensures tr[n].rows <= tr[|tr| - 1].rows
    decreases |tr| - n
  {
    if n + 1 < |tr| {
      assert StepBetween(cfg, tr[n], tr[n + 1]);
      RowsGrow(cfg, tr, n + 1);
    }
  }

  // ----- what clashing tenants do

  lemma Extend(cfg: Config, tr: seq<State>, a: Action) returns (tr': seq<State>)
    requires IsTrace(cfg, tr) && Enabled(cfg, tr[|tr| - 1], a)
    ensures IsTrace(cfg, tr') && tr' == tr + [Apply(cfg, tr[|tr| - 1], a)]
  {
    tr' := tr + [Apply(cfg, tr[|tr| - 1], a)];
    forall n | 0 < n < |tr'| ensures StepBetween(cfg, tr'[n - 1], tr'[n]) {
      if n < |tr| {
        assert StepBetween(cfg, tr[n - 1], tr[n]);
      }
    }
  }

  /** One tenant's cluster has a score, which a request of that tenant puts into the cache. */
  lemma OneCaches(cfg: Config, tenant: string, row: Row) returns (tr: seq<State>)
    requires tenant in cfg.tenants && row.time == 0 && row.cluster in cfg.ids
    ensures IsTrace(cfg, tr)
    ensures var s := tr[|tr| - 1];
            && s.now == 0 && s.rows == [row] && |s.log| == 1
            && s.cache == map[CacheKey(tenant, row.cluster) := Entry(row.score, TTL)]
  {
    tr := [INIT];
    tr := Extend(cfg, tr, Insert(row));
    assert tr[|tr| - 1].rows == [row] && IsLatest([row], row);
    tr := Extend(cfg, tr, Begin(tenant, row.cluster));
    tr := Extend(cfg, tr, Miss(0));
    tr := Extend(cfg, tr, Fetch(0, row));
    tr := Extend(cfg, tr, Store(0));
  }

  /**
   A tenant that is exposed is answered with the other's score: for every cluster id that a row can
   have, some run in which only that cluster has a row, and any score.
   */
  lemma ClashAnswersWrongly(cfg: Config, t0: string, t1: string, c: string, score: real)
    returns (tr: seq<State>, r: Request)
    requires t0 in cfg.tenants && t1 in cfg.tenants && t0 != t1 && c in cfg.ids && Head(t0) <= Head(t1) + c
    ensures IsTrace(cfg, tr) && r in tr[|tr| - 1].log
    ensures r.tenant == t0 && r.cluster != c && r.phase.Answered? && r.phase.score == score
    ensures forall row | row in tr[|tr| - 1].rows :: row.cluster == c
    ensures !Recent(cfg, tr, r)
  {
    var own := (Head(t1) + c)[|Head(t0)|..];
    assert Head(t1) + c == Head(t0) + own;
    KeyIsHead(t0, own);
    KeyIsHead(t1, c);
    EqualKeys(t0, own, t1, c);
    tr := OneCaches(cfg, t1, Row(0, c, score));
    tr := Extend(cfg, tr, Begin(t0, own));
    tr := Extend(cfg, tr, Hit(1));
    var last := tr[|tr| - 1];
    r := last.log[1];
    assert r == Request(t0, own, Answered(score, 0));
    forall n | 0 <= n < |tr| ensures !LatestScore(tr[n].rows, own, score) {
      RowsGrow(cfg, tr, n);
    }
  }

  ghost predicate RecentFor(cfg: Config, t: string) {
    forall tr: seq<State>, r | IsTrace(cfg, tr) && r in tr[|tr| - 1].log && r.phase.Answered? && r.tenant == t ::
      Recent(cfg, tr, r)
  }

  /** A tenant's answers are recent in every run exactly when it is safe. */
  lemma AnswersAreRecentIff(cfg: Config, t: string)
    requires t in cfg.tenants
    ensures RecentFor(cfg, t) <==> Safe(cfg, t)
  {
    if Safe(cfg, t) {
      forall tr: seq<State>, r | IsTrace(cfg, tr) && r in tr[|tr| - 1].log && r.phase.Answered? && r.tenant == t
        ensures Recent(cfg, tr, r)
      {
        AnswersAreRecent(cfg, tr, r);
      }
    } else {
      var t1 :| t1 in cfg.tenants && Exposed(cfg, t, t1);
      var c :| c in cfg.ids && Head(t) <= Head(t1) + c;
      var tr, r := ClashAnswersWrongly(cfg, t, t1, c, 50.0);
    }
  }

  /** Whatever cluster ids there are, all tenants' answers are recent exactly when no two tenants clash. */
  lemma AllAnswersAreRecentIff(cfg: Config)
    requires cfg.ids != iset{}
    ensures (forall t | t in cfg.tenants :: RecentFor(cfg, t)) <==> ClashFree(cfg.tenants)
  {
    forall t | t in cfg.tenants ensures RecentFor(cfg, t) <==> Safe(cfg, t) {
      AnswersAreRecentIff(cfg, t);
    }
    forall t, t1 | t in cfg.tenants && t1 in cfg.tenants
      ensures Exposed(cfg, t, t1) ==> CanClash(t, t1)
      ensures CanClash(t, t1) ==> Exposed(cfg, t, t1) || Exposed(cfg, t1, t)
    {
      ExposedClash(cfg, t, t1);
      ClashExposes(cfg, t, t1);
    }
  }

  lemma ExposedClash(cfg: Config, t: string, t1: string)
    ensures Exposed(cfg, t, t1) ==> CanClash(t, t1)
  {
    if Exposed(cfg, t, t1) {
      var c :| c in cfg.ids && Head(t) <= Head(t1) + c;
      var h, k := Head(t), Head(t1) + c;
      assert h == k[..|h|] && Head(t1) == k[..|Head(t1)|];
      if |h| <= |Head(t1)| {
        assert h == Head(t1)[..|h|];
      } else {
        assert Head(t1) == h[..|Head(t1)|];
      }
    }
  }

  lemma ClashExposes(cfg: Config, t: string, t1: string)
    requires cfg.ids != iset{}
    ensures CanClash(t, t1) ==> Exposed(cfg, t, t1) || Exposed(cfg, t1, t)
  {
    var c :| c in cfg.ids;
    if CanClash(t, t1) && Head(t) <= Head(t1) {
      assert Head(t) <= Head(t1) + c;
    } else if CanClash(t, t1) {
      assert Head(t1) <= Head(t) + c;
    }
  }

  /** For the tenant with the longer id the other one's stored cluster id must contain a colon. */
  lemma LongerNeedsColon(t: string, t1: string, c: string)
    requires Head(t) <= Head(t1) + c && |Head(t)| > |Head(t1)|
    ensures ':' in c
  {
    var last := |Head(t)| - 1;
    assert Head(t)[last] == ':' && (Head(t1) + c)[last] == c[last - |Head(t1)|];
  }

  /**
   With stored ids without a colon, such as UUIDs, only the tenant whose id plus ":score:" is a prefix
   of the other's can be answered wrongly.
   */
  lemma ExposedIffPrefix(cfg: Config, t: string, t1: string)
    requires cfg.ids != iset{} && (forall c | c in cfg.ids :: ColonFree(c)) && t != t1
    ensures Exposed(cfg, t, t1) <==> Head(t) <= Head(t1)
  {
    var h, h1 := Head(t), Head(t1);
    forall c | c in cfg.ids ensures h <= h1 + c <==> h <= h1 {
      if h <= h1 + c && |h| > |h1| {
        LongerNeedsColon(t, t1, c);
      } else if h <= h1 + c {
        assert h == (h1 + c)[..|h|] == h1[..|h|];
      }
    }
  }

  // ----- how old an answer can be

  /** Score x of the cluster was read at instant 1, just before its successor y came, and cached as late as allowed. */
  lemma CachesOld(cfg: Config, t: string, c: string, x: real, y: real) returns (tr: seq<State>)
    requires t in cfg.tenants && c in cfg.ids
    ensures IsTrace(cfg, tr) && |tr| == 9
    ensures forall n | 0 <= n < |tr| && tr[n].now > 1 :: tr[n].rows == [Row(0, c, x), Row(1, c, y)]
    ensures var s := tr[|tr| - 1];
            && s.now == 1 + cfg.latency && |s.log| == 1
            && s.rows == [Row(0, c, x), Row(1, c, y)]
            && s.cache == map[CacheKey(t, c) := Entry(x, 1 + cfg.latency + TTL)]
  {
    var first, second := Row(0, c, x), Row(1, c, y);
    tr := [INIT];
    tr := Extend(cfg, tr, Insert(first));
    tr := Extend(cfg, tr, Tick(1));
    tr := Extend(cfg, tr, Begin(t, c));
    tr := Extend(cfg, tr, Miss(0));
    assert tr[|tr| - 1].rows == [first] && IsLatest([first], first);
    tr := Extend(cfg, tr, Fetch(0, first));
    tr := Extend(cfg, tr, Insert(second));
    assert tr[|tr| - 1].rows == [first, second];
    tr := Extend(cfg, tr, Tick(cfg.latency));
    tr := Extend(cfg, tr, Store(0));
  }

  lemma SecondIsLatest(c: string, x: real, y: real)
    requires x != y
    ensures !LatestScore([Row(0, c, x), Row(1, c, y)], c, x)
  {
    assert Row(1, c, y) in [Row(0, c, x), Row(1, c, y)];
  }

  /**
   The bound is the best one, to the millisecond: for every tenant, cluster and two scores, some run
   answers a score that stopped being the latest 29999 ms plus the latency before.
   */
  lemma AnswersCanBeOld(cfg: Config, t: string, c: string, x: real, y: real) returns (tr: seq<State>, r: Request)
    requires t in cfg.tenants && c in cfg.ids && x != y
    ensures IsTrace(cfg, tr) && r in tr[|tr| - 1].log
    ensures r.tenant == t && r.cluster == c && r.phase == Answered(x, 30_000 + cfg.latency)
    ensures !WasLatest(tr, c, x, r.phase.at - 29_998 - cfg.latency, r.phase.at)
  {
    tr := CachesOld(cfg, t, c, x, y);
    tr := Extend(cfg, tr, Tick(29_999));
    tr := Extend(cfg, tr, Begin(t, c));
    tr := Extend(cfg, tr, Hit(1));
    r := tr[|tr| - 1].log[1];
    forall n | 0 <= n < |tr| && tr[n].now > 1 ensures tr[n].rows == [Row(0, c, x), Row(1, c, y)] {}
    SecondIsLatest(c, x, y);
  }
}
