/**
 The worker's message handling (backend/internal/worker/consumer.go) on top of JetStream's
 redelivery: at most 3 deliveries, explicit acks, an ack wait of 60 seconds that runs from the
 server's delivery. Each replica holds one subscription, which buffers what it is pushed and calls
 handle on one message after another. Replicas can crash at any point. Times are in milliseconds.
 */
module Consumer {
  import opened Counting

  const MAX_DELIVER: nat := 3
  const ACK_WAIT: nat := 60_000

  /**
   wait bounds the time a delivery spends in its subscription's buffer; deadline bounds the time a
   call of handle lives (its context ends after 30 seconds).
   */
  datatype Limits = Limits(wait: nat, deadline: nat)

  /** Where the server stands with a message; InFlight holds the instant of the last delivery. */
  datatype Status = Available | InFlight(since: nat) | Acked

  /** signed: the X-Signature header is not empty. wellFormed: the payload parses as a snapshot. */
  datatype Message = Message(signed: bool, wellFormed: bool, status: Status, deliveries: nat)

  /**
   Buffered: the subscription holds the message. Entered: handle was called. Processing: the
   signature check passed. Persisting: the payload parsed. Processed: Process returned, with or
   without an error. Acking, Naking: the reply is sent and handle is over. Crashed: the replica went
   away without a reply.
   */
  datatype Phase =
    | Buffered
    | Entered
    | Processing
    | Persisting
    | Processed(ok: bool)
    | Acking
    | Naking
    | Crashed

  /**
   One delivery. startedAt is the instant of the call of handle, once there is one. processed:
   Process returned no error for it. inserted: it added a row to the score table.
   */
  datatype Handler = Handler(
    msg: nat,
    subscription: nat,
    deliveredAt: nat,
    startedAt: nat,
    phase: Phase,
    processed: bool,
    inserted: bool)

  /** scores is the score table, each row given by the message it came from. */
  datatype State = State(now: nat, messages: seq<Message>, handlers: seq<Handler>, scores: seq<nat>)

  datatype Action =
    | Tick(ms: nat)
    | Publish(signed: bool, wellFormed: bool)
    | Deliver(m: nat, subscription: nat)
    | Enter(h: nat)
    | CheckSignature(h: nat)
    | Parse(h: nat)
    | Persist(h: nat, inserted: bool)
    | Reply(h: nat)
    | Crash(h: nat)

  const INIT := State(0, [], [], [])

  predicate Finished(h: Handler) {
    h.phase.Acking? || h.phase.Naking? || h.phase.Crashed?
  }

  /** handle is running. */
  predicate Live(h: Handler) {
    !Finished(h) && !h.phase.Buffered?
  }

  predicate Deliverable(s: State, m: nat)
    requires m < |s.messages|
  {
    && s.messages[m].deliveries < MAX_DELIVER
    && match s.messages[m].status
       case Available => true
       case InFlight(since) => since + ACK_WAIT <= s.now
       case Acked => false
  }

  /** Everything delivered earlier to the same subscription is over. */
  predicate IsNext(s: State, h: nat)
    requires h < |s.handlers|
  {
    forall j | 0 <= j < h && s.handlers[j].subscription == s.handlers[h].subscription :: Finished(s.handlers[j])
  }

  /** The latest instant at which a delivery may still be as it is. */
  function Until(l: Limits, h: Handler): nat {
    if h.phase.Buffered? then h.deliveredAt + l.wait else h.startedAt + l.deadline
  }

  /** What can happen next, time aside. */
  predicate Possible(s: State, a: Action) {
    match a
    case Tick(_) => true
    case Publish(_, _) => true
    case Deliver(m, _) => m < |s.messages| && Deliverable(s, m)
    case Enter(h) => h < |s.handlers| && s.handlers[h].phase.Buffered? && IsNext(s, h)
    case CheckSignature(h) =>
      h < |s.handlers| && s.handlers[h].phase.Entered? && s.handlers[h].msg < |s.messages|
    case Parse(h) =>
      h < |s.handlers| && s.handlers[h].phase.Processing? && s.handlers[h].msg < |s.messages|
    case Persist(h, _) => h < |s.handlers| && s.handlers[h].phase.Persisting?
    case Reply(h) =>
      h < |s.handlers| && s.handlers[h].phase.Processed? && s.handlers[h].msg < |s.messages|
    case Crash(h) => h < |s.handlers| && !Finished(s.handlers[h])
  }

  predicate Enabled(l: Limits, s: State, a: Action) {
    && Possible(s, a)
    && (a.Tick? ==> forall h | h in s.handlers && !Finished(h) :: s.now + a.ms <= Until(l, h))
  }

  function Move(s: State, h: nat, phase: Phase): State
    requires h < |s.handlers|
  {
    s.(handlers := s.handlers[h := s.handlers[h].(phase := phase)])
  }

  /** A reply settles the message only if the server still waits for one. */
  function Settle(s: State, m: nat, status: Status): State
    requires m < |s.messages|
  {
    if s.messages[m].status.Acked? then s
    else s.(messages := s.messages[m := s.messages[m].(status := status)])
  }

  function Apply(s: State, a: Action): State
    requires Possible(s, a)
  {
    match a
    case Tick(ms) => s.(now := s.now + ms)
    case Publish(signed, wellFormed) =>
      s.(messages := s.messages + [Message(signed, wellFormed, Available, 0)])
    case Deliver(m, subscription) =>
      var msg := s.messages[m];
      s.(messages := s.messages[m := msg.(status := InFlight(s.now), deliveries := msg.deliveries + 1)],
         handlers := s.handlers + [Handler(m, subscription, s.now, s.now, Buffered, false, false)])
    case Enter(h) =>
      s.(handlers := s.handlers[h := s.handlers[h].(phase := Entered, startedAt := s.now)])
    case CheckSignature(h) =>
      var m := s.handlers[h].msg;
      if s.messages[m].signed then Move(s, h, Processing)
      else Settle(Move(s, h, Naking), m, Available)
    case Parse(h) =>
      Move(s, h, if s.messages[s.handlers[h].msg].wellFormed then Persisting else Processed(false))
    case Persist(h, inserted) =>
      s.(handlers := s.handlers[h := s.handlers[h].(
           phase := Processed(true), processed := true, inserted := inserted)],
         scores := s.scores + if inserted then [s.handlers[h].msg] else [])
    case Reply(h) =>
      var m := s.handlers[h].msg;
      if s.handlers[h].phase.ok then Settle(Move(s, h, Acking), m, Acked)
      else Settle(Move(s, h, Naking), m, Available)
    case Crash(h) => Move(s, h, Crashed)
  }

  ghost predicate ValidRun(l: Limits, s: State, acts: seq<Action>)
    decreases |acts|
  {
    acts == [] || (Enabled(l, s, acts[0]) && ValidRun(l, Apply(s, acts[0]), acts[1..]))
  }

  ghost function Final(l: Limits, s: State, acts: seq<Action>): State
    requires ValidRun(l, s, acts)
    decreases |acts|
  {
    if acts == [] then s else Final(l, Apply(s, acts[0]), acts[1..])
  }

  // ----- invariants

  ghost function Deliveries(m: nat): Handler -> bool {
    (h: Handler) => h.msg == m
  }

  ghost function Insertions(m: nat): Handler -> bool {
    (h: Handler) => h.msg == m && h.inserted
  }

  ghost function Crashes(m: nat): Handler -> bool {
    (h: Handler) => h.msg == m && h.phase.Crashed?
  }

  ghost function Unfailed(m: nat): Handler -> bool {
    (h: Handler) => h.msg == m && !h.phase.Crashed?
  }

  ghost function RowOf(m: nat): nat -> bool {
    (r: nat) => r == m
  }

  /** What a delivery's phase says about itself and its message. */
  ghost predicate PhaseOk(h: Handler, msg: Message) {
    && (h.phase.Processing? || h.phase.Persisting? || h.phase.Processed? || h.phase.Acking? || h.processed ==>
          msg.signed)
    && (h.phase.Persisting? || h.phase == Processed(true) || h.phase.Acking? || h.processed ==> msg.wellFormed)
    && (h.inserted ==> h.processed)
    && (h.processed ==> h.phase == Processed(true) || h.phase.Acking? || h.phase.Crashed?)
    && (h.phase == Processed(true) || h.phase.Acking? ==> h.processed)
    && (h.phase.Naking? || h.phase == Processed(false) ==> !msg.signed || !msg.wellFormed)
    && (h.phase.Acking? ==> msg.status.Acked?)
  }

  ghost predicate TimeOk(l: Limits, now: nat, h: Handler) {
    && h.deliveredAt <= h.startedAt <= now
    && (!Finished(h) ==> now <= Until(l, h))
    && h.startedAt <= h.deliveredAt + l.wait
  }

  ghost predicate HandlerOk(l: Limits, s: State, h: Handler) {
    h.msg < |s.messages| && TimeOk(l, s.now, h) && PhaseOk(h, s.messages[h.msg])
  }

  ghost predicate MessageOk(s: State, m: nat)
    requires m < |s.messages|
  {
    && s.messages[m].deliveries == Count(s.handlers, Deliveries(m)) <= MAX_DELIVER
    && (s.messages[m].status.Acked? ==> exists h | h in s.handlers :: h.msg == m && h.phase.Acking?)
  }

  ghost predicate Inv(l: Limits, s: State) {
    && (forall h | h in s.handlers :: HandlerOk(l, s, h))
    && (forall m | 0 <= m < |s.messages| :: MessageOk(s, m))
    && (forall m: nat :: Count(s.scores, RowOf(m)) == Count(s.handlers, Insertions(m)))
  }

  /** No delivery can be unfinished when the ack wait has passed. */
  predicate Quick(l: Limits) {
    l.wait + l.deadline < ACK_WAIT
  }

  /** Then an unfinished delivery is the last one of its message. */
  ghost predicate OfLastDelivery(s: State) {
    forall i | 0 <= i < |s.handlers| && s.handlers[i].msg < |s.messages| && !Finished(s.handlers[i]) ::
      s.messages[s.handlers[i].msg].status == InFlight(s.handlers[i].deliveredAt)
  }

  ghost predicate Alone(s: State) {
    forall i, j | 0 <= i < |s.handlers| && 0 <= j < |s.handlers| && s.handlers[i].msg == s.handlers[j].msg ::
      !Finished(s.handlers[i]) && !Finished(s.handlers[j]) ==> i == j
  }

  ghost predicate Exclusive(s: State) {
    OfLastDelivery(s) && Alone(s)
  }

  ghost predicate Good(s: State, m: nat) {
    m < |s.messages| && s.messages[m].signed && s.messages[m].wellFormed
  }

  /** ... and a signed, well-formed message has at most one delivery that did not crash. */
  ghost predicate OneUnfailed(s: State) {
    forall i, j | 0 <= i < |s.handlers| && 0 <= j < |s.handlers| ::
      (Good(s, s.handlers[i].msg) && s.handlers[i].msg == s.handlers[j].msg
       && !s.handlers[i].phase.Crashed? && !s.handlers[j].phase.Crashed?) ==> i == j
  }

  lemma InvTick(l: Limits, s: State, ms: nat)
    requires Inv(l, s) && Enabled(l, s, Tick(ms))
    ensures Inv(l, Apply(s, Tick(ms)))
  {
    var s' := Apply(s, Tick(ms));
    forall m | 0 <= m < |s'.messages| ensures MessageOk(s', m) {
      assert MessageOk(s, m);
    }
    forall h | h in s'.handlers ensures HandlerOk(l, s', h) {
      assert HandlerOk(l, s, h);
    }
  }

  lemma InvPublish(l: Limits, s: State, a: Action)
    requires Inv(l, s) && a.Publish?
    ensures Inv(l, Apply(s, a))
  {
    var s' := Apply(s, a);
    forall m | 0 <= m < |s'.messages| ensures MessageOk(s', m) {
      if m < |s.messages| {
        assert MessageOk(s, m);
      } else {
        forall h | h in s.handlers ensures !Deliveries(m)(h) {
          assert HandlerOk(l, s, h);
        }
        CountNone(s.handlers, Deliveries(m));
      }
    }
    forall h | h in s'.handlers ensures HandlerOk(l, s', h) {
      assert HandlerOk(l, s, h);
    }
  }

  lemma InvDeliver(l: Limits, s: State, a: Action)
    requires Inv(l, s) && a.Deliver? && Enabled(l, s, a)
    ensures Inv(l, Apply(s, a))
  {
    var s' := Apply(s, a);
    var h := s'.handlers[|s.handlers|];
    assert forall k: Handler | k in s.handlers :: k in s'.handlers;
    forall n | 0 <= n < |s'.messages| ensures MessageOk(s', n) {
      assert MessageOk(s, n);
      CountPush(s.handlers, h, Deliveries(n));
    }
    forall n: nat ensures Count(s'.scores, RowOf(n)) == Count(s'.handlers, Insertions(n)) {
      CountPush(s.handlers, h, Insertions(n));
    }
    forall k | k in s'.handlers ensures HandlerOk(l, s', k) {
      assert k in s.handlers || k == h;
      assert k in s.handlers ==> HandlerOk(l, s, k);
    }
  }

  /** How a step of delivery h changes a message: its status only, and to Acked only by h's ack. */
  ghost predicate Affects(before: Message, after: Message, m: nat, h: Handler) {
    && after == before.(status := after.status)
    && (before.status.Acked? ==> after.status.Acked?)
    && (after.status.Acked? && !before.status.Acked? ==> h.msg == m && h.phase.Acking?)
  }

  /** A step of delivery h that rewrites its own record and perhaps its message's status. */
  ghost predicate OwnStep(l: Limits, s: State, s': State, h: nat) {
    && h < |s.handlers| && |s'.handlers| == |s.handlers| && s'.now == s.now
    && s'.handlers == s.handlers[h := s'.handlers[h]] && s'.handlers[h].msg == s.handlers[h].msg
    && !Finished(s.handlers[h]) && HandlerOk(l, s', s'.handlers[h])
    && |s'.messages| == |s.messages|
    && (forall m | 0 <= m < |s.messages| :: Affects(s.messages[m], s'.messages[m], m, s'.handlers[h]))
    && s'.scores == s.scores + (if s'.handlers[h].inserted && !s.handlers[h].inserted
                                then [s.handlers[h].msg] else [])
    && (s.handlers[h].inserted ==> s'.handlers[h].inserted)
  }

  lemma OwnMessages(l: Limits, s: State, s': State, h: nat, m: nat)
    requires OwnStep(l, s, s', h) && m < |s.messages| && MessageOk(s, m)
    ensures MessageOk(s', m)
  {
    assert Affects(s.messages[m], s'.messages[m], m, s'.handlers[h]);
    CountUpdate(s.handlers, h, s'.handlers[h], Deliveries(m));
    assert s'.handlers[h] in s'.handlers;
    if s.messages[m].status.Acked? {
      var k :| k in s.handlers && k.msg == m && k.phase.Acking?;
      var j :| 0 <= j < |s.handlers| && s.handlers[j] == k;
      assert s'.handlers[j] == k;
    }
  }

  lemma InvHandler(l: Limits, s: State, s': State, h: nat)
    requires Inv(l, s) && OwnStep(l, s, s', h)
    ensures Inv(l, s')
  {
    var k' := s'.handlers[h];
    forall k | k in s'.handlers ensures HandlerOk(l, s', k) {
      if k in s.handlers {
        assert HandlerOk(l, s, k);
        assert Affects(s.messages[k.msg], s'.messages[k.msg], k.msg, k');
      }
    }
    forall m | 0 <= m < |s'.messages| ensures MessageOk(s', m) {
      OwnMessages(l, s, s', h, m);
    }
    forall m: nat ensures Count(s'.scores, RowOf(m)) == Count(s'.handlers, Insertions(m)) {
      CountUpdate(s.handlers, h, k', Insertions(m));
      CountPush(s.scores, k'.msg, RowOf(m));
      assert s.scores + [] == s.scores;
    }
  }

  ghost predicate OfHandler(a: Action) {
    !a.Tick? && !a.Publish? && !a.Deliver?
  }

  lemma ReplyIsOwnStep(l: Limits, s: State, a: Action)
    requires Inv(l, s) && Enabled(l, s, a) && (a.CheckSignature? || a.Reply?)
    ensures OwnStep(l, s, Apply(s, a), a.h)
  {
    assert s.handlers[a.h] in s.handlers && HandlerOk(l, s, s.handlers[a.h]);
  }

  lemma IsOwnStep(l: Limits, s: State, a: Action)
    requires Inv(l, s) && Enabled(l, s, a) && OfHandler(a)
    ensures OwnStep(l, s, Apply(s, a), a.h)
  {
    if a.CheckSignature? || a.Reply? {
      ReplyIsOwnStep(l, s, a);
    } else {
      assert s.handlers[a.h] in s.handlers && HandlerOk(l, s, s.handlers[a.h]);
      assert Apply(s, a).messages == s.messages;
    }
  }

  lemma InvStep(l: Limits, s: State, a: Action)
    requires Inv(l, s) && Enabled(l, s, a)
    ensures Inv(l, Apply(s, a))
  {
    match a
    case Tick(ms) => InvTick(l, s, ms);
    case Publish(_, _) => InvPublish(l, s, a);
    case Deliver(_, _) => InvDeliver(l, s, a);
    case _ =>
      IsOwnStep(l, s, a);
      InvHandler(l, s, Apply(s, a), a.h);
  }

  /** While the ack wait is not over, nothing of the message can be under way at its redelivery. */
  lemma NothingUnderWay(l: Limits, s: State, m: nat)
    requires Quick(l) && Inv(l, s) && OfLastDelivery(s) && m < |s.messages| && Deliverable(s, m)
    ensures forall i | 0 <= i < |s.handlers| && s.handlers[i].msg == m :: Finished(s.handlers[i])
  {
    forall i | 0 <= i < |s.handlers| && s.handlers[i].msg == m ensures Finished(s.handlers[i]) {
      assert HandlerOk(l, s, s.handlers[i]);
    }
  }

  lemma ExclusiveDeliver(l: Limits, s: State, a: Action)
    requires Quick(l) && a.Deliver?
    requires Inv(l, s) && Exclusive(s) && Enabled(l, s, a)
    ensures Exclusive(Apply(s, a))
  {
    NothingUnderWay(l, s, a.m);
  }

  /** An unfinished delivery is alone with its message, so its step cannot unsettle another one's. */
  lemma ExclusiveHandler(l: Limits, s: State, a: Action)
    requires Inv(l, s) && Exclusive(s) && Enabled(l, s, a) && OfHandler(a)
    ensures Exclusive(Apply(s, a))
  {
    var s' := Apply(s, a);
    assert s.handlers[a.h] in s.handlers && HandlerOk(l, s, s.handlers[a.h]);
    forall i | 0 <= i < |s.handlers|
      ensures s'.handlers[i].msg == s.handlers[i].msg && s'.handlers[i].deliveredAt == s.handlers[i].deliveredAt
      ensures Finished(s.handlers[i]) ==> Finished(s'.handlers[i])
    {
    }
  }

  lemma MessagesKnown(l: Limits, s: State)
    requires Inv(l, s)
    ensures forall i | 0 <= i < |s.handlers| :: s.handlers[i].msg < |s.messages|
  {
    forall i | 0 <= i < |s.handlers| ensures s.handlers[i].msg < |s.messages| {
      assert s.handlers[i] in s.handlers;
    }
  }

  lemma ExclusiveStep(l: Limits, s: State, a: Action)
    requires Quick(l) && Inv(l, s) && Exclusive(s) && Enabled(l, s, a)
    ensures Exclusive(Apply(s, a))
  {
    match a
    case Deliver(_, _) => ExclusiveDeliver(l, s, a);
    case Tick(_) =>
    case Publish(_, _) => MessagesKnown(l, s);
    case _ => ExclusiveHandler(l, s, a);
  }

  lemma OneUnfailedDeliver(l: Limits, s: State, a: Action)
    requires Quick(l) && a.Deliver?
    requires Inv(l, s) && Exclusive(s) && OneUnfailed(s) && Enabled(l, s, a)
    ensures OneUnfailed(Apply(s, a))
  {
    NothingUnderWay(l, s, a.m);
    forall i | 0 <= i < |s.handlers| && s.handlers[i].msg == a.m && Good(s, a.m)
      ensures s.handlers[i].phase.Crashed?
    {
      assert HandlerOk(l, s, s.handlers[i]);
    }
  }

  lemma OneUnfailedHandler(l: Limits, s: State, a: Action)
    requires Inv(l, s) && OneUnfailed(s) && Enabled(l, s, a) && OfHandler(a)
    ensures OneUnfailed(Apply(s, a))
  {
    var s' := Apply(s, a);
    forall i | 0 <= i < |s.handlers|
      ensures s'.handlers[i].msg == s.handlers[i].msg
      ensures s.handlers[i].phase.Crashed? ==> s'.handlers[i].phase.Crashed?
      ensures Good(s', s.handlers[i].msg) == Good(s, s.handlers[i].msg)
    {
    }
  }

  lemma OneUnfailedStep(l: Limits, s: State, a: Action)
    requires Quick(l) && Inv(l, s) && Exclusive(s) && OneUnfailed(s) && Enabled(l, s, a)
    ensures OneUnfailed(Apply(s, a))
  {
    match a
    case Deliver(_, _) => OneUnfailedDeliver(l, s, a);
    case Tick(_) =>
    case Publish(_, _) => MessagesKnown(l, s);
    case _ => OneUnfailedHandler(l, s, a);
  }

  lemma {:induction false} InvRun(l: Limits, s: State, acts: seq<Action>)
    requires Inv(l, s) && ValidRun(l, s, acts)
    ensures Inv(l, Final(l, s, acts))
    decreases |acts|
  {
    if acts != [] {
      InvStep(l, s, acts[0]);
      InvRun(l, Apply(s, acts[0]), acts[1..]);
    }
  }

  lemma {:induction false} ExclusiveRun(l: Limits, s: State, acts: seq<Action>)
    requires Quick(l) && Inv(l, s) && Exclusive(s) && OneUnfailed(s) && ValidRun(l, s, acts)
    ensures Exclusive(Final(l, s, acts)) && OneUnfailed(Final(l, s, acts))
    decreases |acts|
  {
    if acts != [] {
      InvStep(l, s, acts[0]);
      ExclusiveStep(l, s, acts[0]);
      OneUnfailedStep(l, s, acts[0]);
      ExclusiveRun(l, Apply(s, acts[0]), acts[1..]);
    }
  }

  // ----- main results

  /** In every run a message is delivered at most 3 times and leaves at most one row per delivery. */
  lemma AtMostThreeRows(l: Limits, acts: seq<Action>, m: nat)
    requires ValidRun(l, INIT, acts)
    ensures var s := Final(l, INIT, acts);
            Count(s.scores, RowOf(m)) <= Count(s.handlers, Deliveries(m)) <= 3
  {
    InvRun(l, INIT, acts);
    var s := Final(l, INIT, acts);
    CountMono(s.handlers, Insertions(m), Deliveries(m));
    if m < |s.messages| {
      assert MessageOk(s, m);
    } else {
      forall h | h in s.handlers ensures !Deliveries(m)(h) {
        assert HandlerOk(l, s, h);
      }
      CountNone(s.handlers, Deliveries(m));
    }
  }

  /** A message without a signature, or that does not parse, leaves no row and is never acked. */
  lemma BadMessagesLeaveNoTrace(l: Limits, acts: seq<Action>, m: nat)
    requires ValidRun(l, INIT, acts)
    requires var s := Final(l, INIT, acts); m < |s.messages| && !Good(s, m)
    ensures var s := Final(l, INIT, acts);
            && Count(s.scores, RowOf(m)) == 0
            && !s.messages[m].status.Acked?
            && (!s.messages[m].signed ==>
                  forall h | h in s.handlers && h.msg == m ::
                    h.phase.Buffered? || h.phase.Entered? || h.phase.Naking? || h.phase.Crashed?)
  {
    InvRun(l, INIT, acts);
    var s := Final(l, INIT, acts);
    assert MessageOk(s, m);
    forall h | h in s.handlers ensures !Insertions(m)(h) {
      assert HandlerOk(l, s, h);
    }
    CountNone(s.handlers, Insertions(m));
  }

  /** Process returned no error for a delivery of the message, and handle went on to its end. */
  ghost predicate ProcessedToTheEnd(s: State, m: nat) {
    exists h | h in s.handlers :: h.msg == m && h.processed && Finished(h) && !h.phase.Crashed?
  }

  /**
   A message is acked exactly when some delivery of it was processed without error and not lost before
   its reply; what was processed was signed and well formed.
   */
  lemma AckMeansProcessed(l: Limits, acts: seq<Action>, m: nat)
    requires ValidRun(l, INIT, acts)
    requires m < |Final(l, INIT, acts).messages|
    ensures var s := Final(l, INIT, acts);
            && (s.messages[m].status.Acked? <==> ProcessedToTheEnd(s, m))
            && (forall h | h in s.handlers && h.msg == m && h.processed :: Good(s, m))
  {
    InvRun(l, INIT, acts);
    var s := Final(l, INIT, acts);
    assert MessageOk(s, m);
    forall h | h in s.handlers && h.msg == m ensures HandlerOk(l, s, h) {}
    if s.messages[m].status.Acked? {
      var h :| h in s.handlers && h.msg == m && h.phase.Acking?;
      assert h.processed;
    }
  }

  /** A delivery that was acked, nacked or lost to a crash stays so: no second reply is ever sent. */
  lemma {:induction false} OneReplyPerDelivery(l: Limits, s: State, acts: seq<Action>, h: nat)
    requires ValidRun(l, s, acts) && h < |s.handlers| && Finished(s.handlers[h])
    ensures h < |Final(l, s, acts).handlers| && Final(l, s, acts).handlers[h] == s.handlers[h]
    decreases |acts|
  {
    if acts != [] {
      OneReplyPerDelivery(l, Apply(s, acts[0]), acts[1..], h);
    }
  }

  /** Only a crash loses a delivery: one is Crashed exactly when the run crashed it. */
  lemma {:induction false} CrashedIff(l: Limits, s: State, acts: seq<Action>, h: nat)
    requires ValidRun(l, s, acts) && h < |Final(l, s, acts).handlers|
    requires h < |s.handlers| ==> !s.handlers[h].phase.Crashed?
    ensures Final(l, s, acts).handlers[h].phase.Crashed? <==> Crash(h) in acts
    decreases |acts|
  {
    if acts != [] {
      var next := Apply(s, acts[0]);
      assert acts == [acts[0]] + acts[1..];
      if acts[0] == Crash(h) {
        OneReplyPerDelivery(l, next, acts[1..], h);
      } else {
        CrashedIff(l, next, acts[1..], h);
      }
    }
  }

  /**
   A delivery that ran to its end was answered, by an ack exactly if its message was signed and well
   formed, and by a nak exactly if it was not.
   */
  lemma RepliesMatchMessages(l: Limits, acts: seq<Action>, h: nat)
    requires ValidRun(l, INIT, acts) && h < |Final(l, INIT, acts).handlers|
    requires Finished(Final(l, INIT, acts).handlers[h]) && Crash(h) !in acts
    ensures var s := Final(l, INIT, acts);
            var k := s.handlers[h];
            && k.msg < |s.messages|
            && (k.phase.Acking? <==> s.messages[k.msg].signed && s.messages[k.msg].wellFormed)
            && (k.phase.Naking? <==> !s.messages[k.msg].signed || !s.messages[k.msg].wellFormed)
  {
    InvRun(l, INIT, acts);
    CrashedIff(l, INIT, acts, h);
    var s := Final(l, INIT, acts);
    assert s.handlers[h] in s.handlers && HandlerOk(l, s, s.handlers[h]);
  }

  /**
   A nak frees its message at once: whatever step ends delivery h by a nak, until its third delivery
   the message can then be delivered again right away.
   */
  lemma NakMakesDeliverable(l: Limits, acts: seq<Action>, a: Action, h: nat)
    requires ValidRun(l, INIT, acts) && Enabled(l, Final(l, INIT, acts), a)
    requires h < |Final(l, INIT, acts).handlers| && !Finished(Final(l, INIT, acts).handlers[h])
    requires Apply(Final(l, INIT, acts), a).handlers[h].phase.Naking?
    ensures var s := Apply(Final(l, INIT, acts), a);
            var m := s.handlers[h].msg;
            m < |s.messages| && (Deliverable(s, m) <==> Count(s.handlers, Deliveries(m)) < 3)
  {
    var s := Final(l, INIT, acts);
    InvRun(l, INIT, acts);
    InvStep(l, s, a);
    var after := Apply(s, a);
    assert after.handlers[h] in after.handlers && HandlerOk(l, after, after.handlers[h]);
    var m := after.handlers[h].msg;
    assert MessageOk(after, m);
    forall k | k in after.handlers && k.msg == m ensures !k.phase.Acking? {
      assert HandlerOk(l, after, k);
    }
  }

  /** handle never runs twice at once for the same message. */
  ghost predicate NeverTwoHandlers(s: State) {
    forall i, j | 0 <= i < j < |s.handlers| && s.handlers[i].msg == s.handlers[j].msg ::
      !Live(s.handlers[i]) || !Live(s.handlers[j])
  }

  /**
   Duplicate rows need crashes: as long as no delivery outlives the ack wait, a signed, well-formed
   message is delivered at most once more than its deliveries were lost.
   */
  lemma DuplicatesNeedCrashes(l: Limits, acts: seq<Action>, m: nat)
    requires Quick(l) && ValidRun(l, INIT, acts)
    requires Good(Final(l, INIT, acts), m)
    ensures var s := Final(l, INIT, acts);
            && Count(s.handlers, Deliveries(m)) <= Count(s.handlers, Crashes(m)) + 1
            && Count(s.scores, RowOf(m)) <= Count(s.handlers, Crashes(m)) + 1
  {
    InvRun(l, INIT, acts);
    ExclusiveRun(l, INIT, acts);
    var s := Final(l, INIT, acts);
    CountAtMostOne(s.handlers, Unfailed(m));
    CountSplit(s.handlers, Deliveries(m), Crashes(m), Unfailed(m));
    CountMono(s.handlers, Insertions(m), Deliveries(m));
  }

  // ----- runs that reach the bounds

  lemma {:induction false} Then(l: Limits, s: State, acts: seq<Action>, a: Action)
    requires ValidRun(l, s, acts) && Enabled(l, Final(l, s, acts), a)
    ensures ValidRun(l, s, acts + [a])
    ensures Final(l, s, acts + [a]) == Apply(Final(l, s, acts), a)
    decreases |acts|
  {
    if acts == [] {
      var next := Apply(s, a);
      assert (acts + [a])[1..] == [] && ValidRun(l, next, []) && Final(l, next, []) == next;
    } else {
      assert (acts + [a])[1..] == acts[1..] + [a];
      Then(l, Apply(s, acts[0]), acts[1..], a);
    }
  }

  /** A message that is still under way when its ack wait ends meets its own redelivery. */
  lemma SlowDeliveryMeetsRedelivery(l: Limits) returns (acts: seq<Action>)
    requires !Quick(l)
    ensures ValidRun(l, INIT, acts)
    ensures !NeverTwoHandlers(Final(l, INIT, acts))
  {
    var w := Min(l.wait, ACK_WAIT);
    acts := [];
    Then(l, INIT, acts, Publish(true, true));
    acts := acts + [Publish(true, true)];
    Then(l, INIT, acts, Deliver(0, 0));
    acts := acts + [Deliver(0, 0)];
    assert Final(l, INIT, acts).handlers == [Handler(0, 0, 0, 0, Buffered, false, false)];
    Then(l, INIT, acts, Tick(w));
    acts := acts + [Tick(w)];
    Then(l, INIT, acts, Enter(0));
    acts := acts + [Enter(0)];
    assert Final(l, INIT, acts).handlers == [Handler(0, 0, 0, w, Entered, false, false)];
    Then(l, INIT, acts, Tick(ACK_WAIT - w));
    acts := acts + [Tick(ACK_WAIT - w)];
    Then(l, INIT, acts, Deliver(0, 1));
    acts := acts + [Deliver(0, 1)];
    Then(l, INIT, acts, Enter(1));
    acts := acts + [Enter(1)];
    var s := Final(l, INIT, acts);
    assert s.handlers == [Handler(0, 0, 0, w, Entered, false, false),
                          Handler(0, 1, ACK_WAIT, ACK_WAIT, Entered, false, false)];
    assert s.handlers[0].msg == s.handlers[1].msg && Live(s.handlers[0]) && Live(s.handlers[1]);
  }

  /**
   handle never runs twice at once for a message, in any run, exactly when the longest wait in a
   buffer and the longest call together stay below the ack wait.
   */
  lemma OneHandlerIff(l: Limits)
    ensures (forall acts | ValidRun(l, INIT, acts) :: NeverTwoHandlers(Final(l, INIT, acts)))
       <==> l.wait + l.deadline < 60_000
  {
    if Quick(l) {
      forall acts | ValidRun(l, INIT, acts) ensures NeverTwoHandlers(Final(l, INIT, acts)) {
        ExclusiveRun(l, INIT, acts);
      }
    } else {
      var acts := SlowDeliveryMeetsRedelivery(l);
    }
  }
}
