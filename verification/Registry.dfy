/**
 The analyzer registry's fan-out (agent/internal/analyzers/registry.go): one goroutine per analyzer,
 a buffered channel, a wait group, and a drain after the channel is closed. Every interleaving of
 the main goroutine and the workers is a run.
 */
module Registry {
  import opened Counting
  import opened HealthScore

  /** What one analyzer sends: its name, its issues and whether it reported an error. */
  datatype Partial = Partial(name: string, issues: seq<Issue>, failed: bool)

  datatype Worker = Unborn | Running | Ready | Sent | Exited

  datatype Main =
    | Adding(next: nat)
    | Launching(next: nat)
    | Waiting
    | Closing
    | Draining
    | Scoring
    | Returned

  /** The channel holds analyzer positions; drained is the order in which they were received. */
  datatype State = State(
    main: Main,
    workers: seq<Worker>,
    wg: int,
    buffer: seq<nat>,
    closed: bool,
    panicked: bool,
    drained: seq<nat>,
    names: seq<string>,
    issues: seq<Issue>,
    health: Option<real>)

  datatype Action = Step | Analyze(i: nat) | Send(i: nat) | Exit(i: nat)

  function Init(work: seq<Partial>): State {
    State(Adding(0), seq(|work|, _ => Unborn), 0, [], false, false, [], [], [], None)
  }

  /** A send to a full open channel and a receive from an empty open channel are not enabled. */
  predicate Enabled(work: seq<Partial>, s: State, a: Action) {
    && !s.panicked
    && match a
       case Step =>
         (match s.main
          case Adding(_) => true
          case Launching(i) => i < |s.workers|
          case Waiting => s.wg == 0
          case Closing => true
          case Draining =>
            if s.buffer != [] then s.buffer[0] < |work| else s.closed
          case Scoring => true
          case Returned => false)
       case Analyze(i) => i < |s.workers| && s.workers[i].Running?
       case Send(i) => i < |s.workers| && s.workers[i].Ready? && (s.closed || |s.buffer| < |work|)
       case Exit(i) => i < |s.workers| && s.workers[i].Sent?
  }

  ghost function Apply(work: seq<Partial>, s: State, a: Action): State
    requires Enabled(work, s, a)
  {
    match a
    case Step =>
      (match s.main
       case Adding(i) =>
         if i < |work| then s.(main := Launching(i), wg := s.wg + 1) else s.(main := Waiting)
       case Launching(i) => s.(main := Adding(i + 1), workers := s.workers[i := Running])
       case Waiting => s.(main := Closing)
       case Closing => s.(main := Draining, closed := true, panicked := s.closed)
       case Draining =>
         if s.buffer != [] then
           var p := work[s.buffer[0]];
           s.(buffer := s.buffer[1..], drained := s.drained + [s.buffer[0]],
              names := s.names + [p.name], issues := s.issues + p.issues)
         else
           s.(main := Scoring)
       case Scoring => s.(main := Returned, health := Some(Score(s.issues, AgentWeight))))
    case Analyze(i) => s.(workers := s.workers[i := Ready])
    case Send(i) =>
      s.(workers := s.workers[i := Sent], buffer := s.buffer + [i], panicked := s.closed)
    case Exit(i) =>
      s.(workers := s.workers[i := Exited], wg := s.wg - 1, panicked := s.wg - 1 < 0)
  }

  ghost predicate ValidRun(work: seq<Partial>, s: State, acts: seq<Action>)
    decreases |acts|
  {
    acts == [] || (Enabled(work, s, acts[0]) && ValidRun(work, Apply(work, s, acts[0]), acts[1..]))
  }

  ghost function Final(work: seq<Partial>, s: State, acts: seq<Action>): State
    requires ValidRun(work, s, acts)
    decreases |acts|
  {
    if acts == [] then s else Final(work, Apply(work, s, acts[0]), acts[1..])
  }

  // ----- the invariant

  ghost function IsActive(): Worker -> bool {
    (w: Worker) => w.Running? || w.Ready? || w.Sent?
  }

  ghost function HasSent(): Worker -> bool {
    (w: Worker) => w.Sent? || w.Exited?
  }

  function Launched(main: Main, n: nat): nat {
    match main
    case Adding(i) => i
    case Launching(i) => i
    case _ => n
  }

  predicate Joined(main: Main) {
    main.Closing? || main.Draining? || main.Scoring? || main.Returned?
  }

  predicate InRange(order: seq<nat>, n: nat) {
    forall k | 0 <= k < |order| :: order[k] < n
  }

  function Names(work: seq<Partial>, order: seq<nat>): seq<string>
    requires InRange(order, |work|)
  {
    seq(|order|, k requires 0 <= k < |order| => work[order[k]].name)
  }

  function Flatten(work: seq<Partial>, order: seq<nat>): seq<Issue>
    requires InRange(order, |work|)
  {
    if order == [] then []
    else Flatten(work, order[..|order| - 1]) + work[order[|order| - 1]].issues
  }

  ghost predicate WorkersInv(work: seq<Partial>, s: State) {
    && |s.workers| == |work|
    && Launched(s.main, |work|) <= |work|
    && (s.main.Launching? ==> s.main.next < |work|)
    && (forall i | 0 <= i < |work| :: s.workers[i].Unborn? <==> Launched(s.main, |work|) <= i)
    && s.wg == Count(s.workers, IsActive()) + (if s.main.Launching? then 1 else 0)
    && (Joined(s.main) ==> forall i | 0 <= i < |work| :: s.workers[i].Exited?)
  }

  ghost predicate ChannelInv(work: seq<Partial>, s: State) {
    var sent := s.drained + s.buffer;
    && NoDuplicates(sent)
    && InRange(sent, |s.workers|)
    && (forall i | 0 <= i < |s.workers| :: HasSent()(s.workers[i]) <==> i in sent)
    && |sent| == Count(s.workers, HasSent())
    && !s.panicked
    && (s.closed <==> Joined(s.main) && !s.main.Closing?)
    && (s.main.Scoring? || s.main.Returned? ==> s.buffer == [])
  }

  ghost predicate ResultInv(work: seq<Partial>, s: State) {
    && InRange(s.drained, |work|)
    && s.names == Names(work, s.drained)
    && s.issues == Flatten(work, s.drained)
    && (s.main.Returned? <==> s.health.Some?)
    && (s.main.Returned? ==> s.health == Some(Score(s.issues, AgentWeight)))
  }

  ghost predicate Inv(work: seq<Partial>, s: State) {
    WorkersInv(work, s) && ChannelInv(work, s) && ResultInv(work, s)
  }

  lemma InvInit(work: seq<Partial>)
    ensures Inv(work, Init(work))
  {
    CountNone(Init(work).workers, IsActive());
    CountNone(Init(work).workers, HasSent());
  }

  lemma NoneCounted(workers: seq<Worker>, i: nat)
    requires i < |workers| && Count(workers, IsActive()) == 0
    ensures !IsActive()(workers[i])
  {
    CountUpdate(workers, i, Exited, IsActive());
  }

  /** When the wait group is down to zero, every worker is done. */
  lemma AllExited(work: seq<Partial>, s: State)
    requires Inv(work, s) && s.main.Waiting? && s.wg == 0
    ensures forall i | 0 <= i < |work| :: s.workers[i].Exited?
  {
    forall i | 0 <= i < |work| ensures s.workers[i].Exited? {
      NoneCounted(s.workers, i);
    }
  }

  lemma WorkersLaunch(work: seq<Partial>, s: State)
    requires Inv(work, s) && s.main.Launching? && Enabled(work, s, Step)
    ensures WorkersInv(work, Apply(work, s, Step))
  {
    CountUpdate(s.workers, s.main.next, Running, IsActive());
  }

  lemma WorkersMain(work: seq<Partial>, s: State)
    requires Inv(work, s) && Enabled(work, s, Step)
    ensures WorkersInv(work, Apply(work, s, Step))
  {
    match s.main
    case Launching(_) => WorkersLaunch(work, s);
    case Waiting => AllExited(work, s);
    case _ =>
  }

  lemma WorkersOther(work: seq<Partial>, s: State, a: Action)
    requires Inv(work, s) && Enabled(work, s, a) && !a.Step?
    ensures WorkersInv(work, Apply(work, s, a))
  {
    CountUpdate(s.workers, a.i, Apply(work, s, a).workers[a.i], IsActive());
  }

  /** A worker that is about to send has not sent yet, so its position is new in the channel. */
  lemma ChannelSend(work: seq<Partial>, s: State, i: nat)
    requires Inv(work, s) && Enabled(work, s, Send(i))
    ensures ChannelInv(work, Apply(work, s, Send(i)))
  {
    var s' := Apply(work, s, Send(i));
    var sent, sent' := s.drained + s.buffer, s'.drained + s'.buffer;
    CountUpdate(s.workers, i, Sent, HasSent());
    assert sent' == sent + [i];
    assert i !in sent;
    assert NoDuplicates(sent');
    forall j | 0 <= j < |s'.workers| ensures HasSent()(s'.workers[j]) <==> j in sent' {
      assert j in sent' <==> j in sent || j == i;
    }
  }

  lemma ChannelLaunch(work: seq<Partial>, s: State)
    requires Inv(work, s) && s.main.Launching? && Enabled(work, s, Step)
    ensures ChannelInv(work, Apply(work, s, Step))
  {
    var s' := Apply(work, s, Step);
    CountUpdate(s.workers, s.main.next, Running, HasSent());
    assert forall j | 0 <= j < |s.workers| :: HasSent()(s'.workers[j]) == HasSent()(s.workers[j]);
  }

  /** Receiving moves a position from the buffer to the drained ones. */
  lemma ChannelDrain(work: seq<Partial>, s: State)
    requires Inv(work, s) && s.main.Draining? && s.buffer != [] && Enabled(work, s, Step)
    ensures ChannelInv(work, Apply(work, s, Step))
  {
    var s' := Apply(work, s, Step);
    assert s'.drained + s'.buffer == s.drained + s.buffer;
  }

  /** The other steps of the main goroutine touch neither the workers nor what was sent. */
  lemma ChannelQuiet(work: seq<Partial>, s: State)
    requires Inv(work, s) && Enabled(work, s, Step)
    requires !s.main.Launching? && !(s.main.Draining? && s.buffer != [])
    ensures ChannelInv(work, Apply(work, s, Step))
  {
    var s' := Apply(work, s, Step);
    assert s'.workers == s.workers && s'.drained == s.drained && s'.buffer == s.buffer;
  }

  lemma ChannelMain(work: seq<Partial>, s: State)
    requires Inv(work, s) && Enabled(work, s, Step)
    ensures ChannelInv(work, Apply(work, s, Step))
  {
    if s.main.Launching? {
      ChannelLaunch(work, s);
    } else if s.main.Draining? && s.buffer != [] {
      ChannelDrain(work, s);
    } else {
      ChannelQuiet(work, s);
    }
  }

  lemma ChannelOther(work: seq<Partial>, s: State, a: Action)
    requires Inv(work, s) && Enabled(work, s, a) && (a.Analyze? || a.Exit?)
    ensures ChannelInv(work, Apply(work, s, a))
  {
    var s' := Apply(work, s, a);
    CountUpdate(s.workers, a.i, s'.workers[a.i], HasSent());
    CountUpdate(s.workers, a.i, Exited, IsActive());
    assert forall j | 0 <= j < |s.workers| :: HasSent()(s'.workers[j]) == HasSent()(s.workers[j]);
  }

  lemma ResultDrain(work: seq<Partial>, s: State)
    requires Inv(work, s) && s.main.Draining? && s.buffer != [] && Enabled(work, s, Step)
    ensures ResultInv(work, Apply(work, s, Step))
  {
    var s' := Apply(work, s, Step);
    assert s'.drained[..|s'.drained| - 1] == s.drained;
    assert s'.names == Names(work, s'.drained);
  }

  lemma ResultKept(work: seq<Partial>, s: State, a: Action)
    requires Inv(work, s) && Enabled(work, s, a) && !(a.Step? && s.main.Draining? && s.buffer != [])
    ensures ResultInv(work, Apply(work, s, a))
  {
    var s' := Apply(work, s, a);
    assert s'.drained == s.drained && s'.names == s.names && s'.issues == s.issues;
  }

  lemma ResultStep(work: seq<Partial>, s: State, a: Action)
    requires Inv(work, s) && Enabled(work, s, a)
    ensures ResultInv(work, Apply(work, s, a))
  {
    if a.Step? && s.main.Draining? && s.buffer != [] {
      ResultDrain(work, s);
    } else {
      ResultKept(work, s, a);
    }
  }

  lemma InvStep(work: seq<Partial>, s: State, a: Action)
    requires Inv(work, s) && Enabled(work, s, a)
    ensures Inv(work, Apply(work, s, a))
  {
    ResultStep(work, s, a);
    match a
    case Step =>
      WorkersMain(work, s);
      ChannelMain(work, s);
    case Send(i) =>
      WorkersOther(work, s, a);
      ChannelSend(work, s, i);
    case _ =>
      WorkersOther(work, s, a);
      ChannelOther(work, s, a);
  }

  // ----- progress

  ghost function ToAnalyze(): Worker -> bool {
    (w: Worker) => w.Unborn? || w.Running?
  }

  ghost function ToSend(): Worker -> bool {
    (w: Worker) => w.Unborn? || w.Running? || w.Ready?
  }

  ghost function ToExit(): Worker -> bool {
    (w: Worker) => !w.Exited?
  }

  function MainSteps(main: Main, n: nat): int {
    match main
    case Adding(i) => 2 * (n - i) + 5
    case Launching(i) => 2 * (n - i) + 4
    case Waiting => 4
    case Closing => 3
    case Draining => 2
    case Scoring => 1
    case Returned => 0
  }

  /**
   Steps still to come: those of the main goroutine's own code, one per partial not yet received,
   and three per analyzer (analyze, send, exit).
   */
  ghost function Remaining(work: seq<Partial>, s: State): int {
    MainSteps(s.main, |work|) + (|work| - |s.drained|)
    + Count(s.workers, ToAnalyze()) + Count(s.workers, ToSend()) + Count(s.workers, ToExit())
  }

  lemma WorkerRewritten(workers: seq<Worker>, i: nat, w: Worker)
    requires i < |workers|
    ensures Count(workers[i := w], ToAnalyze())
         == Count(workers, ToAnalyze()) - (if ToAnalyze()(workers[i]) then 1 else 0) + (if ToAnalyze()(w) then 1 else 0)
    ensures Count(workers[i := w], ToSend())
         == Count(workers, ToSend()) - (if ToSend()(workers[i]) then 1 else 0) + (if ToSend()(w) then 1 else 0)
    ensures Count(workers[i := w], ToExit())
         == Count(workers, ToExit()) - (if ToExit()(workers[i]) then 1 else 0) + (if ToExit()(w) then 1 else 0)
  {
    CountUpdate(workers, i, w, ToAnalyze());
    CountUpdate(workers, i, w, ToSend());
    CountUpdate(workers, i, w, ToExit());
  }

  lemma RemainingLaunch(work: seq<Partial>, s: State)
    requires Inv(work, s) && s.main.Launching? && Enabled(work, s, Step)
    ensures Remaining(work, Apply(work, s, Step)) == Remaining(work, s) - 1
  {
    WorkerRewritten(s.workers, s.main.next, Running);
  }

  lemma RemainingMain(work: seq<Partial>, s: State)
    requires Inv(work, s) && !s.main.Launching? && Enabled(work, s, Step)
    ensures Remaining(work, Apply(work, s, Step)) == Remaining(work, s) - 1
  {
    assert Apply(work, s, Step).workers == s.workers;
  }

  lemma RemainingWorker(work: seq<Partial>, s: State, a: Action)
    requires !a.Step? && Enabled(work, s, a)
    ensures Remaining(work, Apply(work, s, a)) == Remaining(work, s) - 1
  {
    WorkerRewritten(s.workers, a.i, Apply(work, s, a).workers[a.i]);
  }

  lemma RemainingStep(work: seq<Partial>, s: State, a: Action)
    requires Inv(work, s) && Enabled(work, s, a)
    ensures Remaining(work, Apply(work, s, a)) == Remaining(work, s) - 1
  {
    if !a.Step? {
      RemainingWorker(work, s, a);
    } else if s.main.Launching? {
      RemainingLaunch(work, s);
    } else {
      RemainingMain(work, s);
    }
  }

  lemma {:induction false} CountAtMostLength<T>(s: seq<T>, p: T -> bool)
    ensures Count(s, p) <= |s|
  {
    if s != [] {
      CountAtMostLength(s[..|s| - 1], p);
    }
  }

  lemma NothingRemains(work: seq<Partial>, s: State)
    requires Inv(work, s)
    ensures Remaining(work, s) >= 0
    ensures Remaining(work, s) == 0 <==> s.main.Returned?
  {
    CountAtMostLength(s.workers, HasSent());
    if s.main.Returned? {
      CountAll(s.workers, HasSent());
      CountNone(s.workers, ToAnalyze());
      CountNone(s.workers, ToSend());
      CountNone(s.workers, ToExit());
      assert s.drained + s.buffer == s.drained;
    }
  }

  lemma {:induction false} InvRun(work: seq<Partial>, s: State, acts: seq<Action>)
    requires Inv(work, s) && ValidRun(work, s, acts)
    ensures Inv(work, Final(work, s, acts))
    ensures Remaining(work, Final(work, s, acts)) == Remaining(work, s) - |acts|
    decreases |acts|
  {
    if acts != [] {
      InvStep(work, s, acts[0]);
      RemainingStep(work, s, acts[0]);
      InvRun(work, Apply(work, s, acts[0]), acts[1..]);
    }
  }

  // ----- main results

  /** No schedule blocks a sender, sends on the closed channel, or makes the wait group negative. */
  lemma SendsNeverBlock(work: seq<Partial>, acts: seq<Action>, i: nat)
    requires ValidRun(work, Init(work), acts)
    requires var s := Final(work, Init(work), acts); i < |s.workers| && s.workers[i].Ready?
    ensures var s := Final(work, Init(work), acts);
            !s.panicked && !s.closed && |s.buffer| < |work| && Enabled(work, s, Send(i))
  {
    InvInit(work);
    InvRun(work, Init(work), acts);
    var s := Final(work, Init(work), acts);
    CountUpdate(s.workers, i, Sent, HasSent());
    CountAtMostLength(s.workers[i := Sent], HasSent());
  }

  /** No deadlock: until Run has returned, some goroutine can take a step. */
  lemma AlwaysAStep(work: seq<Partial>, acts: seq<Action>)
    requires ValidRun(work, Init(work), acts)
    ensures var s := Final(work, Init(work), acts);
            s.main.Returned? || exists a :: Enabled(work, s, a)
  {
    InvInit(work);
    InvRun(work, Init(work), acts);
    var s := Final(work, Init(work), acts);
    if s.main.Waiting? && s.wg != 0 {
      WaitingHasAStep(work, acts);
    } else if !s.main.Returned? {
      assert s.main.Draining? && s.buffer != [] ==> (s.drained + s.buffer)[|s.drained|] == s.buffer[0];
      assert Enabled(work, s, Step);
    }
  }

  lemma WaitingHasAStep(work: seq<Partial>, acts: seq<Action>)
    requires ValidRun(work, Init(work), acts)
    requires var s := Final(work, Init(work), acts); Inv(work, s) && s.main.Waiting? && s.wg != 0
    ensures exists a :: Enabled(work, Final(work, Init(work), acts), a)
  {
    var s := Final(work, Init(work), acts);
    if forall i | 0 <= i < |work| :: s.workers[i].Exited? {
      CountNone(s.workers, IsActive());
      assert false;
    }
    var i :| 0 <= i < |work| && !s.workers[i].Exited?;
    if s.workers[i].Running? {
      assert Enabled(work, s, Analyze(i));
    } else if s.workers[i].Ready? {
      SendsNeverBlock(work, acts, i);
      assert Enabled(work, s, Send(i));
    } else {
      assert Enabled(work, s, Exit(i));
    }
  }

  /**
   Every schedule finishes, and all schedules are equally long: with n analyzers, Run has returned
   exactly when 6n + 5 steps have been taken, and no run takes more.
   */
  lemma EveryRunFinishes(work: seq<Partial>, acts: seq<Action>)
    requires ValidRun(work, Init(work), acts)
    ensures |acts| <= 6 * |work| + 5
    ensures Final(work, Init(work), acts).main.Returned? <==> |acts| == 6 * |work| + 5
  {
    InvInit(work);
    InvRun(work, Init(work), acts);
    NothingRemains(work, Final(work, Init(work), acts));
    var workers := Init(work).workers;
    CountAll(workers, ToAnalyze());
    CountAll(workers, ToSend());
    CountAll(workers, ToExit());
  }

  function Registered(work: seq<Partial>): seq<nat> {
    seq(|work|, i => i)
  }

  ghost function IssueCopies(work: seq<Partial>, x: Issue): nat -> real {
    (i: nat) => if i < |work| then multiset(work[i].issues)[x] as real else 0.0
  }

  ghost function NameCopies(work: seq<Partial>, x: string): nat -> real {
    (i: nat) => if i < |work| && work[i].name == x then 1.0 else 0.0
  }

  lemma {:induction false} FlattenCopies(work: seq<Partial>, order: seq<nat>, x: Issue)
    requires InRange(order, |work|)
    ensures multiset(Flatten(work, order))[x] as real == Sum(order, IssueCopies(work, x))
  {
    if order != [] {
      var rest, i := order[..|order| - 1], order[|order| - 1];
      FlattenCopies(work, rest, x);
      SumPush(rest, i, IssueCopies(work, x));
      assert order == rest + [i];
    }
  }

  lemma {:induction false} NamesCopies(work: seq<Partial>, order: seq<nat>, x: string)
    requires InRange(order, |work|)
    ensures multiset(Names(work, order))[x] as real == Sum(order, NameCopies(work, x))
  {
    if order != [] {
      var rest, i := order[..|order| - 1], order[|order| - 1];
      NamesCopies(work, rest, x);
      SumPush(rest, i, NameCopies(work, x));
      assert order == rest + [i];
      assert Names(work, order) == Names(work, rest) + [work[i].name];
    }
  }

  /** Once Run has returned, every analyzer was received exactly once. */
  lemma DrainedIsPermutation(work: seq<Partial>, s: State)
    requires Inv(work, s) && s.main.Returned?
    ensures multiset(s.drained) == multiset(Registered(work))
  {
    var r := Registered(work);
    assert s.drained + s.buffer == s.drained;
    forall x: nat ensures multiset(s.drained)[x] == multiset(r)[x] {
      CopiesOf(s.drained, x);
      CopiesOf(r, x);
      assert x < |work| ==> r[x] == x && s.workers[x].Exited?;
      assert x in r <==> x < |work|;
      assert x in s.drained <==> x < |work|;
    }
  }

  /**
   In every schedule Run returns the issues of all analyzers and each analyzer's name once, as a
   multiset, and the same health score: that of the issues taken in registration order.
   */
  lemma ResultIsScheduleFree(work: seq<Partial>, acts: seq<Action>)
    requires ValidRun(work, Init(work), acts)
    requires Final(work, Init(work), acts).main.Returned?
    ensures var s := Final(work, Init(work), acts);
            && multiset(s.names) == multiset(Names(work, Registered(work)))
            && multiset(s.issues) == multiset(Flatten(work, Registered(work)))
            && s.health == Some(Score(Flatten(work, Registered(work)), AgentWeight))
  {
    InvInit(work);
    InvRun(work, Init(work), acts);
    var s := Final(work, Init(work), acts);
    var r := Registered(work);
    DrainedIsPermutation(work, s);
    forall x ensures multiset(s.names)[x] == multiset(Names(work, r))[x] {
      NamesCopies(work, s.drained, x);
      NamesCopies(work, r, x);
      SumPermutation(s.drained, r, NameCopies(work, x));
    }
    forall x ensures multiset(s.issues)[x] == multiset(Flatten(work, r))[x] {
      FlattenCopies(work, s.drained, x);
      FlattenCopies(work, r, x);
      SumPermutation(s.drained, r, IssueCopies(work, x));
    }
    ScorePermutation(s.issues, Flatten(work, r), AgentWeight);
  }

  // ----- the registered analyzers

  datatype Config = Config(
    enableHPA: bool,
    enablePDB: bool,
    enableNetworkPolicy: bool,
    enableSecurity: bool,
    enableLog: bool,
    enableStorage: bool,
    enableGateway: bool,
    enableOLM: bool)

  const CORE: nat := 14

  const ALL: seq<string> := [
    "podAnalyzer", "pvcAnalyzer", "rsAnalyzer", "serviceAnalyzer", "eventAnalyzer",
    "ingressAnalyzer", "statefulSetAnalyzer", "deploymentAnalyzer", "jobAnalyzer",
    "cronJobAnalyzer", "nodeAnalyzer", "mutatingWebhookAnalyzer", "validatingWebhookAnalyzer",
    "configMapAnalyzer", "hpaAnalyzer", "pdbAnalyzer", "networkPolicyAnalyzer",
    "securityAnalyzer", "logAnalyzer", "storageAnalyzer", "gatewayClassAnalyzer",
    "gatewayAnalyzer", "httpRouteAnalyzer", "olmAnalyzer"]

  function Segment(on: bool, lo: nat, hi: nat): seq<string>
    requires lo <= hi <= |ALL|
  {
    if on then ALL[lo..hi] else []
  }

  /** The names NewRegistry registers, in order: the core analyzers and the enabled optional ones. */
  function NewRegistry(cfg: Config): seq<string> {
    ALL[..CORE]
    + Segment(cfg.enableHPA, 14, 15) + Segment(cfg.enablePDB, 15, 16)
    + Segment(cfg.enableNetworkPolicy, 16, 17) + Segment(cfg.enableSecurity, 17, 18)
    + Segment(cfg.enableLog, 18, 19) + Segment(cfg.enableStorage, 19, 20)
    + Segment(cfg.enableGateway, 20, 23) + Segment(cfg.enableOLM, 23, 24)
  }

  lemma AllDistinct()
    ensures NoDuplicates(ALL)
  {
    assert |ALL| == 24;
    forall i, j | 0 <= i < j < |ALL| ensures ALL[i] != ALL[j] {
      if |ALL[i]| == |ALL[j]| {
        assert ALL[i][0] != ALL[j][0] || ALL[i][1] != ALL[j][1] || ALL[i][2] != ALL[j][2];
      }
    }
  }

  /** names is made of distinct names among the first n of all. */
  ghost predicate From(all: seq<string>, names: seq<string>, n: nat)
    requires n <= |all|
  {
    NoDuplicates(names) && forall x | x in names :: x in all[..n]
  }

  lemma AddSlice(all: seq<string>, names: seq<string>, lo: nat, hi: nat)
    requires lo <= hi <= |all| && NoDuplicates(all) && From(all, names, lo)
    ensures From(all, names + all[lo..hi], hi)
    ensures From(all, names, hi)
  {
    var more := all[lo..hi];
    forall i, j | 0 <= i < |names| && 0 <= j < |more| ensures names[i] != more[j] {
      assert names[i] in all[..lo];
      var k :| 0 <= k < lo && all[k] == names[i];
      assert more[j] == all[lo + j];
    }
    assert all[..hi] == all[..lo] + more;
  }

  lemma AddSegment(names: seq<string>, on: bool, lo: nat, hi: nat)
    requires lo <= hi <= |ALL| && NoDuplicates(ALL) && From(ALL, names, lo)
    ensures From(ALL, names + Segment(on, lo, hi), hi)
  {
    AddSlice(ALL, names, lo, hi);
    assert names + [] == names;
  }

  /** Whatever is enabled, no name is registered twice. */
  lemma NamesAreDistinct(cfg: Config)
    ensures NoDuplicates(NewRegistry(cfg))
  {
    AllDistinct();
    var names := ALL[..CORE];
    AddSegment(names, cfg.enableHPA, 14, 15);
    names := names + Segment(cfg.enableHPA, 14, 15);
    AddSegment(names, cfg.enablePDB, 15, 16);
    names := names + Segment(cfg.enablePDB, 15, 16);
    AddSegment(names, cfg.enableNetworkPolicy, 16, 17);
    names := names + Segment(cfg.enableNetworkPolicy, 16, 17);
    AddSegment(names, cfg.enableSecurity, 17, 18);
    names := names + Segment(cfg.enableSecurity, 17, 18);
    AddSegment(names, cfg.enableLog, 18, 19);
    names := names + Segment(cfg.enableLog, 18, 19);
    AddSegment(names, cfg.enableStorage, 19, 20);
    names := names + Segment(cfg.enableStorage, 19, 20);
    AddSegment(names, cfg.enableGateway, 20, 23);
    names := names + Segment(cfg.enableGateway, 20, 23);
    AddSegment(names, cfg.enableOLM, 23, 24);
  }

  lemma SegmentMembers(on: bool, lo: nat, hi: nat, i: nat)
    requires lo <= hi <= |ALL| && i < |ALL| && NoDuplicates(ALL)
    ensures ALL[i] in Segment(on, lo, hi) <==> on && lo <= i < hi
  {
    if on && lo <= i < hi {
      assert ALL[lo..hi][i - lo] == ALL[i];
    }
  }

  /** Analyzer i of the 24 is registered if it is a core one or its segment is enabled. */
  lemma RegisteredIff(cfg: Config, i: nat)
    requires i < |ALL|
    ensures ALL[i] in NewRegistry(cfg)
       <==> i < 14 || (i == 14 && cfg.enableHPA) || (i == 15 && cfg.enablePDB) || (i == 16 && cfg.enableNetworkPolicy)
            || (i == 17 && cfg.enableSecurity) || (i == 18 && cfg.enableLog) || (i == 19 && cfg.enableStorage)
            || (20 <= i < 23 && cfg.enableGateway) || (i == 23 && cfg.enableOLM)
  {
    AllDistinct();
    SegmentMembers(true, 0, CORE, i);
    assert ALL[..CORE] == Segment(true, 0, CORE);
    SegmentMembers(cfg.enableHPA, 14, 15, i);
    SegmentMembers(cfg.enablePDB, 15, 16, i);
    SegmentMembers(cfg.enableNetworkPolicy, 16, 17, i);
    SegmentMembers(cfg.enableSecurity, 17, 18, i);
    SegmentMembers(cfg.enableLog, 18, 19, i);
    SegmentMembers(cfg.enableStorage, 19, 20, i);
    SegmentMembers(cfg.enableGateway, 20, 23, i);
    SegmentMembers(cfg.enableOLM, 23, 24, i);
  }

  /** Each optional analyzer is registered exactly when its switch is on. */
  lemma SwitchesRegister(cfg: Config)
    ensures "hpaAnalyzer" in NewRegistry(cfg) <==> cfg.enableHPA
    ensures "pdbAnalyzer" in NewRegistry(cfg) <==> cfg.enablePDB
    ensures "networkPolicyAnalyzer" in NewRegistry(cfg) <==> cfg.enableNetworkPolicy
    ensures "securityAnalyzer" in NewRegistry(cfg) <==> cfg.enableSecurity
    ensures "logAnalyzer" in NewRegistry(cfg) <==> cfg.enableLog
    ensures "storageAnalyzer" in NewRegistry(cfg) <==> cfg.enableStorage
    ensures "gatewayClassAnalyzer" in NewRegistry(cfg) <==> cfg.enableGateway
    ensures "gatewayAnalyzer" in NewRegistry(cfg) <==> cfg.enableGateway
    ensures "httpRouteAnalyzer" in NewRegistry(cfg) <==> cfg.enableGateway
    ensures "olmAnalyzer" in NewRegistry(cfg) <==> cfg.enableOLM
  {
    RegisteredIff(cfg, 14);
    RegisteredIff(cfg, 15);
    RegisteredIff(cfg, 16);
    RegisteredIff(cfg, 17);
    RegisteredIff(cfg, 18);
    RegisteredIff(cfg, 19);
    RegisteredIff(cfg, 20);
    RegisteredIff(cfg, 21);
    RegisteredIff(cfg, 22);
    RegisteredIff(cfg, 23);
    assert ALL[14..20] == ["hpaAnalyzer", "pdbAnalyzer", "networkPolicyAnalyzer", "securityAnalyzer", "logAnalyzer",
                           "storageAnalyzer"];
    assert ALL[20..] == ["gatewayClassAnalyzer", "gatewayAnalyzer", "httpRouteAnalyzer", "olmAnalyzer"];
  }

  /** The fourteen core analyzers are always registered, before all others. */
  lemma CoreIsRegistered(cfg: Config)
    ensures |NewRegistry(cfg)| >= 14
    ensures NewRegistry(cfg)[..14] == [
      "podAnalyzer", "pvcAnalyzer", "rsAnalyzer", "serviceAnalyzer", "eventAnalyzer", "ingressAnalyzer",
      "statefulSetAnalyzer", "deploymentAnalyzer", "jobAnalyzer", "cronJobAnalyzer", "nodeAnalyzer",
      "mutatingWebhookAnalyzer", "validatingWebhookAnalyzer", "configMapAnalyzer"]
  {
  }

  /** So every schedule records each registered analyzer exactly once, and nothing else. */
  lemma EachAnalyzerOnce(cfg: Config, work: seq<Partial>, acts: seq<Action>, name: string)
    requires Names(work, Registered(work)) == NewRegistry(cfg)
    requires ValidRun(work, Init(work), acts) && Final(work, Init(work), acts).main.Returned?
    ensures multiset(Final(work, Init(work), acts).names)[name] == if name in NewRegistry(cfg) then 1 else 0
  {
    ResultIsScheduleFree(work, acts);
    NamesAreDistinct(cfg);
    CopiesOf(NewRegistry(cfg), name);
  }
}
