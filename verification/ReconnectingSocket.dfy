/**
 The browser's reconnecting socket (frontend/src/lib/websocket.ts): a class whose fields are changed
 by callbacks, and the state machine it implements. Delays are in milliseconds.
 */
module ReconnectingSocket {
  import opened Counting

  const FIRST_DELAY: nat := 1000
  const MAX_DELAY: nat := 30000

  /** A socket that has not fired onclose yet. */
  datatype Phase = Connecting | Opened | Closing

  /** A timer that was set: how many closes in a row came before the one that set it, and how long it waits. */
  datatype Wait = Wait(closes: nat, delay: nat)

  /**
   sockets holds every socket that is not closed yet, by number; the latest attempt is this.ws.
   timers counts the timers that are set and have not fired. closes counts the closes since the last
   open, and waits records every timer ever set.
   */
  datatype Model = Model(
    sockets: map<nat, Phase>,
    timers: nat,
    reconnectDelay: nat,
    shouldReconnect: bool,
    attempts: nat,
    closes: nat,
    waits: seq<Wait>)

  datatype Event = OnOpen(socket: nat) | OnClose(socket: nat) | OnTimer | Close

  function Connected(m: Model): Model {
    m.(sockets := m.sockets[m.attempts := Connecting], attempts := m.attempts + 1)
  }

  const INIT := Connected(Model(map[], 0, FIRST_DELAY, true, 0, 0, []))

  /** What the browser may do next, and the user's close(), which is always possible. */
  predicate Enabled(m: Model, e: Event) {
    match e
    case OnOpen(i) => i in m.sockets && m.sockets[i].Connecting?
    case OnClose(i) => i in m.sockets
    case OnTimer => m.timers > 0
    case Close => true
  }

  function Next(m: Model, e: Event): Model
    requires Enabled(m, e)
  {
    match e
    case OnOpen(i) => m.(sockets := m.sockets[i := Opened], reconnectDelay := FIRST_DELAY, closes := 0)
    case OnClose(i) =>
      var rest := m.(sockets := m.sockets - {i});
      if m.shouldReconnect
      then rest.(timers := m.timers + 1, closes := m.closes + 1, waits := m.waits + [Wait(m.closes, m.reconnectDelay)])
      else rest
    case OnTimer =>
      Connected(m.(timers := m.timers - 1, reconnectDelay := Min(m.reconnectDelay * 2, MAX_DELAY)))
    case Close =>
      var ws := m.attempts as int - 1;
      m.(shouldReconnect := false, sockets := if ws in m.sockets then m.sockets[ws := Closing] else m.sockets)
  }

  function Power2(k: nat): nat {
    if k == 0 then 1 else 2 * Power2(k - 1)
  }

  /** The wait that a close sets after k earlier closes in a row. */
  function Backoff(k: nat): nat {
    Min(FIRST_DELAY * Power2(k), MAX_DELAY)
  }

  ghost predicate Inv(m: Model) {
    && (m.timers == 0 || (m.timers == 1 && m.sockets == map[] && m.closes > 0))
    && (forall i, j | i in m.sockets && j in m.sockets :: i == j)
    && (forall i | i in m.sockets :: i + 1 == m.attempts)
    && m.reconnectDelay == Backoff(if m.timers == 1 then m.closes - 1 else m.closes)
    && (forall w | w in m.waits :: w.delay == Backoff(w.closes))
  }

  lemma InvNext(m: Model, e: Event)
    requires Inv(m) && Enabled(m, e)
    ensures Inv(Next(m, e))
  {
    if e.OnClose? {
      assert m.sockets - {e.socket} == map[];
    }
  }

  class ReconnectingWebSocket {
    var sockets: map<nat, Phase>
    var timers: nat
    var reconnectDelay: nat
    var shouldReconnect: bool
    var attempts: nat
    ghost var closes: nat
    ghost var waits: seq<Wait>

    ghost function Value(): Model
      reads this
    {
      Model(sockets, timers, reconnectDelay, shouldReconnect, attempts, closes, waits)
    }

    ghost predicate Valid()
      reads this
    {
      Inv(Value())
    }

    constructor ()
      ensures Valid() && Value() == INIT
    {
      sockets, timers, reconnectDelay, shouldReconnect, attempts := map[], 0, FIRST_DELAY, true, 0;
      closes, waits := 0, [];
      new;
      Connect();
    }

    method Connect()
      modifies this
      ensures Value() == Connected(old(Value()))
    {
      sockets := sockets[attempts := Connecting];
      attempts := attempts + 1;
    }

    method HandleOpen(i: nat)
      requires Valid() && Enabled(Value(), OnOpen(i))
      modifies this
      ensures Valid() && Value() == Next(old(Value()), OnOpen(i))
    {
      InvNext(Value(), OnOpen(i));
      sockets := sockets[i := Opened];
      reconnectDelay := 1000;
      closes := 0;
    }

    method HandleClose(i: nat)
      requires Valid() && Enabled(Value(), OnClose(i))
      modifies this
      ensures Valid() && Value() == Next(old(Value()), OnClose(i))
    {
      InvNext(Value(), OnClose(i));
      sockets := sockets - {i};
      if shouldReconnect {
        waits := waits + [Wait(closes, reconnectDelay)];
        closes := closes + 1;
        timers := timers + 1;
      }
    }

    method HandleTimer()
      requires Valid() && Enabled(Value(), OnTimer)
      modifies this
      ensures Valid() && Value() == Next(old(Value()), OnTimer)
    {
      InvNext(Value(), OnTimer);
      timers := timers - 1;
      reconnectDelay := if reconnectDelay * 2 <= MAX_DELAY then reconnectDelay * 2 else MAX_DELAY;
      Connect();
    }

    method CloseSocket()
      requires Valid()
      modifies this
      ensures Valid() && Value() == Next(old(Value()), Close)
    {
      InvNext(Value(), Close);
      shouldReconnect := false;
      if attempts > 0 && attempts - 1 in sockets {
        sockets := sockets[attempts - 1 := Closing];
      }
    }
  }

  ghost predicate ValidRun(m: Model, es: seq<Event>)
    decreases |es|
  {
    es == [] || (Enabled(m, es[0]) && ValidRun(Next(m, es[0]), es[1..]))
  }

  ghost function Final(m: Model, es: seq<Event>): Model
    requires ValidRun(m, es)
    decreases |es|
  {
    if es == [] then m else Final(Next(m, es[0]), es[1..])
  }

  lemma {:induction false} InvRun(m: Model, es: seq<Event>)
    requires Inv(m) && ValidRun(m, es)
    ensures Inv(Final(m, es))
    decreases |es|
  {
    if es != [] {
      InvNext(m, es[0]);
      InvRun(Next(m, es[0]), es[1..]);
    }
  }

  // ----- main results

  /** In every run there is at most one live socket or one pending timer, and never both. */
  lemma OneSocketOrOneTimer(es: seq<Event>)
    requires ValidRun(INIT, es)
    ensures var m := Final(INIT, es); |m.sockets| + m.timers <= 1
  {
    InvRun(INIT, es);
    var m := Final(INIT, es);
    if i :| i in m.sockets {
      assert m.sockets.Keys == {i};
      assert |m.sockets| == |m.sockets.Keys| == 1;
    } else {
      assert m.sockets == map[];
    }
  }

  /** Every timer set after k earlier closes in a row waits min(1000 * 2^k, 30000) ms. */
  lemma WaitsFollowTheBackoff(es: seq<Event>, n: nat)
    requires ValidRun(INIT, es) && n < |Final(INIT, es).waits|
    ensures var w := Final(INIT, es).waits[n]; w.delay == Min(1000 * Power2(w.closes), 30000)
  {
    InvRun(INIT, es);
    assert Final(INIT, es).waits[n] in Final(INIT, es).waits;
  }

  /** How many sockets closed since the last one opened. */
  function ClosesSinceOpen(es: seq<Event>): nat {
    if es == [] then 0
    else
      var before := ClosesSinceOpen(es[..|es| - 1]);
      match es[|es| - 1]
      case OnOpen(_) => 0
      case OnClose(_) => before + 1
      case _ => before
  }

  lemma {:induction false} RunInit(es: seq<Event>)
    requires es != [] && ValidRun(INIT, es)
    ensures var prefix := es[..|es| - 1];
            && ValidRun(INIT, prefix) && Enabled(Final(INIT, prefix), es[|es| - 1])
            && Final(INIT, es) == Next(Final(INIT, prefix), es[|es| - 1])
  {
    SplitLast(INIT, es);
  }

  lemma {:induction false} SplitLast(m: Model, es: seq<Event>)
    requires es != [] && ValidRun(m, es)
    ensures var prefix := es[..|es| - 1];
            && ValidRun(m, prefix) && Enabled(Final(m, prefix), es[|es| - 1])
            && Final(m, es) == Next(Final(m, prefix), es[|es| - 1])
    decreases |es|
  {
    if |es| == 1 {
      assert ValidRun(Next(m, es[0]), es[1..]) && es[..0] == [];
    } else {
      SplitLast(Next(m, es[0]), es[1..]);
      assert es[1..][..|es| - 2] == es[..|es| - 1][1..];
    }
  }

  /** Without close(), the browser is always either connected (or connecting) or about to be. */
  lemma {:induction false} AlwaysReconnects(es: seq<Event>)
    requires ValidRun(INIT, es) && Close !in es
    ensures var m := Final(INIT, es);
            && |m.sockets| + m.timers == 1 && m.shouldReconnect && m.closes == ClosesSinceOpen(es)
            && forall i | i in m.sockets :: !m.sockets[i].Closing?
  {
    if es != [] {
      var prefix, e := es[..|es| - 1], es[|es| - 1];
      RunInit(es);
      AlwaysReconnects(prefix);
      InvRun(INIT, prefix);
      InvRun(INIT, es);
      OneSocketOrOneTimer(es);
      var m := Final(INIT, prefix);
      match e
      case OnOpen(i) => assert |m.sockets[i := Opened]| == |m.sockets|;
      case OnClose(i) => assert Final(INIT, es).timers == 1;
      case OnTimer => assert m.attempts in Final(INIT, es).sockets;
      case Close =>
        assert false;
    }
  }

  /**
   The wait that a close sets, by the events alone: min(1000 * 2^k, 30000) ms after k closes since the
   last open, so 1000 ms right after an open.
   */
  lemma WaitAfterClose(es: seq<Event>, i: nat)
    requires ValidRun(INIT, es + [OnClose(i)]) && Close !in es
    ensures ValidRun(INIT, es)
    ensures var k := ClosesSinceOpen(es);
            var before, after := Final(INIT, es), Final(INIT, es + [OnClose(i)]);
            && after.timers == 1 && |after.waits| == |before.waits| + 1
            && after.waits[|before.waits|].delay == Min(1000 * Power2(k), 30000)
    ensures es != [] && es[|es| - 1].OnOpen? ==>
              Final(INIT, es + [OnClose(i)]).waits[|Final(INIT, es).waits|].delay == 1000
  {
    var all := es + [OnClose(i)];
    assert all[..|all| - 1] == es;
    RunInit(all);
    AlwaysReconnects(es);
    InvRun(INIT, es);
    InvRun(INIT, all);
  }

  /** After close() no timer is set any more, and only timers already set can still connect. */
  lemma {:induction false} AfterClose(m: Model, es: seq<Event>)
    requires !m.shouldReconnect && ValidRun(m, es)
    ensures var f := Final(m, es);
            && !f.shouldReconnect && f.waits == m.waits
            && m.attempts <= f.attempts && f.attempts + f.timers == m.attempts + m.timers
    decreases |es|
  {
    if es != [] {
      AfterClose(Next(m, es[0]), es[1..]);
    }
  }

  ghost predicate NoMoreAttempts(m: Model) {
    forall after | ValidRun(m, after) :: Final(m, after).attempts == m.attempts
  }

  lemma PendingTimerConnects(m: Model)
    requires m.timers > 0
    ensures !NoMoreAttempts(m)
  {
    var after := [OnTimer];
    var next := Next(m, OnTimer);
    assert after[1..] == [] && ValidRun(next, []) && Final(next, []) == next;
    assert ValidRun(m, after) && Final(m, after) == next;
  }

  /**
   After close() at most one more connection is attempted, and none at all exactly when no timer was
   pending at the time.
   */
  lemma CloseStopsReconnecting(before: seq<Event>)
    requires ValidRun(INIT, before)
    ensures var m := Final(INIT, before);
            var closed := Next(m, Close);
            && (forall after | ValidRun(closed, after) :: Final(closed, after).attempts <= m.attempts + 1)
            && (NoMoreAttempts(closed) <==> m.timers == 0)
  {
    InvRun(INIT, before);
    var m := Final(INIT, before);
    var closed := Next(m, Close);
    forall after | ValidRun(closed, after)
      ensures Final(closed, after).attempts <= m.attempts + 1
      ensures m.timers == 0 ==> Final(closed, after).attempts == m.attempts
    {
      AfterClose(closed, after);
    }
    if m.timers > 0 {
      PendingTimerConnects(closed);
    }
  }

  ghost predicate OnlyClosing(m: Model) {
    forall i | i in m.sockets :: m.sockets[i].Closing?
  }

  lemma {:induction false} StaysClosing(m: Model, es: seq<Event>)
    requires m.timers == 0 && !m.shouldReconnect && OnlyClosing(m) && ValidRun(m, es)
    ensures OnlyClosing(Final(m, es))
    decreases |es|
  {
    if es != [] {
      StaysClosing(Next(m, es[0]), es[1..]);
    }
  }

  /** The pending timer opens a socket that no later event of the class closes. */
  lemma PendingTimerOpens(m: Model) returns (es: seq<Event>)
    requires m.timers > 0
    ensures ValidRun(m, es) && Close !in es
    ensures !OnlyClosing(Final(m, es))
  {
    var i := m.attempts;
    es := [OnTimer, OnOpen(i)];
    var next := Next(m, OnTimer);
    var end := Next(next, OnOpen(i));
    assert es[1..] == [OnOpen(i)] && [OnOpen(i)][1..] == [];
    assert ValidRun(end, []) && Final(end, []) == end;
    assert ValidRun(next, [OnOpen(i)]) && Final(next, [OnOpen(i)]) == end;
    assert ValidRun(m, es) && Final(m, es) == end;
    assert i in end.sockets && end.sockets[i].Opened?;
  }

  /**
   close() closes for good, so that every socket that is still there in any continuation is closing,
   exactly when no timer was pending; otherwise a socket can be open that nobody will close.
   */
  lemma ClosesForGoodIff(before: seq<Event>)
    requires ValidRun(INIT, before)
    ensures var m := Final(INIT, before);
            var closed := Next(m, Close);
            (forall after | ValidRun(closed, after) && Close !in after :: OnlyClosing(Final(closed, after)))
            <==> m.timers == 0
  {
    InvRun(INIT, before);
    var m := Final(INIT, before);
    var closed := Next(m, Close);
    if m.timers == 0 {
      forall after | ValidRun(closed, after) && Close !in after ensures OnlyClosing(Final(closed, after)) {
        StaysClosing(closed, after);
      }
    } else {
      var es := PendingTimerOpens(closed);
    }
  }
}
