/** What the reconnecting WebSocket guarantees over whole runs. */
module SocketTheorems {
  import opened Basics
  import opened ConnectionLedger
  import opened SocketProtocol

  /** The state after any events on a fresh connection. */
  function After(o: Options, events: seq<Event>): State {
    Run(o, Initial(o), events)
  }

  lemma AfterInv(o: Options, events: seq<Event>)
    requires Sensible(o)
    ensures Inv(o, After(o, events)) && CreateFits(After(o, events))
  {
    InitialInv(o);
    RunInv(o, Initial(o), events);
    RunCreateFits(o, Initial(o), events);
  }

  // ----- sockets and timers -----

  /** A retry timer is live exactly in AWAITING_RETRY; connected means a socket; down means neither. */
  lemma StateDecidesSocketAndTimer(o: Options, events: seq<Event>)
    requires Sensible(o)
    ensures var t := After(o, events);
            && (t.timer <==> t.st.AwaitingRetry?)
            && (t.st.Connected? ==> t.current.Some? && t.current.value !in t.world.closed)
            && (t.st.Idle? || t.st.Disconnected? || t.st.Disposed? ==> t.current.None? && !t.timer)
  {
    AfterInv(o, events);
  }

  // ----- backoff -----

  /**
   * The next delay is `min(initial * 2^k, max)`, `k` the retries since the last opening or
   * resume, exactly if a retry was scheduled or the initial delay respects the maximum.
   */
  lemma BackoffExactly(o: Options, events: seq<Event>)
    requires Sensible(o)
    ensures var t := After(o, events); var k := TallyOf(t.ledger.log).retries;
            t.backoff == Min(Doubled(o.initial, k), o.max) <==> (k > 0 || o.initial <= o.max)
  {
    AfterInv(o, events);
  }

  lemma {:induction false} DoubledNonNegative(x: real, k: nat)
    requires x >= 0.0
    ensures Doubled(x, k) >= 0.0
  {
    if k > 0 { DoubledNonNegative(x, k - 1); }
  }

  lemma ProductNonNegative(x: real, y: real)
    requires x >= 0.0 && y >= 0.0
    ensures Times(x, y) >= 0.0
  {
  }

  /** The larger of the two configured delays, and the jitter on top of it. */
  function LongestDelay(o: Options): real {
    var backoff := Larger(o.initial, o.max);
    backoff + Times(backoff, o.jitter)
  }

  lemma TimesDistributes(x: real, y: real, z: real)
    ensures Times(x, y - z) == Times(x, y) - Times(x, z) && Times(y - z, x) == Times(y, x) - Times(z, x)
  {
  }

  lemma TimesConstants(x: real, u: real)
    ensures Times(x, 1.0) == x && Times(x, u * 2.0) == Times(x, u) + Times(x, u)
  {
  }

  lemma JitterBounds(spread: real, u: Draw)
    requires spread >= 0.0
    ensures -spread <= Times(spread, u * 2.0 - 1.0) <= spread
  {
    TimesDistributes(spread, u * 2.0, 1.0);
    TimesConstants(spread, u);
    ProductNonNegative(spread, u);
    ProductNonNegative(spread, 1.0 - u);
    TimesDistributes(spread, 1.0, u);
  }

  lemma SpreadBounded(backoff: real, most: real, jitter: real)
    requires 0.0 <= backoff <= most && jitter >= 0.0
    ensures 0.0 <= Times(backoff, jitter) <= Times(most, jitter)
  {
    ProductNonNegative(backoff, jitter);
    ProductNonNegative(most - backoff, jitter);
    TimesDistributes(jitter, most, backoff);
  }

  lemma JitteredBounds(backoff: real, spread: real, swing: real, most: real, mostSpread: real)
    requires 0.0 <= backoff <= most && spread <= mostSpread && -spread <= swing <= spread
    ensures 0.0 <= Larger(0.0, backoff + swing) <= most + mostSpread
  {
  }

  lemma DelayBounds(o: Options, backoff: real, u: Draw)
    requires Sensible(o) && 0.0 <= backoff <= Larger(o.initial, o.max)
    ensures 0.0 <= Delay(o, backoff, u) <= LongestDelay(o)
  {
    var most, spread := Larger(o.initial, o.max), Times(backoff, o.jitter);
    var mostSpread, swing := Times(most, o.jitter), Times(spread, u * 2.0 - 1.0);
    SpreadBounded(backoff, most, o.jitter);
    JitterBounds(spread, u);
    JitteredBounds(backoff, spread, swing, most, mostSpread);
  }

  lemma BackoffBounded(o: Options, s: State)
    requires Inv(o, s) && Sensible(o)
    ensures 0.0 <= s.backoff <= Larger(o.initial, o.max)
  {
    DoubledNonNegative(o.initial, TallyOf(s.ledger.log).retries);
  }

  /** A step's retry, if it schedules one, is the only thing that moves the longest delay. */
  predicate AtMostRetries(s: State, t: State, delay: real) {
    t.ledger.longest == s.ledger.longest || t.ledger.longest == Larger(s.ledger.longest, delay)
  }

  lemma LeaveKeepsLongest(s: State, action: Action, reason: Reason, cause: Cause, code: Option<int>)
    ensures Leave(s, action, reason, cause, code).ledger.longest == s.ledger.longest
  {
  }

  lemma RetryLongest(o: Options, s: State, reason: Reason, cause: Cause, code: Option<int>, delay: real)
    ensures AtMostRetries(s, Retry(o, s, reason, cause, code, delay), delay)
  {
  }

  lemma FailureLongest(o: Options, s: State, failure: Failure, delay: real)
    ensures AtMostRetries(s, ConnectionFailed(o, s, failure, delay), delay)
  {
    LeaveKeepsLongest(s, DISCONNECT, UnrecoverableHttp, ByError, None);
    RetryLongest(o, s, ConnectionError, ByError, None, delay);
  }

  lemma ClosedLongest(o: Options, s: State, socket: nat, code: int, delay: real)
    ensures AtMostRetries(s, SocketClosed(o, s, socket, code, delay), delay)
  {
    var t := Called(s, OnClose(socket));
    LeaveKeepsLongest(t, DISCONNECT, UnrecoverableClose, ByUnrecoverableClose, Some(code));
    LeaveKeepsLongest(t, DISCONNECT, NormalClose, ByNormalClose, Some(code));
    RetryLongest(o, t, UnexpectedClose, ByUnexpectedClose, Some(code), delay);
  }

  lemma ConnectKeepsLongest(o: Options, s: State, reason: Reason)
    ensures Connect(s, reason).ledger.longest == s.ledger.longest
    ensures ReconnectFor(o, s, reason).ledger.longest == s.ledger.longest
  {
    ConnectOnlyLongest(s, reason);
    ConnectOnlyLongest(Resume(o, s, reason), reason);
  }

  lemma ConnectOnlyLongest(s: State, reason: Reason)
    ensures Connect(s, reason).ledger.longest == s.ledger.longest
  {
    assert Dispatch(s, CONNECT, reason).ledger.longest == s.ledger.longest;
  }

  lemma CloseKeepsLongest(s: State, code: Option<int>)
    ensures Close(s, code).ledger.longest == s.ledger.longest
  {
    LeaveKeepsLongest(s, DISPOSE, Dispose, ByDispose, code);
    if s.current.Some? { LeaveKeepsLongest(Called(s, OnClose(s.current.value)), DISPOSE, Dispose, ByDispose, code); }
  }

  lemma RecoveryKeepsLongest(o: Options, s: State, i: nat, ok: bool)
    requires i < |s.world.recoveries|
    ensures RecoveryEnded(o, s, i, ok).ledger.longest == s.ledger.longest
  {
    var t := s.(world := s.world.(recoveries := s.world.recoveries[..i] + s.world.recoveries[i + 1..]));
    ConnectKeepsLongest(o, t, CertificateRefresh);
    LeaveKeepsLongest(t, DISCONNECT, CertificateError, ByError, None);
  }

  predicate Draws(e: Event) {
    e.Failed? || e.SocketError? || e.SocketCloses?
  }

  lemma QuietStepLongest(o: Options, s: State, e: Event)
    requires !Draws(e)
    ensures Step(o, s, e).ledger.longest == s.ledger.longest
  {
    match e
    case Create => ConnectOnlyLongest(s, InitialConnect);
    case Reconnect => ConnectKeepsLongest(o, s, ManualReconnect);
    case TimerFires => ConnectOnlyLongest(s.(timer := false), ScheduledReconnect);
    case Disconnect(code) => LeaveKeepsLongest(s, DISCONNECT, ManualDisconnect, ByUser, code);
    case CloseRequested(code) => CloseKeepsLongest(s, code);
    case RecoveryEnds(i, ok) => if i < |s.world.recoveries| { RecoveryKeepsLongest(o, s, i, ok); }
    case _ =>
  }

  lemma DrawStepLongest(o: Options, s: State, e: Event, delay: real)
    requires Draws(e) && delay == Delay(o, s.backoff, e.u)
    ensures AtMostRetries(s, Step(o, s, e), delay)
  {
    match e
    case Failed(attempt, failure, u) => FailureLongest(o, Landed(s, attempt), failure, delay);
    case SocketError(socket, failure, u) => FailureLongest(o, Called(s, OnError(socket)), failure, delay);
    case SocketCloses(socket, code, u) => ClosedLongest(o, s, socket, code, delay);
  }

  lemma {:induction false} RunLongest(o: Options, s: State, events: seq<Event>)
    requires Inv(o, s) && Sensible(o) && s.ledger.longest <= LongestDelay(o)
    ensures Run(o, s, events).ledger.longest <= LongestDelay(o)
    decreases |events|
  {
    if events != [] {
      var e := events[0];
      BackoffBounded(o, s);
      if Draws(e) {
        DelayBounds(o, s.backoff, e.u);
        DrawStepLongest(o, s, e, Delay(o, s.backoff, e.u));
      } else {
        QuietStepLongest(o, s, e);
      }
      StepInv(o, s, e);
      RunLongest(o, Step(o, s, e), events[1..]);
    }
  }

  /**
   * No retry ever waits longer than the larger of the two configured delays plus its jitter,
   * and the longest wait there was is the one that the resolved cycles or the open one report.
   */
  lemma LongestDelayReported(o: Options, events: seq<Event>)
    requires Sensible(o)
    ensures var l := After(o, events).ledger;
            && 0.0 <= l.longest <= LongestDelay(o)
            && l.longest == Larger(TallyOf(l.log).longest, OpenBackoff(l))
  {
    ProductNonNegative(Larger(o.initial, o.max), o.jitter);
    AfterInv(o, events);
    InitialInv(o);
    RunLongest(o, Initial(o), events);
  }

  /** So no report of a resolved cycle names a longer one. */
  lemma ReportedBackoffBounded(o: Options, events: seq<Event>, i: nat)
    requires Sensible(o) && i < |After(o, events).ledger.log| && After(o, events).ledger.log[i].ReconnectResolved?
    ensures After(o, events).ledger.log[i].maxBackoff <= LongestDelay(o)
  {
    LongestDelayReported(o, events);
    TallyCovers(After(o, events).ledger.log, i);
  }

  // ----- the ledger -----

  /**
   * The log of any run reads back as the present: its transitions form one path from IDLE to
   * the current state, openings and drops alternate, and a connection is open in it exactly if
   * the state is CONNECTED. Every reconnect cycle is resolved or still open; none is discarded.
   */
  lemma LedgerConserved(o: Options, events: seq<Event>)
    requires Sensible(o)
    ensures var t := After(o, events);
            && Replay(t.ledger.log) == Some((t.st, t.st.Connected?))
            && t.ledger.started == TallyOf(t.ledger.log).resolved + (if t.ledger.cycle.Some? then 1 else 0)
            && t.ledger.discarded == 0
            && (t.st.AwaitingRetry? ==> t.ledger.cycle.Some?)
  {
    AfterInv(o, events);
  }

  lemma OpenedAndDroppedAlternate(o: Options, events: seq<Event>, i: nat, j: nat)
    requires Sensible(o) && i < j < |After(o, events).ledger.log|
    requires var log := After(o, events).ledger.log;
             (log[i].Opened? && log[j].Opened?) || (log[i].Dropped? && log[j].Dropped?)
    ensures var log := After(o, events).ledger.log;
            exists m :: i < m < j && (log[m].Opened? || log[m].Dropped?) && log[m].Opened? != log[i].Opened?
  {
    AfterInv(o, events);
    Alternates(After(o, events).ledger.log, i, j);
  }

  // ----- handlers -----

  lemma FailureKeepsCalls(o: Options, s: State, failure: Failure, delay: real)
    ensures ConnectionFailed(o, s, failure, delay).world.calls == s.world.calls
  {
  }

  lemma CloseCalls(s: State, code: Option<int>)
    ensures var calls := Close(s, code).world.calls;
            calls == s.world.calls || (s.current.Some? && calls == s.world.calls + [OnClose(s.current.value)])
  {
  }

  lemma ClosedCalls(o: Options, s: State, socket: nat, code: int, delay: real)
    ensures var calls := SocketClosed(o, s, socket, code, delay).world.calls;
            calls == s.world.calls || calls == s.world.calls + [OnClose(socket)]
  {
  }

  lemma SocketStepCalls(o: Options, s: State, e: Event)
    requires e.SocketOpens? || e.SocketMessage? || e.SocketError? || e.SocketCloses?
    ensures var calls := SocketStep(o, s, e).world.calls;
            calls == s.world.calls || exists c: Call :: s.current == Some(c.socket) && calls == s.world.calls + [c]
  {
    var n, calls := e.socket, s.world.calls;
    if s.current == Some(n) {
      match e
      case SocketOpens(_) => assert Allows(s.st, OPEN) ==> SocketStep(o, s, e).world.calls == calls + [OnOpen(n)];
      case SocketMessage(_) => assert SocketStep(o, s, e).world.calls == calls + [OnMessage(n)];
      case SocketError(_, failure, u) =>
        FailureKeepsCalls(o, Called(s, OnError(n)), failure, Delay(o, s.backoff, u));
        assert SocketStep(o, s, e).world.calls == calls + [OnError(n)];
      case SocketCloses(_, code, u) =>
        ClosedCalls(o, s, n, code, Delay(o, s.backoff, u));
        assert OnClose(n).socket == n;
    }
  }

  lemma ConnectKeepsCalls(o: Options, s: State, reason: Reason)
    ensures Connect(s, reason).world.calls == s.world.calls && ReconnectFor(o, s, reason).world.calls == s.world.calls
  {
    ConnectOnlyCalls(s, reason);
    ConnectOnlyCalls(Resume(o, s, reason), reason);
  }

  lemma ConnectOnlyCalls(s: State, reason: Reason)
    ensures Connect(s, reason).world.calls == s.world.calls
  {
    assert Dispatch(s, CONNECT, reason).world == s.world;
  }

  lemma RecoveryKeepsCalls(o: Options, s: State, i: nat, ok: bool)
    requires i < |s.world.recoveries|
    ensures RecoveryEnded(o, s, i, ok).world.calls == s.world.calls
  {
    var t := s.(world := s.world.(recoveries := s.world.recoveries[..i] + s.world.recoveries[i + 1..]));
    ConnectKeepsCalls(o, t, CertificateRefresh);
  }

  /** A step calls the handlers at most once, and only for the socket that is current. */
  lemma CallsNameTheCurrentSocket(o: Options, s: State, e: Event)
    ensures var t := Step(o, s, e);
            t.world.calls == s.world.calls
            || exists c: Call :: s.current == Some(c.socket) && t.world.calls == s.world.calls + [c]
  {
    if Possible(s, e) {
      match e
      case Create => ConnectKeepsCalls(o, s, InitialConnect);
      case Reconnect => ConnectKeepsCalls(o, s, ManualReconnect);
      case TimerFires => ConnectKeepsCalls(o, s.(timer := false), ScheduledReconnect);
      case Failed(attempt, failure, u) => FailureKeepsCalls(o, Landed(s, attempt), failure, Delay(o, s.backoff, u));
      case RecoveryEnds(i, ok) => RecoveryKeepsCalls(o, s, i, ok);
      case CloseRequested(code) =>
        CloseCalls(s, code);
        if s.current.Some? { assert OnClose(s.current.value).socket == s.current.value; }
      case Disconnect(_) | Returned(_) =>
      case _ => SocketStepCalls(o, s, e);
    }
  }

  // ----- after disposal -----

  lemma StepDisposed(o: Options, s: State, e: Event)
    requires Inv(o, s) && s.st.Disposed?
    ensures var t := Step(o, s, e);
            && t.st.Disposed? && t.current.None? && !t.timer && t.ledger == s.ledger
            && t.world.calls == s.world.calls && t.world.disposals == s.world.disposals
            && t.world.next == s.world.next && s.world.closed <= t.world.closed
            && t.world.handed - s.world.handed <= t.world.closed
  {
  }

  /**
   * Whatever was pending when the connection was disposed: no transition, report, handler
   * call, timer or new attempt follows; every socket that still arrives is closed; `onDispose`
   * has run once.
   */
  lemma {:induction false} DisposedIsForever(o: Options, s: State, events: seq<Event>)
    requires Inv(o, s) && Sensible(o) && s.st.Disposed?
    ensures var t := Run(o, s, events);
            && t.st.Disposed? && t.current.None? && !t.timer && t.ledger == s.ledger
            && t.world.calls == s.world.calls && t.world.disposals == 1
            && t.world.next == s.world.next && s.world.closed <= t.world.closed
            && t.world.handed - s.world.handed <= t.world.closed
    decreases |events|
  {
    if events != [] {
      StepDisposed(o, s, events[0]);
      StepInv(o, s, events[0]);
      DisposedIsForever(o, Step(o, s, events[0]), events[1..]);
    }
  }

  // ----- leaving DISCONNECTED -----

  /**
   * The state's description says that only `reconnect()` resumes. What leaves it is exactly
   * `reconnect()`, closing for good, or a certificate refresh that was pending and succeeds.
   */
  lemma LeavesDisconnectedExactly(o: Options, s: State, e: Event)
    requires Inv(o, s) && CreateFits(s) && s.st.Disconnected?
    ensures Step(o, s, e).st != Disconnected <==>
            e.Reconnect? || e.CloseRequested? ||
            (e.RecoveryEnds? && e.i < |s.world.recoveries| && e.ok && s.world.recoveries[e.i])
  {
  }

  lemma RunOne(o: Options, s: State, e: Event)
    ensures Run(o, s, [e]) == Step(o, s, e)
  {
    assert [e][1..] == [];
  }

  lemma RunTwo(o: Options, s: State, e1: Event, e2: Event)
    ensures Run(o, s, [e1, e2]) == Step(o, Step(o, s, e1), e2)
  {
    assert [e1, e2][1..] == [e2];
    RunOne(o, Step(o, s, e1), e2);
  }

  lemma RunThree(o: Options, s: State, e1: Event, e2: Event, e3: Event)
    ensures Run(o, s, [e1, e2, e3]) == Step(o, Step(o, Step(o, s, e1), e2), e3)
  {
    assert [e1, e2, e3][1..] == [e2, e3];
    RunTwo(o, Step(o, s, e1), e2, e3);
  }

  lemma {:induction false} RunAppend(o: Options, s: State, events: seq<Event>, more: seq<Event>)
    ensures Run(o, s, events + more) == Run(o, Run(o, s, events), more)
    decreases |events|
  {
    if events == [] {
      assert events + more == more;
    } else {
      assert (events + more)[0] == events[0] && (events + more)[1..] == events[1..] + more;
      RunAppend(o, Step(o, s, events[0]), events[1..], more);
    }
  }

  /** `create` succeeded with socket 0 and one `reconnect()` was called: attempt 1 is in flight. */
  lemma Reconnecting(o: Options)
    ensures var t := After(o, [Create, Returned(0), Reconnect]);
            && t.st == Connecting && t.current == None && !t.certTried && t.backoff == o.initial
            && t.world.next == 2 && t.world.inFlight == {1} && t.world.handed == {0} && t.world.closed == {0}
            && t.world.recoveries == []
  {
    RunThree(o, Initial(o), Create, Returned(0), Reconnect);
  }

  /** A user's `disconnect()` during a refresh does not last: the refresh reconnects. */
  lemma RefreshUndoesDisconnect(o: Options)
    ensures var run := [Create, Returned(0), Reconnect, Failed(1, CertificateFailure(true), 0.0), Disconnect(None)];
            After(o, run).st == Disconnected && After(o, run + [RecoveryEnds(0, true)]).st == Connecting
  {
    var start, refreshing := [Create, Returned(0), Reconnect], [Failed(1, CertificateFailure(true), 0.0), Disconnect(None)];
    var t := After(o, start);
    Reconnecting(o);
    RunAppend(o, Initial(o), start, refreshing);
    RunTwo(o, t, refreshing[0], refreshing[1]);
    RefreshOutlasts(o, t);
    RunAppend(o, Initial(o), start + refreshing, [RecoveryEnds(0, true)]);
    RunOne(o, After(o, start + refreshing), RecoveryEnds(0, true));
    assert start + refreshing == [Create, Returned(0), Reconnect, Failed(1, CertificateFailure(true), 0.0), Disconnect(None)];
  }

  /** The refresh begun for a failed attempt is still pending after `disconnect()`. */
  lemma RefreshOutlasts(o: Options, s: State)
    requires s.st == Connecting && !s.certTried && s.world.next == 2 && 1 in s.world.inFlight && s.world.recoveries == []
    ensures var t := Step(o, Step(o, s, Failed(1, CertificateFailure(true), 0.0)), Disconnect(None));
            t.st == Disconnected && Step(o, t, RecoveryEnds(0, true)).st == Connecting
  {
    var f := RecoverCertificate(Landed(s, 1), true);
    assert f == Step(o, s, Failed(1, CertificateFailure(true), 0.0)) && f.world.recoveries == [true];
    LeaveWorld(f, DISCONNECT, ManualDisconnect, ByUser, None);
    RefreshResumes(o, Step(o, f, Disconnect(None)));
  }

  lemma RefreshResumes(o: Options, s: State)
    requires s.st == Disconnected && s.world.recoveries == [true]
    ensures Step(o, s, RecoveryEnds(0, true)).st == Connecting
  {
  }

  /**
   * Between two openings or resumes at most one certificate refresh is begun: over the whole
   * run each refresh falls into a later cycle than the one before it, the cycles being counted
   * by the openings and resumes that the log shows.
   */
  lemma OneRefreshPerCycle(o: Options, events: seq<Event>)
    requires Sensible(o)
    ensures var t := After(o, events); var refreshes := t.world.refreshes;
            && (forall i, j :: 0 <= i < j < |refreshes| ==> refreshes[i] < refreshes[j])
            && (forall i :: 0 <= i < |refreshes| ==> refreshes[i] <= TallyOf(t.ledger.log).cycles)
  {
    AfterInv(o, events);
  }

  lemma {:induction false} IncreasingIsShort(numbers: seq<nat>, bound: nat)
    requires forall i, j :: 0 <= i < j < |numbers| ==> numbers[i] < numbers[j]
    requires forall i :: 0 <= i < |numbers| ==> numbers[i] <= bound
    ensures |numbers| <= bound + 1
    decreases |numbers|
  {
    if |numbers| > 1 {
      var n := |numbers| - 1;
      assert numbers[n - 1] < numbers[n];
      IncreasingIsShort(numbers[..n], numbers[n] - 1);
    }
  }

  /** A run never begins more refreshes than it has cycles, the first one included. */
  lemma RefreshesBounded(o: Options, events: seq<Event>)
    requires Sensible(o)
    ensures var t := After(o, events); |t.world.refreshes| <= TallyOf(t.ledger.log).cycles + 1
  {
    OneRefreshPerCycle(o, events);
    IncreasingIsShort(After(o, events).world.refreshes, TallyOf(After(o, events).ledger.log).cycles);
  }

  // ----- leaked sockets -----

  /** Every socket the factory ever handed over is the current one or was closed. */
  predicate NoLeak(s: State) {
    forall n :: n in s.world.handed && n !in s.world.closed ==> s.current == Some(n)
  }

  /** A step leaks exactly if a second attempt succeeds while the first one's socket is not open yet. */
  predicate Overwrites(s: State, e: Event) {
    e.Returned? && e.attempt in s.world.inFlight && s.st.Connecting? && s.current.Some?
  }

  /**
   * Other steps hand nothing over and let go of the current socket only by closing it; while
   * they keep it they start no attempt.
   */
  predicate LetsGoByClosing(s: State, t: State) {
    && t.world.handed == s.world.handed && s.world.closed <= t.world.closed <= CloseSocket(s.world, s.current).closed
    && (t.current == s.current || (t.current.None? && s.current.value in t.world.closed))
    && (t.current.Some? ==> t.world.inFlight <= s.world.inFlight && (t.st.Connecting? ==> s.st.Connecting?))
  }

  lemma RetryLetsGo(o: Options, s: State, reason: Reason, cause: Cause, code: Option<int>, delay: real)
    ensures LetsGoByClosing(s, Retry(o, s, reason, cause, code, delay))
  {
    if Allows(s.st, SCHEDULE_RETRY) { RetryState(o, s, reason, cause, code, delay); }
  }

  lemma DisconnectLetsGo(s: State, reason: Reason, cause: Cause, code: Option<int>)
    ensures LetsGoByClosing(s, DisconnectFor(s, reason, cause, code))
  {
    LeaveWorld(s, DISCONNECT, reason, cause, code);
  }

  lemma FailureLetsGo(o: Options, s: State, failure: Failure, delay: real)
    ensures LetsGoByClosing(s, ConnectionFailed(o, s, failure, delay))
  {
    RetryLetsGo(o, s, ConnectionError, ByError, None, delay);
    DisconnectLetsGo(s, UnrecoverableHttp, ByError, None);
  }

  lemma ClosedLetsGo(o: Options, s: State, socket: nat, code: int, delay: real)
    ensures LetsGoByClosing(s, SocketClosed(o, s, socket, code, delay))
  {
    var t := Called(s, OnClose(socket));
    if code in UNRECOVERABLE_CODES {
      DisconnectLetsGo(t, UnrecoverableClose, ByUnrecoverableClose, Some(code));
    } else if code in NORMAL_CODES {
      DisconnectLetsGo(t, NormalClose, ByNormalClose, Some(code));
    } else {
      RetryLetsGo(o, t, UnexpectedClose, ByUnexpectedClose, Some(code), delay);
    }
  }

  lemma SocketStepLetsGo(o: Options, s: State, e: Event)
    requires e.SocketOpens? || e.SocketMessage? || e.SocketError? || e.SocketCloses?
    ensures LetsGoByClosing(s, SocketStep(o, s, e))
  {
    if e.SocketError? { FailureLetsGo(o, Called(s, OnError(e.socket)), e.failure, Delay(o, s.backoff, e.u)); }
    if e.SocketCloses? { ClosedLetsGo(o, s, e.socket, e.wsCode, Delay(o, s.backoff, e.u)); }
  }

  lemma ConnectLetsGo(s: State, reason: Reason)
    ensures LetsGoByClosing(s, Connect(s, reason))
  {
  }

  lemma ReconnectLetsGo(o: Options, s: State, reason: Reason)
    ensures LetsGoByClosing(s, ReconnectFor(o, s, reason))
  {
    ConnectLetsGo(Resume(o, s, reason), reason);
  }

  lemma CloseLetsGo(s: State, code: Option<int>)
    ensures LetsGoByClosing(s, Close(s, code))
  {
    if s.current.None? {
      DisposeLetsGo(s, code);
    } else {
      DisposeLetsGo(Called(s, OnClose(s.current.value)), code);
    }
  }

  lemma DisposeLetsGo(s: State, code: Option<int>)
    ensures LetsGoByClosing(s, DisposeFor(s, code))
  {
    LeaveWorld(s, DISPOSE, Dispose, ByDispose, code);
  }

  lemma RecoveryLetsGo(o: Options, s: State, i: nat, ok: bool)
    requires i < |s.world.recoveries|
    ensures LetsGoByClosing(s, RecoveryEnded(o, s, i, ok))
  {
    var t := s.(world := s.world.(recoveries := s.world.recoveries[..i] + s.world.recoveries[i + 1..]));
    ReconnectLetsGo(o, t, CertificateRefresh);
    DisconnectLetsGo(t, CertificateError, ByError, None);
  }

  lemma NonReturnLetsGo(o: Options, s: State, e: Event)
    requires !e.Returned?
    ensures LetsGoByClosing(s, Step(o, s, e))
  {
    match e
    case Create => ConnectLetsGo(s, InitialConnect);
    case Reconnect => ReconnectLetsGo(o, s, ManualReconnect);
    case TimerFires => ConnectLetsGo(s.(timer := false), ScheduledReconnect);
    case Disconnect(code) => DisconnectLetsGo(s, ManualDisconnect, ByUser, code);
    case CloseRequested(code) => CloseLetsGo(s, code);
    case Failed(attempt, failure, u) => FailureLetsGo(o, Landed(s, attempt), failure, Delay(o, s.backoff, u));
    case RecoveryEnds(i, ok) => if i < |s.world.recoveries| { RecoveryLetsGo(o, s, i, ok); }
    case _ => SocketStepLetsGo(o, s, e);
  }

  lemma StepLeaksExactly(o: Options, s: State, e: Event)
    requires Inv(o, s) && NoLeak(s)
    ensures NoLeak(Step(o, s, e)) <==> !Overwrites(s, e)
  {
    if e.Returned? {
      ReturnLeaks(s, e.attempt);
    } else {
      NonReturnLetsGo(o, s, e);
    }
  }

  lemma ReturnLeaks(s: State, attempt: nat)
    requires SocketsFit(s) && NoLeak(s)
    ensures attempt in s.world.inFlight
        ==> (NoLeak(FactoryReturned(s, attempt)) <==> !(s.st.Connecting? && s.current.Some?))
  {
    if attempt in s.world.inFlight && s.st.Connecting? && s.current.Some? {
      assert s.current.value in FactoryReturned(s, attempt).world.handed;
    }
  }

  /** A leak, from two `reconnect()` calls: socket 1 is neither current nor closed. */
  lemma LeakExample(o: Options)
    ensures var t := After(o, [Create, Returned(0), Reconnect, Reconnect, Returned(1), Returned(2)]);
            1 in t.world.handed && 1 !in t.world.closed && t.current == Some(2)
  {
    var t := After(o, [Create, Returned(0), Reconnect]);
    Reconnecting(o);
    RunThree(o, t, Reconnect, Returned(1), Returned(2));
    RunAppend(o, Initial(o), [Create, Returned(0), Reconnect], [Reconnect, Returned(1), Returned(2)]);
    assert [Create, Returned(0), Reconnect] + [Reconnect, Returned(1), Returned(2)]
        == [Create, Returned(0), Reconnect, Reconnect, Returned(1), Returned(2)];
  }

  /** A socket that is neither current nor closed has nobody left to close it. */
  lemma LeakStays(o: Options, s: State, e: Event)
    requires Inv(o, s) && !NoLeak(s)
    ensures !NoLeak(Step(o, s, e))
  {
    var n :| n in s.world.handed && n !in s.world.closed && s.current != Some(n);
    if !e.Returned? { NonReturnLetsGo(o, s, e); }
    assert n in Step(o, s, e).world.handed;
  }

  /** A run has leaked a socket exactly if some step of it overwrote the current one. */
  lemma {:induction false} RunLeaksExactly(o: Options, events: seq<Event>)
    requires Sensible(o)
    ensures NoLeak(After(o, events)) <==>
            forall k :: 0 <= k < |events| ==> !Overwrites(After(o, events[..k]), events[k])
    decreases |events|
  {
    if events != [] {
      var n := |events| - 1;
      var before, e := events[..n], events[n];
      var s := After(o, before);
      RunLeaksExactly(o, before);
      AfterInv(o, before);
      assert events == before + [e];
      RunAppend(o, Initial(o), before, [e]);
      RunOne(o, s, e);
      if NoLeak(s) { StepLeaksExactly(o, s, e); } else { LeakStays(o, s, e); }
      forall k | 0 <= k < n
        ensures Overwrites(After(o, events[..k]), events[k]) <==> Overwrites(After(o, before[..k]), before[k])
      {
        assert before[..k] == events[..k];
      }
    }
  }

  predicate AtMostOne(attempts: set<nat>) {
    forall a, b :: a in attempts && b in attempts ==> a == b
  }

  /** At no point of the run are two factory calls in flight. */
  ghost predicate OneAtATime(o: Options, s: State, events: seq<Event>)
    decreases |events|
  {
    AtMostOne(s.world.inFlight) && (events == [] || OneAtATime(o, Step(o, s, events[0]), events[1..]))
  }

  /** While the only attempt is in flight, no socket is current to be overwritten. */
  predicate Single(s: State) {
    s.st.Connecting? && s.current.Some? ==> s.world.inFlight == {}
  }

  lemma StepSingle(o: Options, s: State, e: Event)
    requires Inv(o, s) && Single(s) && AtMostOne(s.world.inFlight) && AtMostOne(Step(o, s, e).world.inFlight)
    ensures Single(Step(o, s, e))
  {
    if !e.Returned? {
      NonReturnLetsGo(o, s, e);
    } else if Possible(s, e) {
      assert s.world.inFlight - {e.attempt} == {};
    }
  }

  /** With one attempt at a time, no run ever leaks a socket. */
  lemma {:induction false} OneAtATimeNeverLeaks(o: Options, s: State, events: seq<Event>)
    requires Inv(o, s) && Sensible(o) && NoLeak(s) && Single(s) && OneAtATime(o, s, events)
    ensures NoLeak(Run(o, s, events))
    decreases |events|
  {
    if events != [] {
      StepSingle(o, s, events[0]);
      StepLeaksExactly(o, s, events[0]);
      StepInv(o, s, events[0]);
      OneAtATimeNeverLeaks(o, Step(o, s, events[0]), events[1..]);
    }
  }
}
