/**
 * What each event does to a reconnecting connection in a reachable state, told by what can be
 * seen from outside: the state, the current socket and those closed, the retry timer, the
 * attempts begun, the handlers called and the reports logged.
 */
module SocketOutcomes {
  import opened Basics
  import opened ConnectionLedger
  import opened SocketProtocol
  import opened SocketTheorems

  // ----- the three ways on -----

  function CurrentSet(s: State): set<nat> {
    if s.current.None? then {} else {s.current.value}
  }

  /** The transition, the drop of an open connection, and the failed end of the open cycle. */
  function EndReports(s: State, to: Connection, reason: Reason, cause: Cause, code: Option<int>): seq<Report> {
    [Transitioned(s.st, to, reason)]
    + (if s.st.Connected? then [Dropped(cause, code)] else [])
    + (if s.ledger.cycle.None? then []
       else [ReconnectResolved(s.ledger.cycle.value.reason, Some(reason), s.ledger.cycle.value.attempts,
                               s.ledger.cycle.value.maxBackoff)])
  }

  /** The connection ends: socket closed, timer cleared, no attempt begun. */
  predicate EndsIn(s: State, t: State, to: Connection, reason: Reason, cause: Cause, code: Option<int>) {
    && t.st == to && t.current.None? && !t.timer
    && t.world.closed == s.world.closed + CurrentSet(s) && t.world.next == s.world.next
    && t.ledger.log == s.ledger.log + EndReports(s, to, reason, cause, code) && t.ledger.cycle.None?
    && t.backoff == s.backoff && t.certTried == s.certTried
  }

  /** The open cycle, or the one that `reason` opens. */
  function CycleFor(s: State, reason: Reason): Cycle {
    if s.ledger.cycle.Some? then s.ledger.cycle.value else Cycle(reason, 0, 0.0)
  }

  /** A retry is scheduled after `delay`: the timer is live and the backoff doubles up to the maximum. */
  predicate Retries(o: Options, s: State, t: State, reason: Reason, cause: Cause, code: Option<int>, delay: real) {
    && t.st == AwaitingRetry && t.timer && t.current == s.current
    && t.world.closed == s.world.closed && t.world.next == s.world.next
    && t.ledger.log == s.ledger.log + [Transitioned(s.st, AwaitingRetry, reason)]
                     + (if s.st.Connected? then [Dropped(cause, code)] else [])
    && t.ledger.cycle == Some(CycleFor(s, reason).(maxBackoff := Larger(CycleFor(s, reason).maxBackoff, delay)))
    && t.backoff == Min(s.backoff * 2.0, o.max) && t.certTried == s.certTried
  }

  /** A new attempt is in flight, and the socket before it is closed. */
  predicate Attempts(s: State, t: State, reason: Reason) {
    && t.st == Connecting && t.current.None? && !t.timer
    && t.world.closed == s.world.closed + CurrentSet(s)
    && t.world.next == s.world.next + 1 && t.world.inFlight == s.world.inFlight + {s.world.next}
    && t.ledger.log == s.ledger.log + (if s.st.Connecting? then [] else [Transitioned(s.st, Connecting, reason)])
                     + (if s.st.Connected? then [Dropped(Replaced, Some(1000))] else [])
  }

  /** The cycle counts the attempt; backoff and refresh mark are set back from DISCONNECTED only. */
  predicate Resumes(o: Options, s: State, t: State, reason: Reason) {
    && Attempts(s, t, reason)
    && t.ledger.cycle == Some(CycleFor(s, reason).(attempts := CycleFor(s, reason).attempts + 1))
    && t.backoff == (if s.st.Disconnected? then o.initial else s.backoff)
    && t.certTried == (if s.st.Disconnected? then false else s.certTried)
  }

  predicate SameHandlers(s: State, t: State) {
    t.world.calls == s.world.calls
  }

  predicate Calls(s: State, t: State, call: Call) {
    t.world.calls == s.world.calls + [call]
  }

  // ----- the methods -----

  lemma LeaveEnds(s: State, action: Action, reason: Reason, cause: Cause, code: Option<int>)
    requires LedgerFits(s) && (action.DISCONNECT? || action.DISPOSE?) && ReduceState(s.st, action) != s.st
    ensures var t := Leave(s, action, reason, cause, code);
            EndsIn(s, t, ReduceState(s.st, action), reason, cause, code) && t.world == CloseSocket(s.world, s.current)
  {
    var to := ReduceState(s.st, action);
    LeaveState(s, action, reason, cause, code);
    TerminatedLogs(s, Dispatch(s, action, reason).ledger, to, reason, cause, code);
  }

  lemma TerminatedLogs(s: State, l: Ledger, to: Connection, reason: Reason, cause: Cause, code: Option<int>)
    requires l == Logged(s.ledger, Transitioned(s.st, to, reason)) && (s.ledger.open <==> s.st.Connected?)
    ensures var t := Terminated(l, reason, cause, code);
            t.log == s.ledger.log + EndReports(s, to, reason, cause, code) && t.cycle.None?
  {
  }

  lemma DisconnectEnds(s: State, reason: Reason, cause: Cause, code: Option<int>)
    requires LedgerFits(s)
    ensures var t := DisconnectFor(s, reason, cause, code);
            if s.st.Disconnected? || s.st.Disposed? then t == s
            else EndsIn(s, t, Disconnected, reason, cause, code) && t.world == CloseSocket(s.world, s.current)
  {
    if Allows(s.st, DISCONNECT) { LeaveEnds(s, DISCONNECT, reason, cause, code); }
  }

  lemma RetryRetries(o: Options, s: State, reason: Reason, cause: Cause, code: Option<int>, delay: real)
    requires LedgerFits(s)
    ensures var t := Retry(o, s, reason, cause, code, delay);
            if s.st.Connecting? || s.st.Connected? then Retries(o, s, t, reason, cause, code, delay) && t.world == s.world
            else t == s
  {
    if Allows(s.st, SCHEDULE_RETRY) {
      RetryState(o, s, reason, cause, code, delay);
      RetryLogs(s, reason, cause, code, delay);
    }
  }

  lemma RetryLogs(s: State, reason: Reason, cause: Cause, code: Option<int>, delay: real)
    requires s.ledger.open <==> s.st.Connected?
    ensures var l := RetryReported(s, reason, cause, code, delay);
            && l.log == s.ledger.log + [Transitioned(s.st, AwaitingRetry, reason)]
                      + (if s.st.Connected? then [Dropped(cause, code)] else [])
            && l.cycle == Some(CycleFor(s, reason).(maxBackoff := Larger(CycleFor(s, reason).maxBackoff, delay)))
  {
  }

  lemma ConnectAttempts(s: State, reason: Reason)
    requires Balanced(s.ledger, s.st) && (s.ledger.open <==> s.st.Connected?) && !s.st.Disposed?
    requires !s.timer && (s.st.Connected? ==> s.current.Some?)
    ensures var t := Connect(s, reason);
            && Attempts(s, t, reason) && t.backoff == s.backoff && t.certTried == s.certTried && SameHandlers(s, t)
            && t.ledger.cycle == ConnectStarted(s.ledger).cycle
  {
    ConnectLedger(s, reason);
    AttemptLogs(s, Dispatch(s, CONNECT, reason).ledger, reason);
  }

  lemma AttemptLogs(s: State, l: Ledger, reason: Reason)
    requires s.ledger.open <==> s.st.Connected?
    requires s.st.Connected? ==> s.current.Some?
    requires l == if s.st.Connecting? then s.ledger else Logged(s.ledger, Transitioned(s.st, Connecting, reason))
    ensures var t := AttemptReported(l, s.current);
            && t.log == s.ledger.log + (if s.st.Connecting? then [] else [Transitioned(s.st, Connecting, reason)])
                      + (if s.st.Connected? then [Dropped(Replaced, Some(1000))] else [])
            && t.cycle == ConnectStarted(s.ledger).cycle
  {
  }

  lemma ReconnectResumes(o: Options, s: State, reason: Reason)
    requires LedgerFits(s) && SocketFits(s) && !s.st.Idle?
    ensures var t := ReconnectFor(o, s, reason);
            if s.st.Disposed? then t == s else Resumes(o, s, t, reason) && SameHandlers(s, t)
  {
    if !s.st.Disposed? {
      var r := Resume(o, s, reason);
      ResumeOnly(o, s, reason, r);
      ResumedConnects(s, r, reason);
    }
  }

  lemma ResumedConnects(s: State, r: State, reason: Reason)
    requires LedgerFits(s) && SocketFits(s) && !s.st.Disposed? && Balanced(r.ledger, r.st)
    requires r == s.(ledger := r.ledger, timer := false, backoff := r.backoff, certTried := r.certTried)
    requires r.ledger.log == s.ledger.log && r.ledger.open == s.ledger.open && r.ledger.cycle == Some(CycleFor(s, reason))
    ensures var t := Connect(r, reason);
            && Attempts(s, t, reason) && t.backoff == r.backoff && t.certTried == r.certTried && SameHandlers(s, t)
            && t.ledger.cycle == Some(CycleFor(s, reason).(attempts := CycleFor(s, reason).attempts + 1))
  {
    ConnectAttempts(r, reason);
    AttemptsAlike(s, r, Connect(r, reason), reason);
  }

  lemma AttemptsAlike(s: State, r: State, t: State, reason: Reason)
    requires r == s.(ledger := r.ledger, timer := r.timer, backoff := r.backoff, certTried := r.certTried)
    requires r.ledger.log == s.ledger.log && Attempts(r, t, reason)
    ensures Attempts(s, t, reason)
  {
  }

  lemma ResumeOnly(o: Options, s: State, reason: Reason, r: State)
    requires LedgerFits(s) && !s.st.Disposed? && !s.st.Idle? && r == Resume(o, s, reason)
    ensures r == s.(ledger := r.ledger, timer := false,
                    backoff := if s.st.Disconnected? then o.initial else s.backoff,
                    certTried := if s.st.Disconnected? then false else s.certTried)
    ensures r.ledger.log == s.ledger.log && r.ledger.open == s.ledger.open && r.ledger.cycle == Some(CycleFor(s, reason))
    ensures Balanced(r.ledger, r.st)
  {
    CycleStarted(s.ledger, s.st, reason);
  }

  /** No action leads out of DISPOSED, none leads back to IDLE, and DISPOSE is always the end. */
  lemma DisposedIsFinal(st: Connection, action: Action)
    ensures st.Disposed? ==> ReduceState(st, action) == Disposed && !Allows(st, action)
    ensures ReduceState(st, action).Idle? ==> st.Idle?
    ensures ReduceState(st, DISPOSE) == Disposed
  {
  }

  // ----- calls -----

  lemma CreateOutcome(o: Options, s: State)
    requires Inv(o, s) && s.st.Idle?
    ensures var t := Step(o, s, Create); Attempts(s, t, InitialConnect) && t.ledger.cycle.None? && SameHandlers(s, t)
  {
    ConnectAttempts(s, InitialConnect);
  }

  /** `reconnect()` drops what there is for a new attempt, in every state but DISPOSED. */
  lemma ReconnectOutcome(o: Options, s: State)
    requires Inv(o, s) && CreateFits(s) && Possible(s, Reconnect)
    ensures var t := Step(o, s, Reconnect);
            if s.st.Disposed? then t == s else Resumes(o, s, t, ManualReconnect) && SameHandlers(s, t)
  {
    ReconnectResumes(o, s, ManualReconnect);
  }

  /** `disconnect()` ends the connection, unless it has ended. */
  lemma DisconnectOutcome(o: Options, s: State, code: Option<int>)
    requires Inv(o, s) && Possible(s, Disconnect(code))
    ensures var t := Step(o, s, Disconnect(code));
            if s.st.Disconnected? || s.st.Disposed? then t == s
            else EndsIn(s, t, Disconnected, ManualDisconnect, ByUser, code) && SameHandlers(s, t)
  {
    DisconnectEnds(s, ManualDisconnect, ByUser, code);
  }

  /** `close()` calls the close handlers for the current socket and ends the connection for good. */
  lemma CloseOutcome(o: Options, s: State, code: Option<int>)
    requires Inv(o, s) && Possible(s, CloseRequested(code)) && !s.st.Disposed?
    ensures var t := Step(o, s, CloseRequested(code));
            && EndsIn(s, t, Disposed, Dispose, ByDispose, code) && t.world.disposals == s.world.disposals + 1
            && (if s.current.Some? then Calls(s, t, OnClose(s.current.value)) else SameHandlers(s, t))
  {
    if s.current.Some? {
      CalledInv(o, s, OnClose(s.current.value));
      LeaveEnds(Called(s, OnClose(s.current.value)), DISPOSE, Dispose, ByDispose, code);
    } else {
      LeaveEnds(s, DISPOSE, Dispose, ByDispose, code);
    }
  }

  // ----- attempts -----

  /** A socket that arrives while CONNECTING becomes current, open and unreported; any other is closed. */
  lemma ReturnedOutcome(o: Options, s: State, attempt: nat)
    requires Inv(o, s) && attempt in s.world.inFlight
    ensures var t := Step(o, s, Returned(attempt));
            && t.st == s.st && t.timer == s.timer && t.ledger == s.ledger && SameHandlers(s, t)
            && t.world.handed == s.world.handed + {attempt} && t.world.inFlight == s.world.inFlight - {attempt}
            && (if s.st.Connecting? then t.current == Some(attempt) && t.world.closed == s.world.closed
                else t.current == s.current && t.world.closed == s.world.closed + {attempt})
  {
  }

  /**
   * What an error leads to, by its kind: an unrecoverable one ends the connection, one of the
   * client certificate starts a recovery, which refreshes if it may and has not been tried,
   * and any other schedules a retry unless one is due. Once down, nothing follows.
   */
  predicate FailsAs(o: Options, s: State, t: State, failure: Failure, delay: real) {
    if s.st.Disconnected? || s.st.Disposed? then
      t.st == s.st && t.current == s.current && t.timer == s.timer && t.ledger == s.ledger
      && t.world.recoveries == s.world.recoveries && t.world.closed == s.world.closed
    else
      match failure
      case UnrecoverableFailure => EndsIn(s, t, Disconnected, UnrecoverableHttp, ByError, None)
      case CertificateFailure(refreshable) =>
        && t.st == s.st && t.current == s.current && t.timer == s.timer && t.ledger == s.ledger
        && t.world.closed == s.world.closed && t.world.next == s.world.next
        && t.world.recoveries == s.world.recoveries + [refreshable && !s.certTried]
        && t.certTried == (s.certTried || refreshable)
      case OtherFailure =>
        if s.st.AwaitingRetry? then t.st == s.st && t.timer && t.ledger == s.ledger && t.current == s.current
        else Retries(o, s, t, ConnectionError, ByError, None, delay)
  }

  lemma FailureOutcome(o: Options, s: State, failure: Failure, delay: real)
    requires Inv(o, s) && !s.st.Idle?
    ensures FailsAs(o, s, ConnectionFailed(o, s, failure, delay), failure, delay)
    ensures ConnectionFailed(o, s, failure, delay).world.inFlight == s.world.inFlight
    ensures SameHandlers(s, ConnectionFailed(o, s, failure, delay))
  {
    match failure
    case UnrecoverableFailure => DisconnectEnds(s, UnrecoverableHttp, ByError, None);
    case CertificateFailure(refreshable) =>
    case OtherFailure => RetryRetries(o, s, ConnectionError, ByError, None, delay);
  }

  lemma FailedOutcome(o: Options, s: State, attempt: nat, failure: Failure, u: Draw)
    requires Inv(o, s) && CreateFits(s) && attempt in s.world.inFlight
    ensures var t := Step(o, s, Failed(attempt, failure, u));
            && FailsAs(o, s, t, failure, Delay(o, s.backoff, u))
            && t.world.inFlight == s.world.inFlight - {attempt} && SameHandlers(s, t)
  {
    LandedInv(o, s, attempt);
    FailureOutcome(o, Landed(s, attempt), failure, Delay(o, s.backoff, u));
  }

  // ----- events of the current socket -----

  lemma OpensOutcome(o: Options, s: State, socket: nat)
    requires Inv(o, s) && s.current == Some(socket)
    ensures var t := Step(o, s, SocketOpens(socket));
            if !s.st.Connecting? then t == s
            else
              && t.st == Connected && t.current == s.current && !t.timer && Calls(s, t, OnOpen(socket))
              && t.backoff == o.initial && !t.certTried && t.ledger.cycle.None?
              && t.ledger.log == s.ledger.log + [Transitioned(Connecting, Connected, SocketOpen), Opened]
                 + (if s.ledger.cycle.None? then [] else [Resolution(s.ledger.cycle.value, None)])
  {
    if s.st.Connecting? { OpenLogs(s.ledger); }
  }

  lemma OpenLogs(l: Ledger)
    ensures var t := Open(Logged(l, Transitioned(Connecting, Connected, SocketOpen)));
            && t.cycle.None?
            && t.log == l.log + [Transitioned(Connecting, Connected, SocketOpen), Opened]
               + (if l.cycle.None? then [] else [Resolution(l.cycle.value, None)])
  {
  }

  lemma MessageOutcome(o: Options, s: State, socket: nat)
    requires s.current == Some(socket)
    ensures Step(o, s, SocketMessage(socket)) == s.(world := s.world.(calls := s.world.calls + [OnMessage(socket)]))
  {
  }

  lemma ErrorOutcome(o: Options, s: State, socket: nat, failure: Failure, u: Draw)
    requires Inv(o, s) && s.current == Some(socket)
    ensures var t := Step(o, s, SocketError(socket, failure, u));
            && FailsAs(o, s, t, failure, Delay(o, s.backoff, u)) && Calls(s, t, OnError(socket))
            && t.world.inFlight == s.world.inFlight
  {
    CalledInv(o, s, OnError(socket));
    FailureOutcome(o, Called(s, OnError(socket)), failure, Delay(o, s.backoff, u));
  }

  /**
   * Which closings retry: the codes 1000 and 1001 are normal and 1002 and 1003 unrecoverable,
   * and these end the connection; after every other code, 1006 included, a retry is scheduled
   * unless one is due already.
   */
  lemma ClosesOutcome(o: Options, s: State, socket: nat, code: int, u: Draw)
    requires Inv(o, s) && s.current == Some(socket)
    ensures var t := Step(o, s, SocketCloses(socket, code, u));
            && Calls(s, t, OnClose(socket)) && t.world.inFlight == s.world.inFlight
            && (code in {1002, 1003} ==> EndsIn(s, t, Disconnected, UnrecoverableClose, ByUnrecoverableClose, Some(code)))
            && (code in {1000, 1001} ==> EndsIn(s, t, Disconnected, NormalClose, ByNormalClose, Some(code)))
            && (code !in {1000, 1001, 1002, 1003} ==>
                  if s.st.AwaitingRetry? then t.st == AwaitingRetry && t.timer && t.current == s.current && t.ledger == s.ledger
                  else Retries(o, s, t, UnexpectedClose, ByUnexpectedClose, Some(code), Delay(o, s.backoff, u)))
  {
    var c := Called(s, OnClose(socket));
    CalledInv(o, s, OnClose(socket));
    DisconnectEnds(c, UnrecoverableClose, ByUnrecoverableClose, Some(code));
    DisconnectEnds(c, NormalClose, ByNormalClose, Some(code));
    RetryRetries(o, c, UnexpectedClose, ByUnexpectedClose, Some(code), Delay(o, s.backoff, u));
  }

  /** Whatever another socket does changes nothing. */
  lemma StaleSocketIgnored(o: Options, s: State, e: Event)
    requires (e.SocketOpens? || e.SocketMessage? || e.SocketError? || e.SocketCloses?) && s.current != Some(e.socket)
    ensures Step(o, s, e) == s
  {
  }

  // ----- timer and recovery -----

  lemma TimerOutcome(o: Options, s: State)
    requires Inv(o, s) && s.timer
    ensures var t := Step(o, s, TimerFires);
            && Attempts(s, t, ScheduledReconnect) && t.backoff == s.backoff && t.certTried == s.certTried && SameHandlers(s, t)
            && t.ledger.cycle == Some(CycleFor(s, ScheduledReconnect).(attempts := CycleFor(s, ScheduledReconnect).attempts + 1))
  {
    ConnectAttempts(s.(timer := false), ScheduledReconnect);
  }

  /** A refresh that succeeds reconnects; every other end of a recovery ends the connection. */
  lemma RecoveryOutcome(o: Options, s: State, i: nat, ok: bool)
    requires Inv(o, s) && CreateFits(s) && i < |s.world.recoveries|
    ensures var t := Step(o, s, RecoveryEnds(i, ok));
            && t.world.recoveries == s.world.recoveries[..i] + s.world.recoveries[i + 1..] && SameHandlers(s, t)
            && (if s.st.Disposed? then t.st == s.st && t.ledger == s.ledger
                else if ok && s.world.recoveries[i] then Resumes(o, s, t, CertificateRefresh)
                else if s.st.Disconnected? then t.st == s.st && t.ledger == s.ledger && t.current.None?
                else EndsIn(s, t, Disconnected, CertificateError, ByError, None))
  {
    var r := s.(world := s.world.(recoveries := s.world.recoveries[..i] + s.world.recoveries[i + 1..]));
    ReconnectResumes(o, r, CertificateRefresh);
    DisconnectEnds(r, CertificateError, ByError, None);
  }

  // ----- the delay -----

  /**
   * The delay is the backoff at the middle draw, and no draw moves it further away than the
   * jitter; the extreme draws move it that far.
   */
  lemma DelayAroundBackoff(o: Options, backoff: real, u: Draw)
    requires Sensible(o) && backoff >= 0.0 && o.jitter <= 1.0
    ensures backoff - Times(backoff, o.jitter) <= Delay(o, backoff, u) <= backoff + Times(backoff, o.jitter)
    ensures u == 0.5 ==> Delay(o, backoff, u) == backoff
    ensures u == 0.0 ==> Delay(o, backoff, u) == backoff - Times(backoff, o.jitter)
    ensures u == 0.75 ==> Delay(o, backoff, u) == backoff + Times(backoff, o.jitter) / 2.0
  {
    var spread := Times(backoff, o.jitter);
    SpreadWithin(backoff, o.jitter);
    SwingWithin(spread, u);
  }

  lemma SpreadWithin(backoff: real, jitter: real)
    requires backoff >= 0.0 && 0.0 <= jitter <= 1.0
    ensures 0.0 <= Times(backoff, jitter) <= backoff
  {
    assert backoff - Times(backoff, jitter) == backoff * (1.0 - jitter);
  }

  lemma SwingWithin(spread: real, u: Draw)
    requires spread >= 0.0
    ensures -spread <= Times(spread, u * 2.0 - 1.0) <= spread
    ensures u == 0.5 ==> Times(spread, u * 2.0 - 1.0) == 0.0
    ensures u == 0.0 ==> Times(spread, u * 2.0 - 1.0) == -spread
    ensures u == 0.75 ==> Times(spread, u * 2.0 - 1.0) == spread / 2.0
  {
    JitterBounds(spread, u);
  }

  // ----- every attempt is reported -----

  /** The attempts that the resolved cycles report. */
  function ReportedAttempts(log: seq<Report>): nat {
    if log == [] then 0
    else
      ReportedAttempts(log[..|log| - 1])
      + (if log[|log| - 1].ReconnectResolved? then log[|log| - 1].attempts else 0)
  }

  lemma ReportedSnoc(log: seq<Report>, r: Report)
    ensures ReportedAttempts(log + [r]) == ReportedAttempts(log) + (if r.ReconnectResolved? then r.attempts else 0)
  {
    assert (log + [r])[..|log|] == log;
  }

  lemma {:induction false} ReportedAppend(log: seq<Report>, more: seq<Report>)
    ensures ReportedAttempts(log + more) == ReportedAttempts(log) + ReportedAttempts(more)
    decreases |more|
  {
    if more == [] {
      assert log + more == log;
    } else {
      var front, last := more[..|more| - 1], more[|more| - 1];
      assert more == front + [last];
      ConcatAssoc(log, front, [last]);
      ReportedAppend(log, front);
      ReportedSnoc(log + front, last);
    }
  }

  lemma ReportedNone(more: seq<Report>)
    requires forall i :: 0 <= i < |more| ==> !more[i].ReconnectResolved?
    ensures ReportedAttempts(more) == 0
  {
    if more != [] { ReportedNone(more[..|more| - 1]); }
  }

  /** The first attempt belongs to no cycle; every later one is reported by a cycle or counted by the open one. */
  predicate AttemptsAddUp(s: State) {
    s.world.next == (if s.st.Idle? then 0 else 1) + ReportedAttempts(s.ledger.log)
                    + (if s.ledger.cycle.Some? then s.ledger.cycle.value.attempts else 0)
  }

  lemma EndsAddUp(s: State, t: State, to: Connection, reason: Reason, cause: Cause, code: Option<int>)
    requires AttemptsAddUp(s) && !s.st.Idle? && !to.Idle? && EndsIn(s, t, to, reason, cause, code)
    ensures AttemptsAddUp(t)
  {
    var quiet := [Transitioned(s.st, to, reason)] + (if s.st.Connected? then [Dropped(cause, code)] else []);
    ReportedNone(quiet);
    ReportedAppend(s.ledger.log, EndReports(s, to, reason, cause, code));
    if s.ledger.cycle.None? {
      assert EndReports(s, to, reason, cause, code) == quiet;
    } else {
      ReportedSnoc(quiet, EndReports(s, to, reason, cause, code)[|quiet|]);
    }
  }

  lemma RetriesAddUp(o: Options, s: State, t: State, reason: Reason, cause: Cause, code: Option<int>, delay: real)
    requires AttemptsAddUp(s) && !s.st.Idle? && Retries(o, s, t, reason, cause, code, delay)
    ensures AttemptsAddUp(t)
  {
    var quiet := [Transitioned(s.st, AwaitingRetry, reason)] + (if s.st.Connected? then [Dropped(cause, code)] else []);
    ReportedNone(quiet);
    ReportedAppend(s.ledger.log, quiet);
    ConcatAssoc(s.ledger.log, [Transitioned(s.st, AwaitingRetry, reason)], if s.st.Connected? then [Dropped(cause, code)] else []);
  }

  lemma AttemptsReported(s: State, t: State, reason: Reason)
    requires Attempts(s, t, reason)
    ensures ReportedAttempts(t.ledger.log) == ReportedAttempts(s.ledger.log)
  {
    var a, b := if s.st.Connecting? then [] else [Transitioned(s.st, Connecting, reason)],
                if s.st.Connected? then [Dropped(Replaced, Some(1000))] else [];
    ConcatAssoc(s.ledger.log, a, b);
    ReportedNone(a + b);
    ReportedAppend(s.ledger.log, a + b);
  }

  lemma FailsAddUp(o: Options, s: State, t: State, failure: Failure, delay: real)
    requires Inv(o, s) && AttemptsAddUp(s) && !s.st.Idle? && FailsAs(o, s, t, failure, delay) && t.world.next == s.world.next
    ensures AttemptsAddUp(t)
  {
    if !s.st.Disconnected? && !s.st.Disposed? {
      match failure
      case UnrecoverableFailure => EndsAddUp(s, t, Disconnected, UnrecoverableHttp, ByError, None);
      case CertificateFailure(_) =>
      case OtherFailure =>
        if !s.st.AwaitingRetry? { RetriesAddUp(o, s, t, ConnectionError, ByError, None, delay); }
    }
  }

  lemma SameNext(o: Options, s: State, failure: Failure, delay: real)
    ensures ConnectionFailed(o, s, failure, delay).world.next == s.world.next
  {
  }

  lemma OpenAddsUp(s: State, t: State)
    requires AttemptsAddUp(s) && s.st.Connecting? && t.st.Connected? && t.world.next == s.world.next
    requires t.ledger.cycle.None?
    requires t.ledger.log == s.ledger.log + [Transitioned(Connecting, Connected, SocketOpen), Opened]
                             + (if s.ledger.cycle.None? then [] else [Resolution(s.ledger.cycle.value, None)])
    ensures AttemptsAddUp(t)
  {
    var quiet := [Transitioned(Connecting, Connected, SocketOpen), Opened];
    ReportedNone(quiet);
    ReportedAppend(s.ledger.log, quiet);
    if s.ledger.cycle.Some? {
      ReportedSnoc(s.ledger.log + quiet, Resolution(s.ledger.cycle.value, None));
    } else {
      assert t.ledger.log == s.ledger.log + quiet;
    }
  }

  lemma ClosesAddUp(o: Options, s: State, socket: nat, code: int, u: Draw)
    requires Inv(o, s) && AttemptsAddUp(s) && s.current == Some(socket)
    ensures AttemptsAddUp(Step(o, s, SocketCloses(socket, code, u)))
  {
    var t := Step(o, s, SocketCloses(socket, code, u));
    ClosesOutcome(o, s, socket, code, u);
    if code in {1002, 1003} {
      EndsAddUp(s, t, Disconnected, UnrecoverableClose, ByUnrecoverableClose, Some(code));
    } else if code in {1000, 1001} {
      EndsAddUp(s, t, Disconnected, NormalClose, ByNormalClose, Some(code));
    } else if !s.st.AwaitingRetry? {
      RetriesAddUp(o, s, t, UnexpectedClose, ByUnexpectedClose, Some(code), Delay(o, s.backoff, u));
    } else {
      WaitingCloses(o, s, socket, code, u);
    }
  }

  lemma WaitingCloses(o: Options, s: State, socket: nat, code: int, u: Draw)
    requires s.current == Some(socket) && s.st.AwaitingRetry? && code !in {1000, 1001, 1002, 1003}
    ensures Step(o, s, SocketCloses(socket, code, u)) == Called(s, OnClose(socket))
  {
  }

  lemma SocketAddsUp(o: Options, s: State, e: Event)
    requires Inv(o, s) && AttemptsAddUp(s) && (e.SocketOpens? || e.SocketMessage? || e.SocketError? || e.SocketCloses?)
    ensures AttemptsAddUp(Step(o, s, e))
  {
    if s.current != Some(e.socket) {
      StaleSocketIgnored(o, s, e);
    } else {
      match e
      case SocketOpens(n) =>
        OpensOutcome(o, s, n);
        if s.st.Connecting? { OpenAddsUp(s, Step(o, s, e)); }
      case SocketMessage(n) => MessageOutcome(o, s, n);
      case SocketError(n, failure, u) =>
        ErrorOutcome(o, s, n, failure, u);
        SameNext(o, Called(s, OnError(n)), failure, Delay(o, s.backoff, u));
        FailsAddUp(o, s, Step(o, s, e), failure, Delay(o, s.backoff, u));
      case SocketCloses(n, code, u) => ClosesAddUp(o, s, n, code, u);
    }
  }

  lemma RecoveryAddsUp(o: Options, s: State, i: nat, ok: bool)
    requires Inv(o, s) && CreateFits(s) && AttemptsAddUp(s) && i < |s.world.recoveries|
    ensures AttemptsAddUp(Step(o, s, RecoveryEnds(i, ok)))
  {
    var t := Step(o, s, RecoveryEnds(i, ok));
    RecoveryOutcome(o, s, i, ok);
    if !s.st.Disposed? && ok && s.world.recoveries[i] {
      AttemptsReported(s, t, CertificateRefresh);
    } else if !s.st.Disposed? && !s.st.Disconnected? {
      EndsAddUp(s, t, Disconnected, CertificateError, ByError, None);
    } else {
      var pending := s.world.recoveries[..i] + s.world.recoveries[i + 1..];
      assert t == s.(world := s.world.(recoveries := pending));
    }
  }

  lemma StepAddsUp(o: Options, s: State, e: Event)
    requires Inv(o, s) && CreateFits(s) && AttemptsAddUp(s)
    ensures AttemptsAddUp(Step(o, s, e))
  {
    var t := Step(o, s, e);
    if Possible(s, e) {
      match e
      case Create =>
        CreateOutcome(o, s);
        AttemptsReported(s, t, InitialConnect);
      case Reconnect =>
        ReconnectOutcome(o, s);
        if !s.st.Disposed? { AttemptsReported(s, t, ManualReconnect); }
      case Disconnect(code) =>
        DisconnectOutcome(o, s, code);
        if !s.st.Disconnected? && !s.st.Disposed? { EndsAddUp(s, t, Disconnected, ManualDisconnect, ByUser, code); }
      case CloseRequested(code) =>
        if !s.st.Disposed? {
          CloseOutcome(o, s, code);
          EndsAddUp(s, t, Disposed, Dispose, ByDispose, code);
        }
      case Returned(attempt) => ReturnedOutcome(o, s, attempt);
      case Failed(attempt, failure, u) =>
        FailedOutcome(o, s, attempt, failure, u);
        SameNext(o, Landed(s, attempt), failure, Delay(o, s.backoff, u));
        FailsAddUp(o, s, t, failure, Delay(o, s.backoff, u));
      case TimerFires =>
        TimerOutcome(o, s);
        AttemptsReported(s, t, ScheduledReconnect);
      case RecoveryEnds(i, ok) => RecoveryAddsUp(o, s, i, ok);
      case _ => SocketAddsUp(o, s, e);
    }
  }

  lemma {:induction false} RunAddsUp(o: Options, s: State, events: seq<Event>)
    requires Inv(o, s) && CreateFits(s) && Sensible(o) && AttemptsAddUp(s)
    ensures AttemptsAddUp(Run(o, s, events))
    decreases |events|
  {
    if events != [] {
      StepInv(o, s, events[0]);
      StepCreateFits(o, s, events[0]);
      StepAddsUp(o, s, events[0]);
      RunAddsUp(o, Step(o, s, events[0]), events[1..]);
    }
  }

  /**
   * Over any run of a fresh connection every attempt but the first is counted once: by the
   * report of a resolved reconnect cycle, or by the cycle that is still open.
   */
  lemma EveryAttemptIsReported(o: Options, events: seq<Event>)
    requires Sensible(o)
    ensures AttemptsAddUp(After(o, events))
  {
    InitialInv(o);
    RunAddsUp(o, Initial(o), events);
  }
}
