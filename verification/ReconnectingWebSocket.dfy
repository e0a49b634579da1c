/**
 * The class of src/websocket/reconnectingWebSocket.ts with its fields updated in place. Every
 * method is proved to do to `View()` what the protocol's function says; what it does to the
 * outside (attempts started, sockets closed, handlers called) is kept in the ghost `world`.
 */
module ReconnectingWebSockets {
  import opened Basics
  import opened ConnectionLedger
  import opened SocketProtocol

  class ReconnectingWebSocket {
    const telemetry: WebSocketTelemetry
    const options: Options
    var currentSocket: Option<nat>
    var backoffMs: real
    var reconnectTimeout: bool
    var state: Connection
    var certRefreshAttempted: bool
    ghost var world: World

    ghost function View(): State
      reads this, telemetry, telemetry.telemetry
    {
      State(state, currentSocket, reconnectTimeout, backoffMs, certRefreshAttempted, telemetry.View(), world)
    }

    constructor (options: Options, reporter: Reporter)
      requires reporter.log == []
      ensures View() == Initial(options) && this.options == options
      ensures fresh(telemetry) && telemetry.telemetry == reporter
    {
      this.options := options;
      telemetry := new WebSocketTelemetry(reporter);
      currentSocket, backoffMs, reconnectTimeout := None, options.initial, false;
      state, certRefreshAttempted := Idle, false;
      world := World(0, {}, [], {}, {}, [], 0, []);
    }

    method Dispatch(action: Action, reason: Reason) returns (allowed: bool)
      modifies this, telemetry.telemetry
      ensures allowed == Allows(old(state), action)
      ensures View() == SocketProtocol.Dispatch(old(View()), action, reason)
    {
      var previous := state;
      var next := ReduceState(previous, action);
      if next == previous {
        return action.CONNECT? && previous.Connecting?;
      }
      state := next;
      telemetry.StateTransition(previous, next, reason);
      return true;
    }

    method ExecuteHandlers(ghost call: Call)
      modifies this`world
      ensures View() == Called(old(View()), call)
    {
      world := world.(calls := world.calls + [call]);
    }

    /** `connect` up to its await. */
    method Connect(reason: Reason)
      modifies this, telemetry, telemetry.telemetry
      ensures View() == SocketProtocol.Connect(old(View()), reason)
    {
      var allowed := Dispatch(CONNECT, reason);
      if !allowed { return; }
      telemetry.CountAttempt();
      if currentSocket.Some? {
        telemetry.ReportDropped(Replaced, Some(NORMAL));
        world := CloseSocket(world, currentSocket);
        currentSocket := None;
      }
      world := Attempt(world);
    }

    method ReconnectInternal(reason: Reason)
      modifies this, telemetry, telemetry.telemetry
      ensures View() == ReconnectFor(options, old(View()), reason)
    {
      if state.Disposed? { return; }
      PrepareReconnect(reason);
      Connect(reason);
    }

    /** Everything before `connect`: the cycle, the backoff and the timer. */
    method PrepareReconnect(reason: Reason)
      modifies this, telemetry
      ensures View() == Resume(options, old(View()), reason)
    {
      if !state.Idle? {
        telemetry.StartCycle(reason);
      }
      if state.Disconnected? {
        backoffMs := options.initial;
        certRefreshAttempted := false;
      }
      if reconnectTimeout {
        reconnectTimeout := false;
      }
    }

    method Reconnect()
      modifies this, telemetry, telemetry.telemetry
      ensures View() == ReconnectFor(options, old(View()), ManualReconnect)
      ensures Possible(old(View()), Event.Reconnect) ==> View() == Step(options, old(View()), Event.Reconnect)
    {
      ReconnectInternal(ManualReconnect);
    }

    method ClearCurrentSocket()
      modifies this, telemetry
      ensures View() == SocketProtocol.ClearCurrentSocket(old(View()))
    {
      if reconnectTimeout {
        reconnectTimeout := false;
      }
      if currentSocket.Some? {
        world := CloseSocket(world, currentSocket);
        currentSocket := None;
      }
      telemetry.ResetAll();
    }

    method DisconnectWithReason(reason: Reason, cause: Cause, code: Option<int>)
      modifies this, telemetry, telemetry.telemetry
      ensures View() == DisconnectFor(old(View()), reason, cause, code)
    {
      ghost var s := View();
      var allowed := Dispatch(DISCONNECT, reason);
      if allowed {
        ghost var t := View();
        LetGo(reason, cause, code);
        LeaveAfterDispatch(s, t, DISCONNECT, reason, cause, code);
      }
    }

    /** The final reports, then the socket and the timer. */
    method LetGo(reason: Reason, cause: Cause, code: Option<int>)
      modifies this, telemetry, telemetry.telemetry
      ensures View() == SocketProtocol.ClearCurrentSocket(
                          old(View()).(ledger := Terminated(old(View()).ledger, reason, cause, code)))
    {
      telemetry.ReportTerminated(reason, cause, code);
      ClearCurrentSocket();
    }

    method Disconnect(code: Option<int>)
      modifies this, telemetry, telemetry.telemetry
      ensures View() == DisconnectFor(old(View()), ManualDisconnect, ByUser, code)
      ensures Possible(old(View()), Event.Disconnect(code)) ==> View() == Step(options, old(View()), Event.Disconnect(code))
    {
      DisconnectWithReason(ManualDisconnect, ByUser, code);
    }

    method DisposeSelf(code: Option<int>)
      modifies this, telemetry, telemetry.telemetry
      ensures View() == DisposeFor(old(View()), code)
    {
      var allowed := Dispatch(DISPOSE, Reason.Dispose);
      if !allowed { return; }
      LetGo(Reason.Dispose, ByDispose, code);
      world := world.(disposals := world.disposals + 1);
    }

    method Close(code: Option<int>)
      modifies this, telemetry, telemetry.telemetry
      ensures View() == SocketProtocol.Close(old(View()), code)
      ensures Possible(old(View()), CloseRequested(code)) ==> View() == Step(options, old(View()), CloseRequested(code))
    {
      if state.Disposed? { return; }
      if currentSocket.Some? {
        ExecuteHandlers(OnClose(currentSocket.value));
      }
      DisposeSelf(code);
    }

    method ScheduleReconnect(reason: Reason, cause: Cause, code: Option<int>, u: Draw)
      modifies this, telemetry, telemetry.telemetry
      ensures View() == Retry(options, old(View()), reason, cause, code, Delay(options, old(backoffMs), u))
    {
      var jitter := Times(Times(backoffMs, options.jitter), u * 2.0 - 1.0);
      ScheduleAfter(reason, cause, code, Larger(0.0, backoffMs + jitter));
    }

    method ScheduleAfter(reason: Reason, cause: Cause, code: Option<int>, delayMs: real)
      modifies this, telemetry, telemetry.telemetry
      ensures View() == Retry(options, old(View()), reason, cause, code, delayMs)
    {
      ghost var s := View();
      var allowed := Dispatch(SCHEDULE_RETRY, reason);
      if allowed {
        ghost var t := View();
        ArmRetry(reason, cause, code, delayMs);
        RetryAfterDispatch(options, s, t, reason, cause, code, delayMs);
      }
    }

    method ArmRetry(reason: Reason, cause: Cause, code: Option<int>, delayMs: real)
      modifies this, telemetry, telemetry.telemetry
      ensures View() == old(View()).(
                ledger := Retrying(old(View()).ledger, reason, cause, code, delayMs),
                timer := true,
                backoff := Min(old(View()).backoff * 2.0, options.max))
    {
      telemetry.ReportRetrying(reason, cause, code, delayMs);
      reconnectTimeout := true;
      backoffMs := Min(backoffMs * 2.0, options.max);
    }

    /** Up to the await of the refresh. */
    method HandleClientCertificateError(refreshable: bool)
      modifies this
      ensures View() == RecoverCertificate(old(View()), refreshable)
    {
      var runs := !certRefreshAttempted && refreshable;
      if runs {
        certRefreshAttempted := true;
      }
      world := world.(recoveries := world.recoveries + [runs],
                      refreshes := world.refreshes + if runs then [TallyOf(telemetry.telemetry.log).cycles] else []);
    }

    method HandleConnectionError(failure: Failure, u: Draw)
      modifies this, telemetry, telemetry.telemetry
      ensures View() == ConnectionFailed(options, old(View()), failure, Delay(options, old(backoffMs), u))
    {
      if state.Disposed? || state.Disconnected? { return; }
      match failure
      case UnrecoverableFailure => DisconnectWithReason(UnrecoverableHttp, ByError, None);
      case CertificateFailure(refreshable) => HandleClientCertificateError(refreshable);
      case OtherFailure => ScheduleReconnect(ConnectionError, ByError, None, u);
    }

    /** The factory's promise resolved: the rest of `connect`. */
    method SocketReady(attempt: nat)
      requires attempt in world.inFlight
      modifies this
      ensures View() == Step(options, old(View()), Returned(attempt))
    {
      world := world.(inFlight := world.inFlight - {attempt}, handed := world.handed + {attempt});
      if !state.Connecting? {
        world := CloseSocket(world, Some(attempt));
        return;
      }
      currentSocket := Some(attempt);
    }

    method ConnectFailed(attempt: nat, failure: Failure, u: Draw)
      requires attempt in world.inFlight
      modifies this, telemetry, telemetry.telemetry
      ensures View() == Step(options, old(View()), Failed(attempt, failure, u))
    {
      world := world.(inFlight := world.inFlight - {attempt});
      HandleConnectionError(failure, u);
    }

    method OnSocketOpen(socket: nat)
      modifies this, telemetry, telemetry.telemetry
      ensures View() == Step(options, old(View()), SocketOpens(socket))
    {
      if currentSocket != Some(socket) { return; }
      var allowed := Dispatch(OPEN, SocketOpen);
      if !allowed { return; }
      telemetry.ReportOpened();
      backoffMs := options.initial;
      certRefreshAttempted := false;
      ExecuteHandlers(OnOpen(socket));
    }

    method OnSocketMessage(socket: nat)
      modifies this
      ensures View() == Step(options, old(View()), SocketMessage(socket))
    {
      if currentSocket != Some(socket) { return; }
      ExecuteHandlers(OnMessage(socket));
    }

    method OnSocketError(socket: nat, failure: Failure, u: Draw)
      modifies this, telemetry, telemetry.telemetry
      ensures View() == Step(options, old(View()), SocketError(socket, failure, u))
    {
      if currentSocket != Some(socket) { return; }
      ExecuteHandlers(OnError(socket));
      HandleConnectionError(failure, u);
    }

    method OnSocketClose(socket: nat, code: int, u: Draw)
      modifies this, telemetry, telemetry.telemetry
      ensures View() == Step(options, old(View()), SocketCloses(socket, code, u))
    {
      if currentSocket == Some(socket) {
        HandleSocketClose(socket, code, u);
      }
    }

    method HandleSocketClose(socket: nat, code: int, u: Draw)
      modifies this, telemetry, telemetry.telemetry
      ensures View() == SocketClosed(options, old(View()), socket, code, Delay(options, old(backoffMs), u))
    {
      if state.Disposed? || state.Disconnected? { return; }
      ExecuteHandlers(OnClose(socket));
      if code in UNRECOVERABLE_CODES {
        DisconnectWithReason(UnrecoverableClose, ByUnrecoverableClose, Some(code));
      } else if code in NORMAL_CODES {
        DisconnectWithReason(NormalClose, ByNormalClose, Some(code));
      } else {
        ScheduleReconnect(UnexpectedClose, ByUnexpectedClose, Some(code), u);
      }
    }

    method OnRetryTimer()
      requires reconnectTimeout
      modifies this, telemetry, telemetry.telemetry
      ensures View() == Step(options, old(View()), TimerFires)
    {
      reconnectTimeout := false;
      Connect(ScheduledReconnect);
    }

    /** What `handleConnectionError` does once the refresh has answered. */
    method OnRecoveryEnd(ghost i: nat, renewed: bool)
      requires i < |world.recoveries| && (renewed ==> world.recoveries[i])
      modifies this, telemetry, telemetry.telemetry
      ensures View() == Step(options, old(View()), RecoveryEnds(i, renewed))
    {
      world := world.(recoveries := world.recoveries[..i] + world.recoveries[i + 1..]);
      if renewed {
        ReconnectInternal(CertificateRefresh);
      } else {
        DisconnectWithReason(CertificateError, ByError, None);
      }
    }
  }
}
