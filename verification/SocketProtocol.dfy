/**
 * The reconnecting WebSocket (src/websocket/reconnectingWebSocket.ts) as a state machine whose
 * steps are the stretches between two awaits. Several socket factory calls and certificate
 * refreshes may be pending at once; the environment finishes them in any order.
 */
module SocketProtocol {
  import opened Basics
  import opened ConnectionLedger

  // ----- the reducer -----

  datatype Action = CONNECT | OPEN | SCHEDULE_RETRY | DISCONNECT | DISPOSE

  function ReduceState(st: Connection, action: Action): Connection {
    match action
    case CONNECT =>
      if st.Idle? || st.Connected? || st.AwaitingRetry? || st.Disconnected? then Connecting else st
    case OPEN => if st.Connecting? then Connected else st
    case SCHEDULE_RETRY => if st.Connecting? || st.Connected? then AwaitingRetry else st
    case DISCONNECT =>
      if st.Idle? || st.Connecting? || st.Connected? || st.AwaitingRetry? then Disconnected else st
    case DISPOSE => Disposed
  }

  /** What `#dispatch` returns: CONNECT restarts a connection attempt that is already running. */
  predicate Allows(st: Connection, action: Action) {
    ReduceState(st, action) != st || (action.CONNECT? && st.Connecting?)
  }

  // ----- state -----

  /** What a failed connection attempt or a socket error turns out to be. */
  datatype Failure = UnrecoverableFailure | CertificateFailure(refreshable: bool) | OtherFailure

  /** A call of the registered handlers, with the socket it is made for. */
  datatype Call = OnOpen(socket: nat) | OnMessage(socket: nat) | OnError(socket: nat) | OnClose(socket: nat)

  /**
   * The world outside: factory calls are numbered, and a call's number is its socket's.
   * `handed` are the sockets the factory has returned, `closed` those `close` was called on.
   * `recoveries` holds a pending certificate recovery each, `true` if it really runs a refresh.
   * `refreshes` lists the refreshes begun, each with the number of openings and resumes that
   * the log showed at the time.
   */
  datatype World = World(
    next: nat,
    inFlight: set<nat>,
    recoveries: seq<bool>,
    handed: set<nat>,
    closed: set<nat>,
    calls: seq<Call>,
    disposals: nat,
    refreshes: seq<nat>)

  datatype State = State(
    st: Connection,
    current: Option<nat>,
    timer: bool,
    backoff: real,
    certTried: bool,
    ledger: Ledger,
    world: World)

  datatype Options = Options(initial: real, max: real, jitter: real)

  /** What `Math.random()` returns. */
  type Draw = u: real | 0.0 <= u < 1.0 witness 0.0

  /** The delay of a retry: the backoff, jittered. */
  function Delay(o: Options, backoff: real, u: Draw): real {
    var jitter := Times(Times(backoff, o.jitter), u * 2.0 - 1.0);
    Larger(0.0, backoff + jitter)
  }

  function Initial(o: Options): State {
    State(Idle, None, false, o.initial, false, EMPTY_LEDGER, World(0, {}, [], {}, {}, [], 0, []))
  }

  const NORMAL := 1000
  const UNRECOVERABLE_CODES := {1002, 1003}
  const NORMAL_CODES := {1000, 1001}

  // ----- the methods -----

  function Dispatch(s: State, action: Action, reason: Reason): State {
    var to := ReduceState(s.st, action);
    if to == s.st then s
    else s.(st := to, ledger := Logged(s.ledger, Transitioned(s.st, to, reason)))
  }

  function CloseSocket(w: World, socket: Option<nat>): World {
    if socket.None? then w else w.(closed := w.closed + {socket.value})
  }

  function Called(s: State, call: Call): State {
    s.(world := s.world.(calls := s.world.calls + [call]))
  }

  /** `connect` up to the await of the factory. */
  function Connect(s: State, reason: Reason): State {
    if !Allows(s.st, CONNECT) then s
    else
      var t := Dispatch(s, CONNECT, reason);
      var ledger := ConnectStarted(t.ledger);
      t.(ledger := if t.current.None? then ledger else Drop(ledger, Replaced, Some(NORMAL)),
         world := Attempt(CloseSocket(t.world, t.current)),
         current := None)
  }

  function Attempt(w: World): World {
    w.(next := w.next + 1, inFlight := w.inFlight + {w.next})
  }

  /** The part of `#reconnectInternal` before `connect`. */
  function Resume(o: Options, s: State, reason: Reason): State {
    var t := if s.st.Idle? then s else s.(ledger := ReconnectStarted(s.ledger, reason));
    var u := if !s.st.Disconnected? then t
             else t.(backoff := o.initial, certTried := false);
    u.(timer := false)
  }

  function ReconnectFor(o: Options, s: State, reason: Reason): State {
    if s.st.Disposed? then s else Connect(Resume(o, s, reason), reason)
  }

  function ClearCurrentSocket(s: State): State {
    s.(timer := false, world := CloseSocket(s.world, s.current), current := None, ledger := Reset(s.ledger))
  }

  function DisconnectFor(s: State, reason: Reason, cause: Cause, code: Option<int>): State {
    if !Allows(s.st, DISCONNECT) then s else Leave(s, DISCONNECT, reason, cause, code)
  }

  /** The transition, the final reports, and letting go of socket and timer. */
  function Leave(s: State, action: Action, reason: Reason, cause: Cause, code: Option<int>): State {
    var t := Dispatch(s, action, reason);
    ClearCurrentSocket(t.(ledger := Terminated(t.ledger, reason, cause, code)))
  }

  lemma LeaveAfterDispatch(s: State, t: State, action: Action, reason: Reason, cause: Cause, code: Option<int>)
    requires t == Dispatch(s, action, reason)
    ensures Leave(s, action, reason, cause, code)
         == ClearCurrentSocket(t.(ledger := Terminated(t.ledger, reason, cause, code)))
  {
  }

  function DisposeFor(s: State, code: Option<int>): State {
    if !Allows(s.st, DISPOSE) then s
    else
      var t := Leave(s, DISPOSE, Dispose, ByDispose, code);
      t.(world := t.world.(disposals := t.world.disposals + 1))
  }

  function Close(s: State, code: Option<int>): State {
    if s.st.Disposed? then s
    else DisposeFor(if s.current.None? then s else Called(s, OnClose(s.current.value)), code)
  }

  function Retry(o: Options, s: State, reason: Reason, cause: Cause, code: Option<int>, delay: real): State {
    if !Allows(s.st, SCHEDULE_RETRY) then s
    else
      var t := Dispatch(s, SCHEDULE_RETRY, reason);
      t.(ledger := Retrying(t.ledger, reason, cause, code, delay),
         timer := true,
         backoff := Min(t.backoff * 2.0, o.max))
  }

  lemma RetryAfterDispatch(o: Options, s: State, t: State, reason: Reason, cause: Cause, code: Option<int>, delay: real)
    requires Allows(s.st, SCHEDULE_RETRY) && t == Dispatch(s, SCHEDULE_RETRY, reason)
    ensures Retry(o, s, reason, cause, code, delay)
         == t.(ledger := Retrying(t.ledger, reason, cause, code, delay), timer := true, backoff := Min(t.backoff * 2.0, o.max))
  {
  }

  /** `handleClientCertificateError` up to its await; the recovery is then pending. */
  function RecoverCertificate(s: State, refreshable: bool): State {
    var runs := !s.certTried && refreshable;
    s.(certTried := s.certTried || runs,
       world := s.world.(recoveries := s.world.recoveries + [runs],
                         refreshes := s.world.refreshes + if runs then [TallyOf(s.ledger.log).cycles] else []))
  }

  function ConnectionFailed(o: Options, s: State, failure: Failure, delay: real): State {
    if s.st.Disposed? || s.st.Disconnected? then s
    else
      match failure
      case UnrecoverableFailure => DisconnectFor(s, UnrecoverableHttp, ByError, None)
      case CertificateFailure(refreshable) => RecoverCertificate(s, refreshable)
      case OtherFailure => Retry(o, s, ConnectionError, ByError, None, delay)
  }

  function SocketClosed(o: Options, s: State, socket: nat, code: int, delay: real): State {
    if s.st.Disposed? || s.st.Disconnected? then s
    else
      var t := Called(s, OnClose(socket));
      if code in UNRECOVERABLE_CODES then DisconnectFor(t, UnrecoverableClose, ByUnrecoverableClose, Some(code))
      else if code in NORMAL_CODES then DisconnectFor(t, NormalClose, ByNormalClose, Some(code))
      else Retry(o, t, UnexpectedClose, ByUnexpectedClose, Some(code), delay)
  }

  // ----- what resumes after an await -----

  function Landed(s: State, attempt: nat): State {
    s.(world := s.world.(inFlight := s.world.inFlight - {attempt}))
  }

  /** The factory returned the socket of this attempt. */
  function FactoryReturned(s: State, attempt: nat): State {
    var t := Landed(s, attempt);
    var w := t.world.(handed := t.world.handed + {attempt});
    if !s.st.Connecting? then t.(world := CloseSocket(w, Some(attempt)))
    else t.(world := w, current := Some(attempt))
  }

  function FactoryFailed(o: Options, s: State, attempt: nat, failure: Failure, delay: real): State {
    ConnectionFailed(o, Landed(s, attempt), failure, delay)
  }

  function SocketOpened(o: Options, s: State, socket: nat): State {
    if !Allows(s.st, OPEN) then s
    else
      var t := Dispatch(s, OPEN, SocketOpen);
      Called(t.(ledger := Open(t.ledger), backoff := o.initial, certTried := false), OnOpen(socket))
  }

  function SocketFailed(o: Options, s: State, socket: nat, failure: Failure, delay: real): State {
    ConnectionFailed(o, Called(s, OnError(socket)), failure, delay)
  }

  function TimerFired(s: State): State {
    Connect(s.(timer := false), ScheduledReconnect)
  }

  /** A pending recovery ends; `ok` is what the refresh answered, if one ran. */
  function RecoveryEnded(o: Options, s: State, i: nat, ok: bool): State
    requires i < |s.world.recoveries|
  {
    var pending := s.world.recoveries;
    var t := s.(world := s.world.(recoveries := pending[..i] + pending[i + 1..]));
    if ok && pending[i] then ReconnectFor(o, t, CertificateRefresh)
    else DisconnectFor(t, CertificateError, ByError, None)
  }

  // ----- steps and runs -----

  /** `u` is the random number a retry, if one is scheduled, jitters its delay with. */
  datatype Event =
    | Create
    | Reconnect
    | Disconnect(code: Option<int>)
    | CloseRequested(code: Option<int>)
    | Returned(attempt: nat)
    | Failed(attempt: nat, failure: Failure, u: Draw)
    | SocketOpens(socket: nat)
    | SocketMessage(socket: nat)
    | SocketError(socket: nat, failure: Failure, u: Draw)
    | SocketCloses(socket: nat, wsCode: int, u: Draw)
    | TimerFires
    | RecoveryEnds(i: nat, ok: bool)

  /** The first attempt, or the certificate recovery it ended in, has not settled yet. */
  predicate CreatePending(s: State) {
    s.world.next == 1 && s.world.handed == {} && (s.world.inFlight != {} || s.world.recoveries != [])
  }

  /** `create` has returned the instance, so there is someone to call it. */
  predicate Available(s: State) {
    s.world.next > 0 && !CreatePending(s)
  }

  /**
   * The environment can produce the event now. The constructor is private and `create` awaits
   * the first `connect`, so nobody calls a method before that has settled (lines 167-203, and
   * src/api/coderApi.ts:511-520). A socket may fire events at any time.
   */
  predicate Possible(s: State, e: Event) {
    match e
    case Create => s.st.Idle?
    case Reconnect | Disconnect(_) | CloseRequested(_) => Available(s)
    case Returned(attempt) => attempt in s.world.inFlight
    case Failed(attempt, _, _) => attempt in s.world.inFlight
    case TimerFires => s.timer
    case RecoveryEnds(i, ok) => i < |s.world.recoveries|
    case _ => true
  }

  function SocketStep(o: Options, s: State, e: Event): State
    requires e.SocketOpens? || e.SocketMessage? || e.SocketError? || e.SocketCloses?
  {
    if s.current != Some(e.socket) then s
    else
      match e
      case SocketOpens(socket) => SocketOpened(o, s, socket)
      case SocketMessage(socket) => Called(s, OnMessage(socket))
      case SocketError(socket, failure, u) => SocketFailed(o, s, socket, failure, Delay(o, s.backoff, u))
      case SocketCloses(socket, wsCode, u) => SocketClosed(o, s, socket, wsCode, Delay(o, s.backoff, u))
  }

  function Step(o: Options, s: State, e: Event): State {
    if !Possible(s, e) then s
    else
      match e
      case Create => Connect(s, InitialConnect)
      case Reconnect => ReconnectFor(o, s, ManualReconnect)
      case Disconnect(code) => DisconnectFor(s, ManualDisconnect, ByUser, code)
      case CloseRequested(code) => Close(s, code)
      case Returned(attempt) => FactoryReturned(s, attempt)
      case Failed(attempt, failure, u) => FactoryFailed(o, s, attempt, failure, Delay(o, s.backoff, u))
      case TimerFires => TimerFired(s)
      case RecoveryEnds(i, ok) => RecoveryEnded(o, s, i, ok)
      case _ => SocketStep(o, s, e)
  }

  function Run(o: Options, s: State, events: seq<Event>): State
    decreases |events|
  {
    if events == [] then s else Run(o, Step(o, s, events[0]), events[1..])
  }

  // ----- the invariant -----

  /** `x * 2^k`. */
  function Doubled(x: real, k: nat): real {
    if k == 0 then x else Doubled(x, k - 1) * 2.0
  }

  /** The delay after `k` retries in a row. */
  function Backoff(o: Options, k: nat): real {
    if k == 0 then o.initial else Min(Doubled(o.initial, k), o.max)
  }

  predicate SocketFits(s: State) {
    && (s.timer <==> s.st.AwaitingRetry?)
    && (s.st.Connected? ==> s.current.Some?)
    && (s.st.Idle? || s.st.Disconnected? || s.st.Disposed? ==> s.current.None?)
  }

  predicate LedgerFits(s: State) {
    && Balanced(s.ledger, s.st)
    && (s.ledger.open <==> s.st.Connected?)
    && (s.st.AwaitingRetry? ==> s.ledger.cycle.Some?)
    && (s.st.Idle? || s.st.Connected? || s.st.Disconnected? || s.st.Disposed? ==> s.ledger.cycle.None?)
  }

  /** Each refresh was begun in a later cycle than the one before, none in a cycle to come. */
  predicate OnePerCycle(refreshes: seq<nat>, cycle: nat) {
    && (forall i, j :: 0 <= i < j < |refreshes| ==> refreshes[i] < refreshes[j])
    && (forall i :: 0 <= i < |refreshes| ==> refreshes[i] <= cycle)
  }

  predicate RefreshesFit(refreshes: seq<nat>, cycle: nat, tried: bool) {
    OnePerCycle(refreshes, cycle) && (tried <==> cycle in refreshes)
  }

  predicate RetryFits(o: Options, s: State) {
    && s.backoff == Backoff(o, TallyOf(s.ledger.log).retries)
    && RefreshesFit(s.world.refreshes, TallyOf(s.ledger.log).cycles, s.certTried)
    && s.world.disposals == (if s.st.Disposed? then 1 else 0)
  }

  predicate SocketsFit(s: State) {
    && s.world.closed <= s.world.handed
    && (forall n :: n in s.world.handed ==> n < s.world.next)
    && (forall n :: n in s.world.inFlight ==> n < s.world.next)
    && s.world.handed !! s.world.inFlight
    && (s.current.Some? ==> s.current.value in s.world.handed && s.current.value !in s.world.closed)
  }

  predicate Inv(o: Options, s: State) {
    SocketFits(s) && LedgerFits(s) && RetryFits(o, s) && SocketsFit(s)
  }

  /** While `create` is pending the connection is CONNECTING, and one thing is awaited. */
  predicate CreateFits(s: State) {
    && (s.st.Idle? <==> s.world.next == 0)
    && (s.st.Idle? ==> s.world.recoveries == [])
    && (CreatePending(s) ==>
          s.st.Connecting? && |s.world.recoveries| <= 1 && (s.world.inFlight == {} || s.world.recoveries == []))
  }

  predicate Sensible(o: Options) {
    o.initial >= 0.0 && o.max >= 0.0 && o.jitter >= 0.0
  }

  lemma InitialInv(o: Options)
    ensures Inv(o, Initial(o))
  {
  }

  // ----- every method keeps the invariant -----

  lemma RefreshBegun(refreshes: seq<nat>, cycle: nat)
    requires RefreshesFit(refreshes, cycle, false)
    ensures RefreshesFit(refreshes + [cycle], cycle, true)
  {
    assert (refreshes + [cycle])[|refreshes|] == cycle;
    forall i | 0 <= i < |refreshes| ensures refreshes[i] < cycle { assert refreshes[i] in refreshes; }
  }

  lemma NextCycle(refreshes: seq<nat>, cycle: nat)
    requires OnePerCycle(refreshes, cycle)
    ensures RefreshesFit(refreshes, cycle + 1, false)
  {
  }

  /** The counts of retries and cycles after an opening or a resume. */
  predicate NextCount(l: Ledger, t: Ledger) {
    TallyOf(t.log).retries == 0 && TallyOf(t.log).cycles == TallyOf(l.log).cycles + 1
  }

  /** The transition to CONNECTING, from wherever it is allowed. */
  lemma ConnectDispatched(s: State, reason: Reason)
    requires Balanced(s.ledger, s.st) && !s.st.Disposed?
    ensures var t := Dispatch(s, CONNECT, reason);
            && t == s.(st := Connecting, ledger := t.ledger)
            && Balanced(t.ledger, Connecting) && t.ledger.open == s.ledger.open
            && (if s.st.Disconnected? then NextCount(s.ledger, t.ledger) else SameCounts(s.ledger, t.ledger))
  {
    if !s.st.Connecting? { TransitionBalanced(s.ledger, s.st, Connecting, reason); }
  }

  /** What `connect` reports once it may go on: an attempt, and the replaced connection's drop. */
  function AttemptReported(l: Ledger, current: Option<nat>): Ledger {
    if current.None? then ConnectStarted(l) else Drop(ConnectStarted(l), Replaced, Some(NORMAL))
  }

  lemma AttemptBalanced(l: Ledger, current: Option<nat>)
    requires Balanced(l, Connecting) && (l.open ==> current.Some?)
    ensures var t := AttemptReported(l, current); Balanced(t, Connecting) && !t.open && SameCounts(l, t)
  {
    StartedBalanced(l, Connecting);
    DropBalanced(ConnectStarted(l), Connecting, Replaced, Some(NORMAL));
  }

  lemma ConnectLedger(s: State, reason: Reason)
    requires Balanced(s.ledger, s.st) && (s.ledger.open <==> s.st.Connected?) && !s.st.Disposed?
    requires s.st.Connected? ==> s.current.Some?
    ensures var t := Dispatch(s, CONNECT, reason);
            Connect(s, reason) == t.(ledger := AttemptReported(t.ledger, s.current),
                                     world := Attempt(CloseSocket(s.world, s.current)), current := None)
    ensures var l := Connect(s, reason).ledger;
            && Balanced(l, Connecting) && !l.open
            && (if s.st.Disconnected? then NextCount(s.ledger, l) else SameCounts(s.ledger, l))
  {
    ConnectDispatched(s, reason);
    AttemptBalanced(Dispatch(s, CONNECT, reason).ledger, s.current);
  }

  lemma ClosedSocketsFit(s: State, w: World)
    requires SocketsFit(s) && w == CloseSocket(s.world, s.current)
    ensures SocketsFit(s.(current := None, world := w))
  {
  }

  lemma AttemptFits(s: State)
    requires SocketsFit(s)
    ensures SocketsFit(s.(world := Attempt(s.world)))
  {
  }

  /** What `connect` may start from: in DISCONNECTED the retries and the refresh have been set back. */
  predicate ReadyToConnect(o: Options, s: State) {
    if s.st.Disconnected? then
      && s.backoff == o.initial && !s.certTried && s.world.disposals == 0
      && OnePerCycle(s.world.refreshes, TallyOf(s.ledger.log).cycles)
    else RetryFits(o, s)
  }

  lemma ConnectRetryFits(o: Options, s: State, reason: Reason)
    requires Balanced(s.ledger, s.st) && (s.ledger.open <==> s.st.Connected?) && !s.st.Disposed?
    requires s.st.Connected? ==> s.current.Some?
    requires ReadyToConnect(o, s)
    ensures RetryFits(o, Connect(s, reason))
  {
    ConnectLedger(s, reason);
    if s.st.Disconnected? { NextCycle(s.world.refreshes, TallyOf(s.ledger.log).cycles); }
  }

  lemma ConnectInv(o: Options, s: State, reason: Reason)
    requires Balanced(s.ledger, s.st) && (s.ledger.open <==> s.st.Connected?) && !s.st.Disposed?
    requires s.st.Connected? ==> s.current.Some?
    requires !s.timer && SocketsFit(s) && ReadyToConnect(o, s)
    ensures Inv(o, Connect(s, reason))
  {
    ConnectLedger(s, reason);
    ConnectRetryFits(o, s, reason);
    ClosedSocketsFit(s, CloseSocket(s.world, s.current));
    AttemptFits(s.(current := None, world := CloseSocket(s.world, s.current)));
  }

  lemma ReconnectInv(o: Options, s: State, reason: Reason)
    requires Inv(o, s)
    ensures Inv(o, ReconnectFor(o, s, reason))
  {
    if !s.st.Disposed? {
      ResumeReady(o, s, reason);
      SocketsFrame(s, Resume(o, s, reason));
      ConnectInv(o, Resume(o, s, reason), reason);
    }
  }

  lemma CycleStarted(l: Ledger, st: Connection, reason: Reason)
    requires Balanced(l, st)
    ensures var t := ReconnectStarted(l, reason); Balanced(t, st) && t.open == l.open && t.log == l.log
  {
  }

  /** `Resume` touches no socket and no report; from DISCONNECTED it sets the retries back. */
  lemma ResumeReady(o: Options, s: State, reason: Reason)
    requires Inv(o, s) && !s.st.Disposed?
    ensures var t := Resume(o, s, reason);
            && t.st == s.st && t.current == s.current && !t.timer && t.world == s.world
            && Balanced(t.ledger, t.st) && t.ledger.open == s.ledger.open && ReadyToConnect(o, t)
  {
    CycleStarted(s.ledger, s.st, reason);
  }

  lemma SocketsFrame(s: State, t: State)
    requires SocketsFit(s) && t.current == s.current && t.world.next == s.world.next
    requires t.world.inFlight == s.world.inFlight && t.world.handed == s.world.handed && t.world.closed == s.world.closed
    ensures SocketsFit(t)
  {
  }

  /** The transition of a disconnect or a disposal. */
  lemma LeaveDispatched(s: State, action: Action, reason: Reason)
    requires Balanced(s.ledger, s.st) && (action.DISCONNECT? || action.DISPOSE?) && ReduceState(s.st, action) != s.st
    ensures var t := Dispatch(s, action, reason);
            t == s.(st := ReduceState(s.st, action), ledger := t.ledger)
            && Balanced(t.ledger, t.st) && SameCounts(s.ledger, t.ledger)
  {
    TransitionBalanced(s.ledger, s.st, ReduceState(s.st, action), reason);
  }

  /** `terminated` leaves nothing open, so the `reset` after it discards nothing. */
  lemma LeaveLedger(s: State, action: Action, reason: Reason, cause: Cause, code: Option<int>)
    requires Balanced(s.ledger, s.st) && (action.DISCONNECT? || action.DISPOSE?) && ReduceState(s.st, action) != s.st
    ensures var t := Dispatch(s, action, reason);
            var l := Terminated(t.ledger, reason, cause, code);
            Reset(l) == l && Balanced(l, t.st) && !l.open && l.cycle.None? && SameCounts(s.ledger, l)
  {
    var t := Dispatch(s, action, reason);
    LeaveDispatched(s, action, reason);
    TerminatedBalanced(t.ledger, t.st, reason, cause, code);
  }

  lemma LeaveState(s: State, action: Action, reason: Reason, cause: Cause, code: Option<int>)
    requires Balanced(s.ledger, s.st) && (action.DISCONNECT? || action.DISPOSE?) && ReduceState(s.st, action) != s.st
    ensures Leave(s, action, reason, cause, code)
         == s.(st := ReduceState(s.st, action), timer := false, current := None, world := CloseSocket(s.world, s.current),
               ledger := Terminated(Dispatch(s, action, reason).ledger, reason, cause, code))
  {
    LeaveLedger(s, action, reason, cause, code);
  }

  lemma LeaveFits(s: State, action: Action, reason: Reason, cause: Cause, code: Option<int>)
    requires LedgerFits(s) && SocketsFit(s) && (action.DISCONNECT? || action.DISPOSE?) && ReduceState(s.st, action) != s.st
    ensures var t := Leave(s, action, reason, cause, code);
            && LedgerFits(t) && SocketsFit(t) && t.st == ReduceState(s.st, action) && t.current.None? && !t.timer
            && t.backoff == s.backoff && t.certTried == s.certTried && SameCounts(s.ledger, t.ledger)
            && t.world.refreshes == s.world.refreshes && t.world.disposals == s.world.disposals
  {
    LeaveLedger(s, action, reason, cause, code);
    LeaveState(s, action, reason, cause, code);
    var cleared := s.(current := None, world := CloseSocket(s.world, s.current));
    ClosedSocketsFit(s, cleared.world);
    SocketsFrame(cleared, Leave(s, action, reason, cause, code));
  }

  lemma DisconnectInv(o: Options, s: State, reason: Reason, cause: Cause, code: Option<int>)
    requires Inv(o, s)
    ensures Inv(o, DisconnectFor(s, reason, cause, code))
  {
    if Allows(s.st, DISCONNECT) { LeaveFits(s, DISCONNECT, reason, cause, code); }
  }

  lemma DisposeInv(o: Options, s: State, code: Option<int>)
    requires Inv(o, s)
    ensures Inv(o, DisposeFor(s, code))
  {
    if Allows(s.st, DISPOSE) {
      LeaveFits(s, DISPOSE, Dispose, ByDispose, code);
      SocketsFrame(Leave(s, DISPOSE, Dispose, ByDispose, code), DisposeFor(s, code));
    }
  }

  lemma BackoffDoubles(o: Options, k: nat)
    requires Sensible(o)
    ensures Min(Backoff(o, k) * 2.0, o.max) == Backoff(o, k + 1)
  {
    assert Doubled(o.initial, 0) == o.initial && Doubled(o.initial, k + 1) == Doubled(o.initial, k) * 2.0;
  }

  function RetryReported(s: State, reason: Reason, cause: Cause, code: Option<int>, delay: real): Ledger {
    Retrying(Logged(s.ledger, Transitioned(s.st, AwaitingRetry, reason)), reason, cause, code, delay)
  }

  lemma RetryState(o: Options, s: State, reason: Reason, cause: Cause, code: Option<int>, delay: real)
    requires Allows(s.st, SCHEDULE_RETRY)
    ensures Retry(o, s, reason, cause, code, delay)
         == s.(st := AwaitingRetry, timer := true, backoff := Min(s.backoff * 2.0, o.max),
               ledger := RetryReported(s, reason, cause, code, delay))
  {
    assert ReduceState(s.st, SCHEDULE_RETRY) == AwaitingRetry;
  }

  lemma RetryLedger(s: State, reason: Reason, cause: Cause, code: Option<int>, delay: real)
    requires Balanced(s.ledger, s.st) && Allows(s.st, SCHEDULE_RETRY)
    ensures var l := RetryReported(s, reason, cause, code, delay);
            && Balanced(l, AwaitingRetry) && !l.open && l.cycle.Some?
            && TallyOf(l.log).retries == TallyOf(s.ledger.log).retries + 1
            && TallyOf(l.log).cycles == TallyOf(s.ledger.log).cycles
  {
    TransitionBalanced(s.ledger, s.st, AwaitingRetry, reason);
    RetryingBalanced(Logged(s.ledger, Transitioned(s.st, AwaitingRetry, reason)), AwaitingRetry, reason, cause, code, delay);
  }

  lemma RetryInv(o: Options, s: State, reason: Reason, cause: Cause, code: Option<int>, delay: real)
    requires Inv(o, s) && Sensible(o)
    ensures Inv(o, Retry(o, s, reason, cause, code, delay))
  {
    if Allows(s.st, SCHEDULE_RETRY) {
      RetryState(o, s, reason, cause, code, delay);
      RetryLedger(s, reason, cause, code, delay);
      BackoffDoubles(o, TallyOf(s.ledger.log).retries);
    }
  }

  lemma RecoverInv(o: Options, s: State, refreshable: bool)
    requires Inv(o, s)
    ensures Inv(o, RecoverCertificate(s, refreshable))
  {
    var runs, refreshes := !s.certTried && refreshable, s.world.refreshes;
    assert refreshes + [] == refreshes;
    if runs { RefreshBegun(refreshes, TallyOf(s.ledger.log).cycles); }
  }

  lemma CalledInv(o: Options, s: State, call: Call)
    requires Inv(o, s)
    ensures Inv(o, Called(s, call))
  {
  }

  lemma FailureInv(o: Options, s: State, failure: Failure, delay: real)
    requires Inv(o, s) && Sensible(o)
    ensures Inv(o, ConnectionFailed(o, s, failure, delay))
  {
    match failure
    case UnrecoverableFailure => DisconnectInv(o, s, UnrecoverableHttp, ByError, None);
    case CertificateFailure(refreshable) => RecoverInv(o, s, refreshable);
    case OtherFailure => RetryInv(o, s, ConnectionError, ByError, None, delay);
  }

  lemma SocketClosedInv(o: Options, s: State, socket: nat, code: int, delay: real)
    requires Inv(o, s) && Sensible(o)
    ensures Inv(o, SocketClosed(o, s, socket, code, delay))
  {
    var t := Called(s, OnClose(socket));
    CalledInv(o, s, OnClose(socket));
    if code in UNRECOVERABLE_CODES {
      DisconnectInv(o, t, UnrecoverableClose, ByUnrecoverableClose, Some(code));
    } else if code in NORMAL_CODES {
      DisconnectInv(o, t, NormalClose, ByNormalClose, Some(code));
    } else {
      RetryInv(o, t, UnexpectedClose, ByUnexpectedClose, Some(code), delay);
    }
  }

  lemma LandedInv(o: Options, s: State, attempt: nat)
    requires Inv(o, s)
    ensures Inv(o, Landed(s, attempt))
  {
  }

  lemma ReturnedInv(o: Options, s: State, attempt: nat)
    requires Inv(o, s) && attempt in s.world.inFlight
    ensures Inv(o, FactoryReturned(s, attempt))
  {
    LandedInv(o, s, attempt);
    ReturnedSockets(s, attempt);
  }

  lemma ReturnedSockets(s: State, attempt: nat)
    requires SocketsFit(s) && attempt in s.world.inFlight
    ensures SocketsFit(FactoryReturned(s, attempt))
  {
  }

  lemma OpenedInv(o: Options, s: State, socket: nat)
    requires Inv(o, s) && s.current == Some(socket)
    ensures Inv(o, SocketOpened(o, s, socket))
  {
    if Allows(s.st, OPEN) {
      var l := Logged(s.ledger, Transitioned(s.st, Connected, SocketOpen));
      TransitionBalanced(s.ledger, s.st, Connected, SocketOpen);
      OpenBalanced(l, Connected);
      NextCycle(s.world.refreshes, TallyOf(s.ledger.log).cycles);
    }
  }

  lemma RecoveryEndedInv(o: Options, s: State, i: nat, ok: bool)
    requires Inv(o, s) && i < |s.world.recoveries|
    ensures Inv(o, RecoveryEnded(o, s, i, ok))
  {
    var t := s.(world := s.world.(recoveries := s.world.recoveries[..i] + s.world.recoveries[i + 1..]));
    ReconnectInv(o, t, CertificateRefresh);
    DisconnectInv(o, t, CertificateError, ByError, None);
  }

  lemma CloseInv(o: Options, s: State, code: Option<int>)
    requires Inv(o, s)
    ensures Inv(o, Close(s, code))
  {
    if s.current.Some? {
      CalledInv(o, s, OnClose(s.current.value));
      DisposeInv(o, Called(s, OnClose(s.current.value)), code);
    }
    DisposeInv(o, s, code);
  }

  lemma SocketStepInv(o: Options, s: State, e: Event)
    requires Inv(o, s) && Sensible(o) && (e.SocketOpens? || e.SocketMessage? || e.SocketError? || e.SocketCloses?)
    ensures Inv(o, SocketStep(o, s, e))
  {
    if s.current == Some(e.socket) {
      match e
      case SocketOpens(socket) => OpenedInv(o, s, socket);
      case SocketMessage(socket) => CalledInv(o, s, OnMessage(socket));
      case SocketError(socket, failure, u) =>
        CalledInv(o, s, OnError(socket));
        FailureInv(o, Called(s, OnError(socket)), failure, Delay(o, s.backoff, u));
      case SocketCloses(socket, wsCode, u) => SocketClosedInv(o, s, socket, wsCode, Delay(o, s.backoff, u));
    }
  }

  lemma StepInv(o: Options, s: State, e: Event)
    requires Inv(o, s) && Sensible(o)
    ensures Inv(o, Step(o, s, e))
  {
    if Possible(s, e) {
      match e
      case Create => ConnectInv(o, s, InitialConnect);
      case Reconnect => ReconnectInv(o, s, ManualReconnect);
      case Disconnect(code) => DisconnectInv(o, s, ManualDisconnect, ByUser, code);
      case CloseRequested(code) => CloseInv(o, s, code);
      case Returned(attempt) => ReturnedInv(o, s, attempt);
      case Failed(attempt, failure, u) =>
        LandedInv(o, s, attempt);
        FailureInv(o, Landed(s, attempt), failure, Delay(o, s.backoff, u));
      case TimerFires => ConnectInv(o, s.(timer := false), ScheduledReconnect);
      case RecoveryEnds(i, ok) => RecoveryEndedInv(o, s, i, ok);
      case _ => SocketStepInv(o, s, e);
    }
  }

  lemma {:induction false} RunInv(o: Options, s: State, events: seq<Event>)
    requires Inv(o, s) && Sensible(o)
    ensures Inv(o, Run(o, s, events))
    decreases |events|
  {
    if events != [] {
      StepInv(o, s, events[0]);
      RunInv(o, Step(o, s, events[0]), events[1..]);
    }
  }

  // ----- while create is pending -----

  lemma ConnectCreates(s: State, reason: Reason)
    requires !s.st.Disposed? && (s.world.next == 0 ==> SocketsFit(s) && s.world.recoveries == [])
    ensures CreateFits(Connect(s, reason))
  {
  }

  lemma DisconnectCreates(s: State, reason: Reason, cause: Cause, code: Option<int>)
    requires CreateFits(s) && s.world.next > 0 && !CreatePending(s)
    ensures CreateFits(DisconnectFor(s, reason, cause, code))
  {
    if Allows(s.st, DISCONNECT) { LeaveWorld(s, DISCONNECT, reason, cause, code); }
  }

  lemma LeaveWorld(s: State, action: Action, reason: Reason, cause: Cause, code: Option<int>)
    ensures var t := Leave(s, action, reason, cause, code);
            t.world == CloseSocket(s.world, s.current) && t.current == None && t.st == ReduceState(s.st, action)
  {
    var t := Dispatch(s, action, reason);
    assert t.world == s.world && t.current == s.current && t.st == ReduceState(s.st, action);
  }

  lemma CloseCreates(s: State, code: Option<int>)
    requires CreateFits(s) && Available(s)
    ensures CreateFits(Close(s, code))
  {
    var t := if s.current.None? then s else Called(s, OnClose(s.current.value));
    if !s.st.Disposed? { LeaveWorld(t, DISPOSE, Dispose, ByDispose, code); }
  }

  lemma FailureCreates(o: Options, s: State, failure: Failure, delay: real)
    requires CreateFits(s) && s.world.next > 0 && !CreatePending(s)
    requires s.world.handed == {} && s.world.next == 1 ==> s.st.Connecting?
    ensures CreateFits(ConnectionFailed(o, s, failure, delay))
  {
    match failure
    case UnrecoverableFailure => DisconnectCreates(s, UnrecoverableHttp, ByError, None);
    case CertificateFailure(refreshable) =>
    case OtherFailure =>
  }

  lemma SocketClosedCreates(o: Options, s: State, socket: nat, code: int, delay: real)
    requires CreateFits(s) && s.world.next > 0 && s.world.handed != {}
    ensures CreateFits(SocketClosed(o, s, socket, code, delay))
  {
    var t := Called(s, OnClose(socket));
    DisconnectCreates(t, UnrecoverableClose, ByUnrecoverableClose, Some(code));
    DisconnectCreates(t, NormalClose, ByNormalClose, Some(code));
  }

  lemma SocketStepCreates(o: Options, s: State, e: Event)
    requires Inv(o, s) && CreateFits(s) && (e.SocketOpens? || e.SocketMessage? || e.SocketError? || e.SocketCloses?)
    ensures CreateFits(SocketStep(o, s, e))
  {
    if s.current == Some(e.socket) {
      match e
      case SocketOpens(_) | SocketMessage(_) =>
      case SocketError(socket, failure, u) =>
        FailureCreates(o, Called(s, OnError(socket)), failure, Delay(o, s.backoff, u));
      case SocketCloses(socket, wsCode, u) => SocketClosedCreates(o, s, socket, wsCode, Delay(o, s.backoff, u));
    }
  }

  lemma FailedCreates(o: Options, s: State, attempt: nat, failure: Failure, delay: real)
    requires Inv(o, s) && CreateFits(s) && attempt in s.world.inFlight
    ensures CreateFits(FactoryFailed(o, s, attempt, failure, delay))
  {
    var t := Landed(s, attempt);
    if s.world.next == 1 && s.world.handed == {} {
      assert attempt == 0 && t.world.inFlight == {};
    }
    FailureCreates(o, t, failure, delay);
  }

  lemma RecoveryEndedCreates(o: Options, s: State, i: nat, ok: bool)
    requires CreateFits(s) && i < |s.world.recoveries|
    ensures CreateFits(RecoveryEnded(o, s, i, ok))
  {
    var t := s.(world := s.world.(recoveries := s.world.recoveries[..i] + s.world.recoveries[i + 1..]));
    if !s.st.Disposed? { ConnectCreates(Resume(o, t, CertificateRefresh), CertificateRefresh); }
    DisconnectCreates(t, CertificateError, ByError, None);
  }

  lemma StepCreateFits(o: Options, s: State, e: Event)
    requires Inv(o, s) && CreateFits(s)
    ensures CreateFits(Step(o, s, e))
  {
    if Possible(s, e) {
      match e
      case Create => ConnectCreates(s, InitialConnect);
      case Reconnect => if !s.st.Disposed? { ConnectCreates(Resume(o, s, ManualReconnect), ManualReconnect); }
      case Disconnect(code) => DisconnectCreates(s, ManualDisconnect, ByUser, code);
      case CloseRequested(code) => CloseCreates(s, code);
      case Returned(attempt) =>
      case Failed(attempt, failure, u) => FailedCreates(o, s, attempt, failure, Delay(o, s.backoff, u));
      case TimerFires => ConnectCreates(s.(timer := false), ScheduledReconnect);
      case RecoveryEnds(i, ok) => RecoveryEndedCreates(o, s, i, ok);
      case _ => SocketStepCreates(o, s, e);
    }
  }

  lemma {:induction false} RunCreateFits(o: Options, s: State, events: seq<Event>)
    requires Inv(o, s) && CreateFits(s) && Sensible(o)
    ensures CreateFits(Run(o, s, events))
    decreases |events|
  {
    if events != [] {
      StepInv(o, s, events[0]);
      StepCreateFits(o, s, events[0]);
      RunCreateFits(o, Step(o, s, events[0]), events[1..]);
    }
  }
}
