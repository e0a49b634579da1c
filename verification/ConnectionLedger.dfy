/** The telemetry of one reconnecting connection (src/instrumentation/websocket.ts), timestamps left out. */
module ConnectionLedger {
  import opened Basics

  datatype Connection = Idle | Connecting | Connected | AwaitingRetry | Disconnected | Disposed

  datatype Reason =
    InitialConnect | ManualReconnect | CertificateRefresh | ScheduledReconnect | SocketOpen | ManualDisconnect
    | Dispose | UnrecoverableClose | UnrecoverableHttp | CertificateError | ConnectionError | NormalClose | UnexpectedClose

  datatype Cause = ByUser | Replaced | ByUnrecoverableClose | ByNormalClose | ByUnexpectedClose | ByDispose | ByError

  datatype Report =
    | Transitioned(from: Connection, to: Connection, reason: Reason)
    | Opened
    | Dropped(cause: Cause, code: Option<int>)
    | ReconnectResolved(reason: Reason, termination: Option<Reason>, attempts: nat, maxBackoff: real)

  datatype Cycle = Cycle(reason: Reason, attempts: nat, maxBackoff: real)

  /**
   * `open` says that a connection was reported opened and not yet dropped. `started` counts
   * the reconnect cycles begun, `discarded` what `reset` threw away unreported, and `longest`
   * is the longest delay any retry was reported with.
   */
  datatype Ledger = Ledger(
    open: bool, cycle: Option<Cycle>, log: seq<Report>, started: nat, discarded: nat, longest: real)

  const EMPTY_LEDGER := Ledger(false, None, [], 0, 0, 0.0)

  // ----- what each method does to the ledger -----

  function Logged(l: Ledger, r: Report): Ledger {
    l.(log := l.log + [r])
  }

  function ConnectStarted(l: Ledger): Ledger {
    if l.cycle.None? then l else l.(cycle := Some(l.cycle.value.(attempts := l.cycle.value.attempts + 1)))
  }

  function Resolution(c: Cycle, termination: Option<Reason>): Report {
    ReconnectResolved(c.reason, termination, c.attempts, c.maxBackoff)
  }

  function FinishReconnect(l: Ledger, termination: Option<Reason>): Ledger {
    if l.cycle.None? then l
    else Logged(l, Resolution(l.cycle.value, termination)).(cycle := None)
  }

  function Open(l: Ledger): Ledger {
    FinishReconnect(Logged(l, Opened).(open := true), None)
  }

  function Drop(l: Ledger, cause: Cause, code: Option<int>): Ledger {
    if !l.open then l else Logged(l, Dropped(cause, code)).(open := false)
  }

  function ReconnectStarted(l: Ledger, reason: Reason): (t: Ledger)
    ensures t.cycle.Some?
  {
    if l.cycle.Some? then l else l.(cycle := Some(Cycle(reason, 0, 0.0)), started := l.started + 1)
  }

  /** The open cycle remembers the longest delay. */
  function Delayed(l: Ledger, delay: real): Ledger
    requires l.cycle.Some?
  {
    var cycle := l.cycle.value;
    l.(cycle := Some(cycle.(maxBackoff := Larger(cycle.maxBackoff, delay))), longest := Larger(l.longest, delay))
  }

  function Terminated(l: Ledger, reason: Reason, cause: Cause, code: Option<int>): Ledger {
    FinishReconnect(Drop(l, cause, code), Some(reason))
  }

  function Retrying(l: Ledger, reason: Reason, cause: Cause, code: Option<int>, delay: real): Ledger {
    Delayed(ReconnectStarted(Drop(l, cause, code), reason), delay)
  }

  function Reset(l: Ledger): Ledger {
    l.(open := false, cycle := None,
       discarded := l.discarded + (if l.open then 1 else 0) + (if l.cycle.Some? then 1 else 0))
  }

  /** A reset forgets what is open, and what it forgets counts as discarded. */
  lemma ResetForgetsAll(l: Ledger)
    ensures var t := Reset(l);
            && !t.open && t.cycle.None? && t.log == l.log
            && (t.discarded == l.discarded <==> !l.open && l.cycle.None?) && t.discarded >= l.discarded
  {
  }

  // ----- reading a log back -----

  /**
   * What a reader of the log knows after it: the connection state and whether a connection is
   * open. `None` when the log contradicts itself: a transition that does not start where the
   * last one ended, an opening while open, a drop while nothing is open.
   */
  function Replay(log: seq<Report>): Option<(Connection, bool)> {
    if log == [] then Some((Idle, false))
    else
      var before := Replay(log[..|log| - 1]);
      if before.None? then None
      else
        var (st, open) := before.value;
        match log[|log| - 1]
        case Transitioned(from, to, reason) => if st == from && from != to then Some((to, open)) else None
        case Opened => if open then None else Some((st, true))
        case Dropped(cause, code) => if open then Some((st, false)) else None
        case ReconnectResolved(_, _, _, _) => before
  }

  /**
   * What a reader counts: the retries scheduled since the last opening or resume, the openings
   * and resumes, the cycles resolved, and the longest delay they report. A resume is the
   * transition from DISCONNECTED to CONNECTING.
   */
  datatype Tally = Tally(retries: nat, cycles: nat, resolved: nat, longest: real)

  function Count(t: Tally, r: Report): Tally {
    match r
    case Opened => t.(retries := 0, cycles := t.cycles + 1)
    case Transitioned(from, to, _) =>
      if from.Disconnected? && to.Connecting? then t.(retries := 0, cycles := t.cycles + 1)
      else if to.AwaitingRetry? then t.(retries := t.retries + 1)
      else t
    case Dropped(_, _) => t
    case ReconnectResolved(_, _, _, maxBackoff) =>
      t.(resolved := t.resolved + 1, longest := Larger(t.longest, maxBackoff))
  }

  function TallyOf(log: seq<Report>): (t: Tally)
    ensures t.longest >= 0.0
  {
    if log == [] then Tally(0, 0, 0, 0.0) else Count(TallyOf(log[..|log| - 1]), log[|log| - 1])
  }

  lemma TallySnoc(log: seq<Report>, r: Report)
    ensures TallyOf(log + [r]) == Count(TallyOf(log), r)
  {
    assert (log + [r])[..|log + [r]| - 1] == log;
  }

  lemma ReplaySnoc(log: seq<Report>, r: Report, st: Connection, open: bool)
    requires Replay(log) == Some((st, open))
    ensures r.ReconnectResolved? ==> Replay(log + [r]) == Some((st, open))
    ensures r.Opened? && !open ==> Replay(log + [r]) == Some((st, true))
    ensures r.Dropped? && open ==> Replay(log + [r]) == Some((st, false))
    ensures r.Transitioned? && r.from == st && r.to != st ==> Replay(log + [r]) == Some((r.to, open))
  {
    assert (log + [r])[..|log + [r]| - 1] == log;
  }

  /** No report claims a longer delay than the tally's. */
  lemma {:induction false} TallyCovers(log: seq<Report>, i: nat)
    requires i < |log| && log[i].ReconnectResolved?
    ensures log[i].maxBackoff <= TallyOf(log).longest
    decreases |log|
  {
    if i < |log| - 1 { TallyCovers(log[..|log| - 1], i); }
  }

  /** No connection comes to be open, or to be closed, without its report. */
  lemma {:induction false} OpenUntilDropped(log: seq<Report>, i: nat)
    requires i < |log| && Replay(log).Some? && (log[i].Opened? || log[i].Dropped?)
    requires forall m :: i < m < |log| ==> !log[m].Opened? && !log[m].Dropped?
    ensures Replay(log).value.1 == log[i].Opened?
    decreases |log|
  {
    if i < |log| - 1 { OpenUntilDropped(log[..|log| - 1], i); }
  }

  lemma {:induction false} ReplayPrefix(log: seq<Report>, n: nat)
    requires n <= |log| && Replay(log).Some?
    ensures Replay(log[..n]).Some?
    decreases |log| - n
  {
    if n < |log| {
      ReplayPrefix(log, n + 1);
      assert log[..n + 1][..n] == log[..n];
    } else {
      assert log[..n] == log;
    }
  }

  /**
   * In a log that reads back, openings and drops strictly alternate: between two of one kind
   * there is one of the other, and the first of them is an opening.
   */
  lemma Alternates(log: seq<Report>, i: nat, j: nat)
    requires Replay(log).Some? && i < j < |log|
    requires (log[i].Opened? && log[j].Opened?) || (log[i].Dropped? && log[j].Dropped?)
    ensures exists m :: i < m < j && (log[m].Opened? || log[m].Dropped?) && log[m].Opened? != log[i].Opened?
  {
    ReplayPrefix(log, j + 1);
    ReplayPrefix(log, j);
    assert log[..j + 1][..j] == log[..j];
    if forall m :: i < m < j ==> !log[m].Opened? && !log[m].Dropped? {
      OpenUntilDropped(log[..j], i);
      assert false;
    } else {
      var m :| i < m < j && (log[m].Opened? || log[m].Dropped?);
      if log[m].Opened? == log[i].Opened? { Alternates(log, i, m); }
    }
  }

  lemma {:induction false} OpensFirst(log: seq<Report>, j: nat)
    requires Replay(log).Some? && j < |log| && log[j].Dropped?
    ensures exists i :: 0 <= i < j && log[i].Opened?
  {
    ReplayPrefix(log, j + 1);
    assert log[..j + 1][..j] == log[..j];
    SomeOpening(log[..j]);
    var i :| 0 <= i < j && log[..j][i].Opened?;
    assert log[i].Opened?;
  }

  lemma {:induction false} SomeOpening(log: seq<Report>)
    requires Replay(log).Some? && Replay(log).value.1
    ensures exists i :: 0 <= i < |log| && log[i].Opened?
    decreases |log|
  {
    var last := log[|log| - 1];
    if !last.Opened? {
      SomeOpening(log[..|log| - 1]);
      var i :| 0 <= i < |log| - 1 && log[..|log| - 1][i].Opened?;
      assert log[i].Opened?;
    }
  }

  function OpenBackoff(l: Ledger): real {
    if l.cycle.Some? then l.cycle.value.maxBackoff else 0.0
  }

  /**
   * The log reads back as the present, every cycle begun is resolved or still open, and the
   * longest delay is the one reported or the open cycle's.
   */
  predicate Balanced(l: Ledger, st: Connection) {
    && Replay(l.log) == Some((st, l.open))
    && l.started == TallyOf(l.log).resolved + (if l.cycle.Some? then 1 else 0)
    && l.discarded == 0
    && OpenBackoff(l) >= 0.0
    && l.longest == Larger(TallyOf(l.log).longest, OpenBackoff(l))
  }

  predicate SameCounts(l: Ledger, t: Ledger) {
    TallyOf(t.log).retries == TallyOf(l.log).retries && TallyOf(t.log).cycles == TallyOf(l.log).cycles
  }

  lemma TransitionBalanced(l: Ledger, from: Connection, to: Connection, reason: Reason)
    requires Balanced(l, from) && from != to
    ensures var r := Transitioned(from, to, reason);
            Balanced(Logged(l, r), to) && TallyOf(Logged(l, r).log) == Count(TallyOf(l.log), r)
  {
    TallySnoc(l.log, Transitioned(from, to, reason));
    ReplaySnoc(l.log, Transitioned(from, to, reason), from, l.open);
  }

  lemma StartedBalanced(l: Ledger, st: Connection)
    requires Balanced(l, st)
    ensures Balanced(ConnectStarted(l), st) && ConnectStarted(l).log == l.log && ConnectStarted(l).open == l.open
  {
  }

  lemma FinishBalanced(l: Ledger, st: Connection, termination: Option<Reason>)
    requires Balanced(l, st)
    ensures Balanced(FinishReconnect(l, termination), st) && SameCounts(l, FinishReconnect(l, termination))
  {
    if l.cycle.Some? {
      ReplaySnoc(l.log, Resolution(l.cycle.value, termination), st, l.open);
      TallySnoc(l.log, Resolution(l.cycle.value, termination));
    }
  }

  lemma OpenBalanced(l: Ledger, st: Connection)
    requires Balanced(l, st) && !l.open
    ensures Balanced(Open(l), st)
    ensures TallyOf(Open(l).log).retries == 0 && TallyOf(Open(l).log).cycles == TallyOf(l.log).cycles + 1
  {
    TallySnoc(l.log, Opened);
    ReplaySnoc(l.log, Opened, st, false);
    FinishBalanced(Logged(l, Opened).(open := true), st, None);
  }

  lemma DropBalanced(l: Ledger, st: Connection, cause: Cause, code: Option<int>)
    requires Balanced(l, st)
    ensures Balanced(Drop(l, cause, code), st) && SameCounts(l, Drop(l, cause, code))
  {
    if l.open {
      ReplaySnoc(l.log, Dropped(cause, code), st, true);
      TallySnoc(l.log, Dropped(cause, code));
    }
  }

  lemma TerminatedBalanced(l: Ledger, st: Connection, reason: Reason, cause: Cause, code: Option<int>)
    requires Balanced(l, st)
    ensures var t := Terminated(l, reason, cause, code);
            Balanced(t, st) && !t.open && t.cycle.None? && Reset(t) == t && SameCounts(l, t)
  {
    DropBalanced(l, st, cause, code);
    FinishBalanced(Drop(l, cause, code), st, Some(reason));
  }

  lemma DelayedBalanced(l: Ledger, st: Connection, reason: Reason, delay: real)
    requires Balanced(l, st)
    ensures var t := Delayed(ReconnectStarted(l, reason), delay);
            Balanced(t, st) && t.log == l.log && t.open == l.open
  {
  }

  lemma RetryingBalanced(l: Ledger, st: Connection, reason: Reason, cause: Cause, code: Option<int>, delay: real)
    requires Balanced(l, st)
    ensures Balanced(Retrying(l, reason, cause, code, delay), st) && SameCounts(l, Retrying(l, reason, cause, code, delay))
    ensures !Retrying(l, reason, cause, code, delay).open
  {
    DropBalanced(l, st, cause, code);
    DelayedBalanced(Drop(l, cause, code), st, reason, delay);
  }

  // ----- the class -----

  /** The reporter the telemetry writes to. */
  class Reporter {
    var log: seq<Report>

    constructor ()
      ensures log == []
    {
      log := [];
    }

    method Log(r: Report)
      modifies this
      ensures log == old(log) + [r]
    {
      log := log + [r];
    }
  }

  class WebSocketTelemetry {
    const telemetry: Reporter
    var connectionOpen: bool
    var reconnectCycle: Option<Cycle>
    ghost var started: nat
    ghost var discarded: nat
    ghost var longest: real

    ghost function View(): Ledger
      reads this, telemetry
    {
      Ledger(connectionOpen, reconnectCycle, telemetry.log, started, discarded, longest)
    }

    constructor (telemetry: Reporter)
      ensures this.telemetry == telemetry && View() == Ledger(false, None, telemetry.log, 0, 0, 0.0)
    {
      this.telemetry := telemetry;
      connectionOpen, reconnectCycle, started, discarded, longest := false, None, 0, 0, 0.0;
    }

    method StateTransition(from: Connection, to: Connection, reason: Reason)
      modifies telemetry
      ensures View() == Logged(old(View()), Transitioned(from, to, reason))
    {
      telemetry.Log(Transitioned(from, to, reason));
    }

    method CountAttempt()
      modifies this
      ensures View() == ConnectStarted(old(View()))
    {
      if reconnectCycle.Some? {
        reconnectCycle := Some(reconnectCycle.value.(attempts := reconnectCycle.value.attempts + 1));
      }
    }

    method ReportOpened()
      modifies this, telemetry
      ensures View() == Open(old(View()))
    {
      connectionOpen := true;
      telemetry.Log(Opened);
      Finish(None);
    }

    method ReportDropped(cause: Cause, code: Option<int>)
      modifies this, telemetry
      ensures View() == Drop(old(View()), cause, code)
    {
      if !connectionOpen { return; }
      connectionOpen := false;
      telemetry.Log(Dropped(cause, code));
    }

    method StartCycle(reason: Reason)
      modifies this
      ensures View() == ReconnectStarted(old(View()), reason)
    {
      if reconnectCycle.Some? { return; }
      reconnectCycle := Some(Cycle(reason, 0, 0.0));
      started := started + 1;
    }

    method Finish(termination: Option<Reason>)
      modifies this, telemetry
      ensures View() == FinishReconnect(old(View()), termination)
    {
      if reconnectCycle.None? { return; }
      var cycle := reconnectCycle.value;
      reconnectCycle := None;
      telemetry.Log(ReconnectResolved(cycle.reason, termination, cycle.attempts, cycle.maxBackoff));
    }

    method ReportTerminated(reason: Reason, cause: Cause, code: Option<int>)
      modifies this, telemetry
      ensures View() == Terminated(old(View()), reason, cause, code)
    {
      ReportDropped(cause, code);
      Finish(Some(reason));
    }

    method ReportRetrying(reason: Reason, cause: Cause, code: Option<int>, backoffMs: real)
      modifies this, telemetry
      ensures View() == Retrying(old(View()), reason, cause, code, backoffMs)
    {
      ReportDropped(cause, code);
      StartCycle(reason);
      if reconnectCycle.Some? {
        var cycle := reconnectCycle.value;
        reconnectCycle := Some(cycle.(maxBackoff := Larger(cycle.maxBackoff, backoffMs)));
      }
      longest := Larger(longest, backoffMs);
    }

    method ResetAll()
      modifies this
      ensures View() == Reset(old(View()))
    {
      discarded := discarded + (if connectionOpen then 1 else 0) + (if reconnectCycle.Some? then 1 else 0);
      connectionOpen, reconnectCycle := false, None;
    }
  }
}
