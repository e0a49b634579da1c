/**
 * The deployment session (src/deployment/deploymentManager.ts and sessionStore.ts) as a state
 * machine whose steps are the stretches between two awaits. Verifications, token updates and
 * OAuth set-ups may be pending in any number and finish in any order.
 */
module DeploymentProtocol {
  import opened Basics

  datatype Deployment = Deployment(url: string, safeHostname: string)

  datatype User = User(id: string, isOwner: bool)

  datatype SessionData =
    | SignedOut(deployment: Option<Deployment>)
    | SignedIn(current: Deployment, user: User)

  /** What the live client sends with. */
  datatype Client = Client(host: Option<string>, token: Option<string>)

  /**
   * A call suspended at an await. `before` and `ref` identify the session object it read: the
   * number of transitions made when it was current. `recovery` marks the recovery loop's call.
   */
  datatype Op =
    | Applying(before: nat, deployment: Deployment, token: Option<string>, recovery: bool)
    | Updating(before: nat, deployment: Deployment, newToken: string)
    | SettingUp(ref: nat, deployment: Deployment, recovery: bool)

  /**
   * `transitions` counts the session objects made; as every transition makes a new one, equal
   * counts mean the same object. `signer` is the call that signed the session in last, and
   * `writer` the one that last stored a deployment.
   */
  datatype State = State(
    session: SessionData,
    transitions: nat,
    signer: nat,
    disposed: bool,
    listener: Option<string>,
    recoveryRunning: bool,
    recoveryPending: bool,
    client: Client,
    authenticatedContext: bool,
    ownerContext: bool,
    stored: Option<Deployment>,
    writer: nat,
    ops: map<nat, Op>,
    next: nat)

  const NO_CREDENTIALS := Client(None, None)

  /** At activation the live client may still hold the credentials of the last session. */
  function Initial(client: Client, stored: Option<Deployment>): State {
    State(SignedOut(None), 0, 0, false, None, false, false, client, false, false, stored, 0, map[], 0)
  }

  function DeploymentOf(data: SessionData): Option<Deployment> {
    if data.SignedOut? then data.deployment else Some(data.current)
  }

  function HostOf(data: SessionData): Option<string> {
    if DeploymentOf(data).None? then None else Some(DeploymentOf(data).value.safeHostname)
  }

  // ----- the methods up to their first await -----

  function Begin(s: State, op: Op): State {
    s.(ops := s.ops[s.next := op], next := s.next + 1)
  }

  function Drop(s: State, k: nat): State {
    s.(ops := s.ops - {k})
  }

  function Apply(s: State, d: Deployment, token: Option<string>, recovery: bool): State {
    Begin(s, Applying(s.transitions, d, token, recovery))
  }

  /** `setDeployment` up to the OAuth set-up; call `k` is then suspended there. */
  function SignIn(s: State, k: nat, d: Deployment, token: Option<string>, user: User, recovery: bool): State {
    s.(client := if token.None? then s.client.(host := Some(d.url)) else Client(Some(d.url), token),
       session := SignedIn(d, user), transitions := s.transitions + 1, signer := k,
       listener := Some(d.safeHostname),
       authenticatedContext := true, ownerContext := user.isOwner,
       ops := s.ops[k := SettingUp(s.transitions + 1, d, recovery)])
  }

  /** `setDeployment` called directly, after a login. */
  function LogIn(s: State, d: Deployment, token: Option<string>, user: User): State {
    SignIn(s.(next := s.next + 1), s.next, d, token, user, false)
  }

  function SignOut(s: State, kept: Option<Deployment>): State {
    s.(session := SignedOut(kept), transitions := s.transitions + 1,
       client := NO_CREDENTIALS, authenticatedContext := false, ownerContext := false)
  }

  function Clear(s: State): State {
    SignOut(s, None).(listener := None, stored := None)
  }

  function Suspend(s: State): State {
    SignOut(s, DeploymentOf(s.session))
  }

  /** The auth listener hears that the credentials of a host were set or removed. */
  function AuthChanged(s: State, host: string, auth: Option<(string, string)>): State {
    if s.listener != Some(host) || HostOf(s.session) != Some(host) then s
    else if auth.None? then Clear(s)
    else
      var d := Deployment(auth.value.0, host);
      if s.session.SignedIn? then Begin(s, Updating(s.transitions, d, auth.value.1))
      else Apply(s, d, Some(auth.value.1), false)
  }

  function CrossWindow(s: State, d: Option<Deployment>): State {
    if s.disposed || s.session.SignedIn? || d.None? then s else Apply(s, d.value, None, false)
  }

  /** One pass of the recovery loop, up to its await; without an await the loop is left. */
  function RecoveryPass(s: State): State {
    var t := s.(recoveryPending := false);
    if s.disposed || DeploymentOf(s.session).None? || s.session.SignedIn? then t.(recoveryRunning := false)
    else Apply(t, DeploymentOf(s.session).value, None, true)
  }

  function AuthConfigChanged(s: State): State {
    if s.disposed then s
    else if s.recoveryRunning then s.(recoveryPending := true)
    else RecoveryPass(s.(recoveryRunning := true))
  }

  /** The recovery's call has settled: the loop goes round once more if a change came meanwhile. */
  function RecoverySettled(s: State): State {
    if s.recoveryPending then RecoveryPass(s) else s.(recoveryRunning := false)
  }

  function Settled(s: State, k: nat, recovery: bool): State {
    if recovery then RecoverySettled(Drop(s, k)) else Drop(s, k)
  }

  // ----- what resumes after an await -----

  predicate Moved(s: State, before: nat) {
    s.disposed || s.session.SignedIn? || s.transitions != before
  }

  /** The credentials of an apply were checked: `user` is who they are, or `None` if rejected. */
  function Applied(s: State, k: nat, op: Op, secret: Option<string>, user: Option<User>): State
    requires op.Applying?
  {
    if user.None? || Moved(s, op.before) then Settled(s, k, op.recovery)
    else SignIn(s, k, op.deployment, if op.token.Some? then op.token else secret, user.value, op.recovery)
  }

  function Updated(s: State, k: nat, op: Op, user: Option<User>): State
    requires op.Updating?
  {
    if user.None? || s.disposed then Drop(s, k)
    else if s.transitions == op.before then
      if s.session.SignedIn? && s.session.user.id == user.value.id
      then Drop(s, k).(client := Client(Some(op.deployment.url), Some(op.newToken)))
      else SignIn(s, k, op.deployment, Some(op.newToken), user.value, false)
    else if s.session.SignedOut? && HostOf(s.session) == Some(op.deployment.safeHostname)
    then SignIn(s, k, op.deployment, Some(op.newToken), user.value, false)
    else Drop(s, k)
  }

  /** Only the current session's deployment is stored, and only if OAuth could be set up. */
  function Remember(s: State, k: nat, op: Op, ok: bool): State
    requires op.SettingUp?
  {
    if ok && s.transitions == op.ref then s.(stored := Some(op.deployment), writer := k) else s
  }

  /** OAuth is set up, or failed. */
  function SetUp(s: State, k: nat, op: Op, ok: bool): State
    requires op.SettingUp?
  {
    Settled(Remember(s, k, op, ok), k, op.recovery)
  }

  // ----- steps and runs -----

  datatype Event =
    | Login(d: Deployment, token: Option<string>, user: User)
    | Verify(d: Deployment, token: Option<string>)
    | Logout
    | SuspendSession
    | DisposeManager
    | AuthEvent(host: string, auth: Option<(string, string)>)
    | OtherWindow(other: Option<Deployment>)
    | ConfigEvent
    | Checked(k: nat, secret: Option<string>, who: Option<User>)
    | OAuthReady(k: nat, ok: bool)

  function CheckEnds(s: State, k: nat, secret: Option<string>, who: Option<User>): State {
    if k !in s.ops || s.ops[k].SettingUp? then s
    else if s.ops[k].Applying? then Applied(s, k, s.ops[k], secret, who)
    else Updated(s, k, s.ops[k], who)
  }

  function SetUpEnds(s: State, k: nat, ok: bool): State {
    if k in s.ops && s.ops[k].SettingUp? then SetUp(s, k, s.ops[k], ok) else s
  }

  function Step(s: State, e: Event): State {
    match e
    case Login(d, token, user) => LogIn(s, d, token, user)
    case Verify(d, token) => Apply(s, d, token, false)
    case Logout => Clear(s)
    case SuspendSession => Suspend(s)
    case DisposeManager => s.(disposed := true, listener := None)
    case AuthEvent(host, auth) => AuthChanged(s, host, auth)
    case OtherWindow(other) => CrossWindow(s, other)
    case ConfigEvent => AuthConfigChanged(s)
    case Checked(k, secret, who) => CheckEnds(s, k, secret, who)
    case OAuthReady(k, ok) => SetUpEnds(s, k, ok)
  }

  function Run(s: State, events: seq<Event>): State
    decreases |events|
  {
    if events == [] then s else Run(Step(s, events[0]), events[1..])
  }

  /** The recovery loop and the ends of calls touch nothing but the loop's flags and the pending calls. */
  predicate Quiet(s: State, t: State) {
    t == s.(recoveryRunning := t.recoveryRunning, recoveryPending := t.recoveryPending, ops := t.ops, next := t.next)
  }

  lemma RecoveryPassQuiet(s: State)
    ensures Quiet(s, RecoveryPass(s))
  {
  }

  lemma SettledQuiet(s: State, k: nat, recovery: bool)
    ensures Quiet(s, Settled(s, k, recovery))
  {
    if recovery { RecoveryPassQuiet(Drop(s, k)); }
  }

  // ----- contexts and credentials -----

  /** The contexts show the session, and a session that was signed out left no credentials. */
  predicate Shown(s: State) {
    && (s.authenticatedContext <==> s.session.SignedIn?)
    && (s.ownerContext <==> s.session.SignedIn? && s.session.user.isOwner)
    && (s.session.SignedIn? ==> s.client.host.Some? && s.transitions > 0)
    && (s.session.SignedOut? && s.transitions > 0 ==> s.client == NO_CREDENTIALS)
  }

  lemma AppliedShown(s: State, k: nat, op: Op, secret: Option<string>, user: Option<User>)
    requires Shown(s) && op.Applying?
    ensures Shown(Applied(s, k, op, secret, user))
  {
    SettledQuiet(s, k, op.recovery);
  }

  lemma UpdatedShown(s: State, k: nat, op: Op, user: Option<User>)
    requires Shown(s) && op.Updating?
    ensures Shown(Updated(s, k, op, user))
  {
  }

  lemma CheckEndsShown(s: State, k: nat, secret: Option<string>, who: Option<User>)
    requires Shown(s)
    ensures Shown(CheckEnds(s, k, secret, who))
  {
    if k in s.ops && s.ops[k].Applying? { AppliedShown(s, k, s.ops[k], secret, who); }
    if k in s.ops && s.ops[k].Updating? { UpdatedShown(s, k, s.ops[k], who); }
  }

  lemma SetUpShown(s: State, k: nat, ok: bool)
    requires Shown(s)
    ensures Shown(SetUpEnds(s, k, ok))
  {
    if k in s.ops && s.ops[k].SettingUp? { SettledQuiet(Remember(s, k, s.ops[k], ok), k, s.ops[k].recovery); }
  }

  lemma ConfigQuiet(s: State)
    ensures Quiet(s, AuthConfigChanged(s))
  {
    if !s.disposed && !s.recoveryRunning { RecoveryPassQuiet(s.(recoveryRunning := true)); }
  }

  lemma StepShown(s: State, e: Event)
    requires Shown(s)
    ensures Shown(Step(s, e))
  {
    match e
    case Checked(k, secret, who) => CheckEndsShown(s, k, secret, who);
    case OAuthReady(k, ok) => SetUpShown(s, k, ok);
    case ConfigEvent => ConfigQuiet(s);
    case _ =>
  }

  lemma {:induction false} RunShown(s: State, events: seq<Event>)
    requires Shown(s)
    ensures Shown(Run(s, events))
    decreases |events|
  {
    if events != [] {
      StepShown(s, events[0]);
      RunShown(Step(s, events[0]), events[1..]);
    }
  }

  /** From activation on, whatever happens in whatever order. */
  lemma ContextFollowsSession(client: Client, stored: Option<Deployment>, events: seq<Event>)
    ensures var t := Run(Initial(client, stored), events);
            && (t.authenticatedContext <==> t.session.SignedIn?)
            && (t.session.SignedOut? && t.transitions > 0 ==> t.client == NO_CREDENTIALS)
  {
    RunShown(Initial(client, stored), events);
  }

  // ----- a verification signs in only if nothing moved -----

  predicate Counts(s: State, t: State) {
    && s.transitions <= t.transitions
    && (s.transitions == t.transitions ==> t.session == s.session && t.signer == s.signer)
  }

  lemma AppliedCounts(s: State, k: nat, op: Op, secret: Option<string>, user: Option<User>)
    requires op.Applying?
    ensures Counts(s, Applied(s, k, op, secret, user))
  {
    SettledQuiet(s, k, op.recovery);
  }

  lemma UpdatedCounts(s: State, k: nat, op: Op, user: Option<User>)
    requires op.Updating?
    ensures Counts(s, Updated(s, k, op, user))
  {
  }

  lemma CheckedCounts(s: State, k: nat, secret: Option<string>, user: Option<User>)
    ensures Counts(s, CheckEnds(s, k, secret, user))
  {
    if k in s.ops && s.ops[k].Applying? { AppliedCounts(s, k, s.ops[k], secret, user); }
    if k in s.ops && s.ops[k].Updating? { UpdatedCounts(s, k, s.ops[k], user); }
  }

  lemma SetUpCounts(s: State, k: nat, ok: bool)
    ensures Counts(s, SetUpEnds(s, k, ok))
  {
    if k in s.ops && s.ops[k].SettingUp? { SettledQuiet(Remember(s, k, s.ops[k], ok), k, s.ops[k].recovery); }
  }

  /** A session is replaced by a transition only, and a transition is counted. */
  lemma StepCounts(s: State, e: Event)
    ensures Counts(s, Step(s, e))
  {
    match e
    case Checked(k, secret, who) => CheckedCounts(s, k, secret, who);
    case OAuthReady(k, ok) => SetUpCounts(s, k, ok);
    case ConfigEvent => ConfigQuiet(s);
    case _ =>
  }

  lemma {:induction false} RunCounts(s: State, events: seq<Event>)
    ensures s.transitions <= Run(s, events).transitions
    ensures s.transitions == Run(s, events).transitions ==> Run(s, events).session == s.session
    decreases |events|
  {
    if events != [] {
      StepCounts(s, events[0]);
      RunCounts(Step(s, events[0]), events[1..]);
    }
  }

  lemma {:induction false} RunAppend(s: State, a: seq<Event>, b: seq<Event>)
    ensures Run(s, a + b) == Run(Run(s, a), b)
    decreases |a|
  {
    if a == [] {
      assert a + b == b;
    } else {
      assert (a + b)[1..] == a[1..] + b && (a + b)[0] == a[0];
      RunAppend(Step(s, a[0]), a[1..], b);
    }
  }

  /**
   * A verification that began in `s` and ends after `events` signs in exactly if it succeeds,
   * nothing is disposed, and no session transition happened at any point in between.
   */
  lemma SignsInOnlyUnmoved(s: State, events: seq<Event>, k: nat, secret: Option<string>, user: User)
    requires var t := Run(s, events); k in t.ops && t.ops[k].Applying? && t.ops[k].before == s.transitions
    requires s.session.SignedOut?
    ensures !Run(s, events).session.SignedIn? && Step(Run(s, events), Checked(k, secret, Some(user))).session.SignedIn?
       <==> !Run(s, events).disposed && forall n :: 0 <= n <= |events| ==> Run(s, events[..n]).transitions == s.transitions
  {
    var t := Run(s, events);
    RunCounts(s, events);
    assert events[..|events|] == events;
    forall n | 0 <= n <= |events| && t.transitions == s.transitions
      ensures Run(s, events[..n]).transitions == s.transitions
    {
      assert events == events[..n] + events[n..];
      RunAppend(s, events[..n], events[n..]);
      RunCounts(s, events[..n]);
      RunCounts(Run(s, events[..n]), events[n..]);
    }
    SettledKeepsSession(Step(t, Checked(k, secret, Some(user))), t, k, secret, user);
  }

  lemma SettledKeepsSession(u: State, t: State, k: nat, secret: Option<string>, user: User)
    requires k in t.ops && t.ops[k].Applying? && u == Step(t, Checked(k, secret, Some(user)))
    ensures Moved(t, t.ops[k].before) ==> u.session == t.session
    ensures !Moved(t, t.ops[k].before) ==> u.session.SignedIn?
  {
  }
}
