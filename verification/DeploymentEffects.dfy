/**
 * What each event does to a deployment session, told apart from how: which events sign in,
 * rotate, suspend or forget, what the live client sends afterwards, which calls are begun, and
 * that no settings change is lost.
 */
module DeploymentEffects {
  import opened Basics
  import opened DeploymentProtocol
  import opened DeploymentTheorems

  datatype Effect =
    | SignsIn(d: Deployment, token: Option<string>, user: User)
    | Rotates(url: string, newToken: string)
    | Forgets
    | Suspends
    | Nothing

  /** The verification that a pending call awaited succeeded for `user`. */
  function EffectOfCheck(s: State, op: Op, secret: Option<string>, user: User): Effect {
    match op
    case Applying(before, d, token, _) =>
      if s.session.SignedOut? && s.transitions == before then SignsIn(d, if token.Some? then token else secret, user)
      else Nothing
    case Updating(before, d, newToken) =>
      if s.session.SignedIn? && s.transitions == before && s.session.user.id == user.id then Rotates(d.url, newToken)
      else if s.transitions == before || (s.session.SignedOut? && HostOf(s.session) == Some(d.safeHostname))
      then SignsIn(d, Some(newToken), user)
      else Nothing
    case SettingUp(_, _, _) => Nothing
  }

  predicate HeardOf(s: State, host: string) {
    s.listener == Some(host) && HostOf(s.session) == Some(host)
  }

  function EffectOf(s: State, e: Event): Effect {
    match e
    case Login(d, token, user) => SignsIn(d, token, user)
    case Logout => Forgets
    case SuspendSession => Suspends
    case AuthEvent(host, auth) => if HeardOf(s, host) && auth.None? then Forgets else Nothing
    case Checked(k, secret, who) =>
      if k in s.ops && !s.disposed && who.Some? then EffectOfCheck(s, s.ops[k], secret, who.value) else Nothing
    case _ => Nothing
  }

  // ----- session, credentials and contexts -----

  function SessionAfter(session: SessionData, f: Effect): SessionData {
    match f
    case SignsIn(d, _, user) => SignedIn(d, user)
    case Forgets => SignedOut(None)
    case Suspends => SignedOut(DeploymentOf(session))
    case _ => session
  }

  /** Signing in without a token keeps the token there was. */
  function ClientAfter(client: Client, f: Effect): Client {
    match f
    case SignsIn(d, token, _) => Client(Some(d.url), if token.Some? then token else client.token)
    case Rotates(url, newToken) => Client(Some(url), Some(newToken))
    case Nothing => client
    case _ => Client(None, None)
  }

  function ListenerAfter(listener: Option<string>, f: Effect): Option<string> {
    match f
    case SignsIn(d, _, _) => Some(d.safeHostname)
    case Forgets => None
    case _ => listener
  }

  predicate Transits(f: Effect) {
    f.SignsIn? || f.Forgets? || f.Suspends?
  }

  predicate Shows(s: State, t: State, f: Effect) {
    && t.session == SessionAfter(s.session, f)
    && t.client == ClientAfter(s.client, f)
    && t.transitions == s.transitions + (if Transits(f) then 1 else 0)
    && (if Transits(f) then t.authenticatedContext == f.SignsIn? && t.ownerContext == (f.SignsIn? && f.user.isOwner)
        else t.authenticatedContext == s.authenticatedContext && t.ownerContext == s.ownerContext)
  }

  lemma SettledShows(s: State, k: nat, recovery: bool)
    ensures Shows(s, Settled(s, k, recovery), Nothing) && Settled(s, k, recovery).listener == s.listener
  {
    SettledQuiet(s, k, recovery);
  }

  lemma CheckShows(s: State, k: nat, secret: Option<string>, who: Option<User>)
    ensures var f, t := EffectOf(s, Checked(k, secret, who)), CheckEnds(s, k, secret, who);
            Shows(s, t, f) && t.listener == ListenerAfter(s.listener, f) && t.disposed == s.disposed
  {
    if k in s.ops && s.ops[k].Applying? { ApplyShows(s, k, secret, who); }
    if k in s.ops && s.ops[k].Updating? { UpdateShows(s, k, secret, who); }
  }

  lemma ApplyShows(s: State, k: nat, secret: Option<string>, who: Option<User>)
    requires k in s.ops && s.ops[k].Applying?
    ensures var f, t := EffectOf(s, Checked(k, secret, who)), Applied(s, k, s.ops[k], secret, who);
            Shows(s, t, f) && t.listener == ListenerAfter(s.listener, f) && t.disposed == s.disposed
  {
    var f, op := EffectOf(s, Checked(k, secret, who)), s.ops[k];
    if f.SignsIn? { SignInShows(s, k, f.d, f.token, f.user, op.recovery); } else { SettledQuiet(s, k, op.recovery); }
  }

  lemma SignInShows(s: State, k: nat, d: Deployment, token: Option<string>, user: User, recovery: bool)
    ensures var f, t := SignsIn(d, token, user), SignIn(s, k, d, token, user, recovery);
            Shows(s, t, f) && t.listener == ListenerAfter(s.listener, f) && t.disposed == s.disposed
  {
  }

  lemma UpdateShows(s: State, k: nat, secret: Option<string>, who: Option<User>)
    requires k in s.ops && s.ops[k].Updating?
    ensures var f, t := EffectOf(s, Checked(k, secret, who)), Updated(s, k, s.ops[k], who);
            Shows(s, t, f) && t.listener == ListenerAfter(s.listener, f) && t.disposed == s.disposed
  {
    var f, op := EffectOf(s, Checked(k, secret, who)), s.ops[k];
    if f.SignsIn? {
      SignInShows(s, k, f.d, f.token, f.user, false);
    } else if f.Nothing? {
      assert Updated(s, k, op, who) == Drop(s, k);
    }
  }

  lemma SetUpShows(s: State, k: nat, ok: bool)
    ensures var t := SetUpEnds(s, k, ok); Shows(s, t, Nothing) && t.listener == s.listener && t.disposed == s.disposed
  {
    if k in s.ops && s.ops[k].SettingUp? { SettledQuiet(Remember(s, k, s.ops[k], ok), k, s.ops[k].recovery); }
  }

  /** Every event shows its effect and nothing else; a disposal only takes the listener away. */
  lemma StepShows(s: State, e: Event)
    ensures Shows(s, Step(s, e), EffectOf(s, e))
    ensures Step(s, e).listener == if e.DisposeManager? then None else ListenerAfter(s.listener, EffectOf(s, e))
    ensures Step(s, e).disposed == (s.disposed || e.DisposeManager?)
  {
    match e
    case Checked(k, secret, who) => CheckShows(s, k, secret, who);
    case OAuthReady(k, ok) => SetUpShows(s, k, ok);
    case ConfigEvent => ConfigQuiet(s);
    case Login(d, token, user) => LogInShows(s, d, token, user);
    case AuthEvent(host, auth) => AuthShows(s, host, auth);
    case _ => PlainShows(s, e);
  }

  lemma AuthShows(s: State, host: string, auth: Option<(string, string)>)
    ensures var f, t := EffectOf(s, AuthEvent(host, auth)), AuthChanged(s, host, auth);
            Shows(s, t, f) && t.listener == ListenerAfter(s.listener, f) && t.disposed == s.disposed
  {
    if HeardOf(s, host) && auth.None? {
      assert AuthChanged(s, host, auth) == Clear(s);
    } else {
      AuthOnlyBegins(s, host, auth);
    }
  }

  lemma AuthOnlyBegins(s: State, host: string, auth: Option<(string, string)>)
    requires !HeardOf(s, host) || auth.Some?
    ensures var t := AuthChanged(s, host, auth); t == s.(ops := t.ops, next := t.next)
  {
    if !HeardOf(s, host) {
      assert AuthChanged(s, host, auth) == s;
    } else {
      assert AuthChanged(s, host, auth) == Begin(s, BegunBy(s, AuthEvent(host, auth)).value);
    }
  }

  lemma PlainShows(s: State, e: Event)
    requires e.Verify? || e.Logout? || e.SuspendSession? || e.DisposeManager? || e.OtherWindow?
    ensures Shows(s, Step(s, e), EffectOf(s, e))
    ensures Step(s, e).listener == if e.DisposeManager? then None else ListenerAfter(s.listener, EffectOf(s, e))
    ensures Step(s, e).disposed == (s.disposed || e.DisposeManager?)
  {
  }

  lemma LogInShows(s: State, d: Deployment, token: Option<string>, user: User)
    ensures var f, t := SignsIn(d, token, user), LogIn(s, d, token, user);
            Shows(s, t, f) && t.listener == ListenerAfter(s.listener, f) && t.disposed == s.disposed
  {
  }

  /** The credentials as the effects of the events make them. */
  function Credentials(client: Client, s: State, events: seq<Event>): Client
    decreases |events|
  {
    if events == [] then client
    else Credentials(ClientAfter(client, EffectOf(s, events[0])), Step(s, events[0]), events[1..])
  }

  lemma {:induction false} CredentialsFollowEffects(s: State, events: seq<Event>)
    ensures Run(s, events).client == Credentials(s.client, s, events)
    decreases |events|
  {
    if events != [] {
      StepShows(s, events[0]);
      CredentialsFollowEffects(Step(s, events[0]), events[1..]);
    }
  }

  /** Event `n` of the run had an effect, and no later one did. */
  predicate LastEffect(s: State, events: seq<Event>, n: nat)
    requires n < |events|
  {
    && !EffectOf(Run(s, events[..n]), events[n]).Nothing?
    && forall m :: n < m < |events| ==> EffectOf(Run(s, events[..m]), events[m]).Nothing?
  }

  lemma RunLast(s: State, events: seq<Event>)
    requires events != []
    ensures var n := |events| - 1; Run(s, events) == Step(Run(s, events[..n]), events[n])
  {
    var n := |events| - 1;
    assert events == events[..n] + [events[n]];
    RunAppend(s, events[..n], [events[n]]);
    assert [events[n]][1..] == [];
  }

  /**
   * While a session is signed in, the live client has the host and the token of the last event
   * that signed in or rotated: a login, a verification that found the session unmoved, or a
   * token update; a login without a token left the token that was there.
   */
  lemma {:induction false} SignedInSendsLast(s: State, events: seq<Event>) returns (n: nat)
    requires s.session.SignedOut? && Run(s, events).session.SignedIn?
    ensures n < |events| && LastEffect(s, events, n)
    ensures var f := EffectOf(Run(s, events[..n]), events[n]);
            && (f.SignsIn? || f.Rotates?)
            && Run(s, events).client == ClientAfter(Run(s, events[..n]).client, f)
    decreases |events|
  {
    n := |events| - 1;
    var front := events[..n];
    var before := Run(s, front);
    RunLast(s, events);
    StepShows(before, events[n]);
    if EffectOf(before, events[n]).Nothing? {
      n := SignedInSendsLast(s, front);
      LastStays(s, events, n);
      assert front[..n] == events[..n];
    }
  }

  lemma LastStays(s: State, events: seq<Event>, n: nat)
    requires n < |events| - 1 && LastEffect(s, events[..|events| - 1], n)
    requires EffectOf(Run(s, events[..|events| - 1]), events[|events| - 1]).Nothing?
    ensures LastEffect(s, events, n)
  {
    var front := events[..|events| - 1];
    assert front[..n] == events[..n];
    forall m | n < m < |events| ensures EffectOf(Run(s, events[..m]), events[m]).Nothing? {
      if m < |front| { assert front[..m] == events[..m]; }
    }
  }

  /** A token update of the signed-in user gives the client the new token and touches nothing else of the session. */
  lemma RotationOnlyRotates(s: State, k: nat, secret: Option<string>, user: User)
    requires k in s.ops && s.ops[k].Updating? && !s.disposed && s.ops[k].before == s.transitions
    requires s.session.SignedIn? && s.session.user.id == user.id
    ensures var op := s.ops[k];
            Step(s, Checked(k, secret, Some(user)))
            == s.(client := Client(Some(op.deployment.url), Some(op.newToken)), ops := s.ops - {k})
  {
  }

  // ----- the stored deployment -----

  function StoredAfter(s: State, e: Event): Option<Deployment> {
    if EffectOf(s, e).Forgets? then None
    else if e.OAuthReady? && e.ok && e.k in s.ops && s.ops[e.k].SettingUp? && s.ops[e.k].ref == s.transitions
    then Some(s.ops[e.k].deployment)
    else s.stored
  }

  /** A deployment is stored when OAuth is set up for the session that is still current, and forgotten on logout. */
  lemma StepStores(s: State, e: Event)
    ensures Step(s, e).stored == StoredAfter(s, e)
  {
    match e
    case Checked(k, secret, who) => CheckStores(s, k, secret, who);
    case OAuthReady(k, ok) =>
      if k in s.ops && s.ops[k].SettingUp? { SettledQuiet(Remember(s, k, s.ops[k], ok), k, s.ops[k].recovery); }
    case ConfigEvent => ConfigQuiet(s);
    case _ =>
  }

  lemma CheckStores(s: State, k: nat, secret: Option<string>, who: Option<User>)
    ensures CheckEnds(s, k, secret, who).stored == s.stored && !EffectOf(s, Checked(k, secret, who)).Forgets?
  {
    if k in s.ops && s.ops[k].Applying? {
      SettledQuiet(s, k, s.ops[k].recovery);
    } else if k in s.ops && s.ops[k].Updating? {
      UpdateStores(s, k, s.ops[k], who);
    }
  }

  lemma UpdateStores(s: State, k: nat, op: Op, who: Option<User>)
    requires op.Updating?
    ensures Updated(s, k, op, who).stored == s.stored
  {
  }

  // ----- which calls are begun -----

  /** A suspended session that a recovery could sign in again. */
  predicate Recoverable(s: State) {
    !s.disposed && s.session.SignedOut? && s.session.deployment.Some?
  }

  function RecoveryCall(s: State): Option<Op> {
    if Recoverable(s) then Some(Applying(s.transitions, s.session.deployment.value, None, true)) else None
  }

  /** The end of this call sends the recovery loop round again. */
  predicate RecoveryGoesOn(s: State, e: Event) {
    && s.recoveryPending
    && ((e.Checked? && e.k in s.ops && s.ops[e.k].Applying? && s.ops[e.k].recovery && EffectOf(s, e).Nothing?)
        || (e.OAuthReady? && e.k in s.ops && s.ops[e.k].SettingUp? && s.ops[e.k].recovery))
  }

  /** The call that an event begins, with what it is to verify. */
  function BegunBy(s: State, e: Event): Option<Op> {
    match e
    case Verify(d, token) => Some(Applying(s.transitions, d, token, false))
    case AuthEvent(host, auth) =>
      if !HeardOf(s, host) || auth.None? then None
      else if s.session.SignedIn? then Some(Updating(s.transitions, Deployment(auth.value.0, host), auth.value.1))
      else Some(Applying(s.transitions, Deployment(auth.value.0, host), Some(auth.value.1), false))
    case OtherWindow(other) =>
      if s.disposed || s.session.SignedIn? || other.None? then None
      else Some(Applying(s.transitions, other.value, None, false))
    case ConfigEvent => if s.recoveryRunning then None else RecoveryCall(s)
    case _ => if RecoveryGoesOn(s, e) then RecoveryCall(s) else None
  }

  /** What becomes of the call that an event ends: signing in goes on to the OAuth set-up. */
  function Continued(s: State, e: Event): map<nat, Op> {
    var f := EffectOf(s, e);
    match e
    case Login(d, _, _) => s.ops[s.next := SettingUp(s.transitions + 1, d, false)]
    case Checked(k, _, _) =>
      if k !in s.ops || s.ops[k].SettingUp? then s.ops
      else if f.SignsIn? then s.ops[k := SettingUp(s.transitions + 1, f.d, s.ops[k].Applying? && s.ops[k].recovery)]
      else s.ops - {k}
    case OAuthReady(k, _) => if k in s.ops && s.ops[k].SettingUp? then s.ops - {k} else s.ops
    case _ => s.ops
  }

  predicate Begins(s: State, t: State, e: Event) {
    if BegunBy(s, e).Some? then t.ops == Continued(s, e)[s.next := BegunBy(s, e).value] && t.next == s.next + 1
    else t.ops == Continued(s, e) && t.next == s.next + (if e.Login? then 1 else 0)
  }

  lemma PassBegins(s: State)
    ensures var t := RecoveryPass(s);
            && !t.recoveryPending
            && (if RecoveryCall(s).Some? then t.ops == s.ops[s.next := RecoveryCall(s).value] && t.next == s.next + 1
                else t.ops == s.ops && t.next == s.next)
            && t.recoveryRunning == (s.recoveryRunning && RecoveryCall(s).Some?)
  {
  }

  lemma CheckBegins(s: State, k: nat, secret: Option<string>, who: Option<User>)
    ensures Begins(s, CheckEnds(s, k, secret, who), Checked(k, secret, who))
  {
    if k in s.ops && s.ops[k].Applying? { ApplyBegins(s, k, secret, who); }
    if k in s.ops && s.ops[k].Updating? { UpdateBegins(s, k, secret, who); }
  }

  lemma ApplyBegins(s: State, k: nat, secret: Option<string>, who: Option<User>)
    requires k in s.ops && s.ops[k].Applying?
    ensures Begins(s, Applied(s, k, s.ops[k], secret, who), Checked(k, secret, who))
  {
    var f, op := EffectOf(s, Checked(k, secret, who)), s.ops[k];
    if f.SignsIn? {
      assert Applied(s, k, op, secret, who) == SignIn(s, k, f.d, f.token, f.user, op.recovery);
    } else {
      assert Applied(s, k, op, secret, who) == Settled(s, k, op.recovery);
      SettledBegins(s, k, op.recovery);
    }
  }

  lemma SettledBegins(s: State, k: nat, recovery: bool)
    ensures var t, call := Settled(s, k, recovery), RecoveryCall(s);
            if recovery && s.recoveryPending && call.Some? then t.ops == (s.ops - {k})[s.next := call.value] && t.next == s.next + 1
            else t.ops == s.ops - {k} && t.next == s.next
  {
    PassBegins(Drop(s, k));
  }

  lemma UpdateBegins(s: State, k: nat, secret: Option<string>, who: Option<User>)
    requires k in s.ops && s.ops[k].Updating?
    ensures Begins(s, Updated(s, k, s.ops[k], who), Checked(k, secret, who))
  {
    var f, op := EffectOf(s, Checked(k, secret, who)), s.ops[k];
    if f.SignsIn? {
      assert Updated(s, k, op, who) == SignIn(s, k, f.d, f.token, f.user, false);
    } else if f.Rotates? {
      assert Updated(s, k, op, who) == Drop(s, k).(client := Client(Some(f.url), Some(f.newToken)));
    } else {
      assert Updated(s, k, op, who) == Drop(s, k);
    }
  }

  lemma SetUpBegins(s: State, k: nat, ok: bool)
    ensures Begins(s, SetUpEnds(s, k, ok), OAuthReady(k, ok))
  {
    if k in s.ops && s.ops[k].SettingUp? {
      var r := Remember(s, k, s.ops[k], ok);
      assert r == s.(stored := r.stored, writer := r.writer);
      assert SetUpEnds(s, k, ok) == Settled(r, k, s.ops[k].recovery);
      SettledBegins(r, k, s.ops[k].recovery);
    }
  }

  /** Every event begins and ends exactly these calls. */
  lemma StepBegins(s: State, e: Event)
    ensures Begins(s, Step(s, e), e)
  {
    match e
    case Checked(k, secret, who) => CheckBegins(s, k, secret, who);
    case OAuthReady(k, ok) => SetUpBegins(s, k, ok);
    case ConfigEvent => if !s.disposed && !s.recoveryRunning { PassBegins(s.(recoveryRunning := true)); }
    case AuthEvent(host, auth) => AuthBegins(s, host, auth);
    case _ => PlainBegins(s, e);
  }

  lemma PlainBegins(s: State, e: Event)
    requires !e.Checked? && !e.OAuthReady? && !e.ConfigEvent? && !e.AuthEvent?
    ensures Begins(s, Step(s, e), e)
  {
  }

  lemma AuthBegins(s: State, host: string, auth: Option<(string, string)>)
    ensures Begins(s, AuthChanged(s, host, auth), AuthEvent(host, auth))
  {
    if !HeardOf(s, host) {
      assert AuthChanged(s, host, auth) == s;
    } else if auth.None? {
      assert AuthChanged(s, host, auth) == Clear(s);
    } else {
      assert AuthChanged(s, host, auth) == Begin(s, BegunBy(s, AuthEvent(host, auth)).value);
    }
  }

  /** The call that the recovery loop awaits comes to its end. */
  predicate RecoveryEnds(s: State, e: Event) {
    || (e.Checked? && e.k in s.ops && s.ops[e.k].Applying? && s.ops[e.k].recovery && EffectOf(s, e).Nothing?)
    || (e.OAuthReady? && e.k in s.ops && s.ops[e.k].SettingUp? && s.ops[e.k].recovery)
  }

  predicate Loops(s: State, t: State, e: Event) {
    if RecoveryEnds(s, e) then
      t.recoveryRunning == (s.recoveryPending && s.recoveryRunning && Recoverable(t)) && !t.recoveryPending
    else if !e.ConfigEvent? || s.disposed then
      t.recoveryRunning == s.recoveryRunning && t.recoveryPending == s.recoveryPending
    else if s.recoveryRunning then t.recoveryRunning && t.recoveryPending
    else t.recoveryRunning == Recoverable(s) && !t.recoveryPending
  }

  lemma SettledLoops(s: State, k: nat)
    ensures var t := Settled(s, k, true);
            t.recoveryRunning == (s.recoveryPending && s.recoveryRunning && Recoverable(t)) && !t.recoveryPending
  {
    PassBegins(Drop(s, k));
    SettledQuiet(s, k, true);
  }

  lemma ApplyLoops(s: State, k: nat, secret: Option<string>, who: Option<User>)
    requires k in s.ops && s.ops[k].Applying?
    ensures Loops(s, Applied(s, k, s.ops[k], secret, who), Checked(k, secret, who))
  {
    SettledLoops(s, k);
  }

  lemma UpdateLoops(s: State, k: nat, secret: Option<string>, who: Option<User>)
    requires k in s.ops && s.ops[k].Updating?
    ensures Loops(s, Updated(s, k, s.ops[k], who), Checked(k, secret, who))
  {
  }

  lemma SetUpLoops(s: State, k: nat, ok: bool)
    ensures Loops(s, SetUpEnds(s, k, ok), OAuthReady(k, ok))
  {
    if k in s.ops && s.ops[k].SettingUp? {
      var r := Remember(s, k, s.ops[k], ok);
      assert r == s.(stored := r.stored, writer := r.writer);
      SettledLoops(r, k);
    }
  }

  lemma PlainLoops(s: State, e: Event)
    requires !e.Checked? && !e.OAuthReady? && !e.ConfigEvent?
    ensures Step(s, e).recoveryRunning == s.recoveryRunning && Step(s, e).recoveryPending == s.recoveryPending
  {
    match e
    case AuthEvent(host, auth) =>
      if !HeardOf(s, host) || auth.Some? { AuthOnlyBegins(s, host, auth); }
      else { assert AuthChanged(s, host, auth) == Clear(s); }
    case _ =>
  }

  /**
   * A settings change while the loop runs is remembered, one while it does not starts it, and
   * one after disposal does nothing; the loop goes on after its call only if a change is
   * remembered and there is something to recover.
   */
  lemma LoopExactly(s: State, e: Event)
    ensures Loops(s, Step(s, e), e)
  {
    match e
    case Checked(k, secret, who) =>
      if k in s.ops && s.ops[k].Applying? { ApplyLoops(s, k, secret, who); }
      if k in s.ops && s.ops[k].Updating? { UpdateLoops(s, k, secret, who); }
    case OAuthReady(k, ok) => SetUpLoops(s, k, ok);
    case ConfigEvent => if !s.disposed && !s.recoveryRunning { PassBegins(s.(recoveryRunning := true)); }
    case _ => PlainLoops(s, e);
  }

  // ----- no settings change is lost -----

  /** The settings change has been answered: by a recovery call begun since, or by there being nothing to recover. */
  predicate Answered(s: State, mark: nat) {
    !Recoverable(s) || exists k :: k in s.ops && k >= mark && IsRecovery(s.ops[k])
  }

  ghost predicate AnsweredSince(s: State, events: seq<Event>, mark: nat) {
    exists n :: 0 <= n <= |events| && Answered(Run(s, events[..n]), mark)
  }

  lemma ConfigAnswered(s: State)
    requires OneRecovery(s) && !s.disposed
    ensures var t := Step(s, ConfigEvent); t.recoveryPending || Answered(t, s.next)
  {
    if !s.recoveryRunning {
      var r := s.(recoveryRunning := true);
      PassBegins(r);
      RecoveryPassQuiet(r);
      if Recoverable(s) { assert IsRecovery(Step(s, ConfigEvent).ops[s.next]); }
    }
  }

  /** While a change is remembered it stays remembered until a pass of the loop answers it. */
  lemma StepAnswers(s: State, e: Event, mark: nat)
    requires s.recoveryPending && mark <= s.next
    ensures var t := Step(s, e); t.recoveryPending || Answered(t, mark)
  {
    match e
    case Checked(k, secret, who) =>
      if k in s.ops && s.ops[k].Applying? { PassAnswers(Drop(s, k), mark); }
    case OAuthReady(k, ok) =>
      if k in s.ops && s.ops[k].SettingUp? { PassAnswers(Drop(Remember(s, k, s.ops[k], ok), k), mark); }
    case ConfigEvent => if !s.disposed && !s.recoveryRunning { PassAnswers(s.(recoveryRunning := true), mark); }
    case _ => PlainLoops(s, e);
  }

  lemma PassAnswers(s: State, mark: nat)
    requires mark <= s.next
    ensures Answered(RecoveryPass(s), mark)
  {
    if Recoverable(s) { assert IsRecovery(RecoveryPass(s).ops[s.next]); }
  }

  lemma {:induction false} RunAnswers(s: State, events: seq<Event>, mark: nat)
    requires s.recoveryPending && mark <= s.next
    ensures Run(s, events).recoveryPending || AnsweredSince(s, events, mark)
    decreases |events|
  {
    if events != [] {
      var t, rest := Step(s, events[0]), events[1..];
      StepAnswers(s, events[0], mark);
      StepBegins(s, events[0]);
      if t.recoveryPending {
        RunAnswers(t, rest, mark);
        if AnsweredSince(t, rest, mark) {
          var n :| 0 <= n <= |rest| && Answered(Run(t, rest[..n]), mark);
          assert events[..n + 1] == [events[0]] + rest[..n];
          RunCons(s, events[0], rest[..n]);
          assert Answered(Run(s, events[..n + 1]), mark);
        }
      } else {
        assert events[..1] == [events[0]] + [];
        RunCons(s, events[0], []);
        assert Answered(Run(s, events[..1]), mark);
      }
    }
  }

  /**
   * A change of the authentication settings is never lost: at any later time it is still
   * remembered, which the running recovery looks at when its call ends, or it was answered at
   * some time since, by a recovery call begun after the change or because there was nothing to
   * recover.
   */
  lemma ChangeIsNotLost(client: Client, stored: Option<Deployment>, before: seq<Event>, after: seq<Event>)
    requires !Run(Initial(client, stored), before).disposed
    ensures var s := Run(Initial(client, stored), before);
            var t := Run(Step(s, ConfigEvent), after);
            (t.recoveryPending && t.recoveryRunning) || AnsweredSince(Step(s, ConfigEvent), after, s.next)
  {
    var s := Run(Initial(client, stored), before);
    var c := Step(s, ConfigEvent);
    RunOneRecovery(Initial(client, stored), before);
    RunOneRecovery(s, [ConfigEvent]);
    RunCons(s, ConfigEvent, []);
    assert [ConfigEvent] + [] == [ConfigEvent];
    RunOneRecovery(c, after);
    ConfigAnswered(s);
    if c.recoveryPending {
      StepBegins(s, ConfigEvent);
      RunAnswers(c, after, s.next);
    } else {
      assert after[..0] == [];
      assert Answered(Run(c, after[..0]), s.next);
    }
  }
}
