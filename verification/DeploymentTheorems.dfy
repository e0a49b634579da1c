/** What deployment sign-in, logout and recovery guarantee over every interleaving. */
module DeploymentTheorems {
  import opened Basics
  import opened DeploymentProtocol

  // ----- after a logout -----

  predicate BeganBefore(op: Op, c: nat) {
    match op
    case Applying(before, d, token, recovery) => before < c
    case Updating(before, d, token) => before < c
    case SettingUp(ref, d, recovery) => ref < c
  }

  /** Pending calls have been numbered; those before call `mark` began before transition `c`. */
  predicate OldCalls(s: State, mark: nat, c: nat) {
    && mark <= s.next && c <= s.transitions
    && (forall k :: k in s.ops ==> k < s.next)
    && (forall k :: k in s.ops && k < mark ==> BeganBefore(s.ops[k], c))
  }

  /** Whoever is signed in, and whatever is stored, got there by a call made since. */
  predicate Since(s: State, mark: nat) {
    (s.session.SignedIn? ==> s.signer >= mark) && (s.stored.Some? ==> s.writer >= mark)
  }

  /** A token update from before the logout is pending for the host of a suspended session. */
  predicate Revivable(s: State, mark: nat) {
    && !s.disposed && s.session.SignedOut?
    && exists k :: k in s.ops && k < mark && s.ops[k].Updating?
                   && HostOf(s.session) == Some(s.ops[k].deployment.safeHostname)
  }

  predicate Kept(s: State, mark: nat, c: nat) {
    OldCalls(s, mark, c) && Since(s, mark)
  }

  lemma BeginKept(s: State, op: Op, mark: nat, c: nat)
    requires Kept(s, mark, c)
    ensures Kept(Begin(s, op), mark, c)
  {
  }

  lemma SettledKept(s: State, k: nat, recovery: bool, mark: nat, c: nat)
    requires Kept(s, mark, c)
    ensures Kept(Settled(s, k, recovery), mark, c)
  {
    if recovery { PassKept(Drop(s, k), mark, c); }
  }

  lemma PassKept(s: State, mark: nat, c: nat)
    requires Kept(s, mark, c)
    ensures Kept(RecoveryPass(s), mark, c)
  {
  }

  lemma SignInKept(s: State, k: nat, d: Deployment, token: Option<string>, user: User, recovery: bool, mark: nat, c: nat)
    requires Kept(s, mark, c) && mark <= k < s.next
    ensures Kept(SignIn(s, k, d, token, user, recovery), mark, c)
  {
  }

  lemma AppliedKept(s: State, k: nat, secret: Option<string>, user: Option<User>, mark: nat, c: nat)
    requires Kept(s, mark, c) && k in s.ops && s.ops[k].Applying?
    ensures Kept(Applied(s, k, s.ops[k], secret, user), mark, c)
  {
    var op := s.ops[k];
    if user.None? || Moved(s, op.before) {
      SettledKept(s, k, op.recovery, mark, c);
    } else {
      SignInKept(s, k, op.deployment, if op.token.Some? then op.token else secret, user.value, op.recovery, mark, c);
    }
  }

  lemma DropKept(s: State, k: nat, mark: nat, c: nat)
    requires Kept(s, mark, c)
    ensures Kept(Drop(s, k), mark, c) && forall client :: Kept(Drop(s, k).(client := client), mark, c)
  {
  }

  lemma UpdatedKept(s: State, k: nat, user: Option<User>, mark: nat, c: nat)
    requires Kept(s, mark, c) && k in s.ops && s.ops[k].Updating? && !Revivable(s, mark)
    ensures Kept(Updated(s, k, s.ops[k], user), mark, c)
  {
    var op := s.ops[k];
    DropKept(s, k, mark, c);
    if user.Some? && !s.disposed && mark <= k {
      SignInKept(s, k, op.deployment, Some(op.newToken), user.value, false, mark, c);
    }
  }

  lemma SetUpKept(s: State, k: nat, ok: bool, mark: nat, c: nat)
    requires Kept(s, mark, c)
    ensures Kept(SetUpEnds(s, k, ok), mark, c)
  {
    if k in s.ops && s.ops[k].SettingUp? {
      SettledKept(Remember(s, k, s.ops[k], ok), k, s.ops[k].recovery, mark, c);
    }
  }

  lemma CheckedKept(s: State, k: nat, secret: Option<string>, who: Option<User>, mark: nat, c: nat)
    requires Kept(s, mark, c) && !Revivable(s, mark)
    ensures Kept(CheckEnds(s, k, secret, who), mark, c)
  {
    if k in s.ops && s.ops[k].Applying? { AppliedKept(s, k, secret, who, mark, c); }
    if k in s.ops && s.ops[k].Updating? { UpdatedKept(s, k, who, mark, c); }
  }

  lemma ConfigKept(s: State, mark: nat, c: nat)
    requires Kept(s, mark, c)
    ensures Kept(AuthConfigChanged(s), mark, c)
  {
    if !s.disposed && !s.recoveryRunning { PassKept(s.(recoveryRunning := true), mark, c); }
  }

  lemma LogInKept(s: State, d: Deployment, token: Option<string>, user: User, mark: nat, c: nat)
    requires Kept(s, mark, c)
    ensures Kept(LogIn(s, d, token, user), mark, c)
  {
    SignInKept(s.(next := s.next + 1), s.next, d, token, user, false, mark, c);
  }

  lemma StepKept(s: State, e: Event, mark: nat, c: nat)
    requires Kept(s, mark, c) && !Revivable(s, mark)
    ensures Kept(Step(s, e), mark, c)
  {
    match e
    case Login(d, token, user) => LogInKept(s, d, token, user, mark, c);
    case Checked(k, secret, who) => CheckedKept(s, k, secret, who, mark, c);
    case OAuthReady(k, ok) => SetUpKept(s, k, ok, mark, c);
    case ConfigEvent => ConfigKept(s, mark, c);
    case Verify(d, token) => BeginKept(s, Applying(s.transitions, d, token, false), mark, c);
    case AuthEvent(host, auth) => AuthKept(s, host, auth, mark, c);
    case OtherWindow(other) =>
      if other.Some? { BeginKept(s, Applying(s.transitions, other.value, None, false), mark, c); }
    case _ =>
  }

  lemma AuthKept(s: State, host: string, auth: Option<(string, string)>, mark: nat, c: nat)
    requires Kept(s, mark, c)
    ensures Kept(AuthChanged(s, host, auth), mark, c)
  {
    if auth.Some? {
      var d := Deployment(auth.value.0, host);
      BeginKept(s, Updating(s.transitions, d, auth.value.1), mark, c);
      BeginKept(s, Applying(s.transitions, d, Some(auth.value.1), false), mark, c);
    }
  }

  /** At no point of the run is there a suspended session that a token update from before could revive. */
  ghost predicate NeverRevivable(s: State, events: seq<Event>, mark: nat)
    decreases |events|
  {
    !Revivable(s, mark) && (events == [] || NeverRevivable(Step(s, events[0]), events[1..], mark))
  }

  lemma {:induction false} RunKept(s: State, events: seq<Event>, mark: nat, c: nat)
    requires Kept(s, mark, c) && NeverRevivable(s, events, mark)
    ensures Kept(Run(s, events), mark, c)
    decreases |events|
  {
    if events != [] {
      StepKept(s, events[0], mark, c);
      RunKept(Step(s, events[0]), events[1..], mark, c);
    }
  }

  /** Pending calls are numbered below `next` and read a session object that exists. */
  predicate Numbered(s: State) {
    forall k :: k in s.ops ==> k < s.next && BeganBefore(s.ops[k], s.transitions + 1)
  }

  lemma SettledNumbered(s: State, k: nat, recovery: bool)
    requires Numbered(s)
    ensures Numbered(Settled(s, k, recovery))
  {
  }

  lemma SignInNumbered(s: State, k: nat, d: Deployment, token: Option<string>, user: User, recovery: bool)
    requires Numbered(s) && k < s.next
    ensures Numbered(SignIn(s, k, d, token, user, recovery))
  {
  }

  lemma AppliedNumbered(s: State, k: nat, op: Op, secret: Option<string>, user: Option<User>)
    requires Numbered(s) && k < s.next && op.Applying?
    ensures Numbered(Applied(s, k, op, secret, user))
  {
    SettledNumbered(s, k, op.recovery);
    if user.Some? {
      SignInNumbered(s, k, op.deployment, if op.token.Some? then op.token else secret, user.value, op.recovery);
    }
  }

  lemma UpdatedNumbered(s: State, k: nat, op: Op, user: Option<User>)
    requires Numbered(s) && k < s.next && op.Updating?
    ensures Numbered(Updated(s, k, op, user))
  {
    if user.Some? { SignInNumbered(s, k, op.deployment, Some(op.newToken), user.value, false); }
  }

  lemma CheckedNumbered(s: State, k: nat, secret: Option<string>, user: Option<User>)
    requires Numbered(s)
    ensures Numbered(CheckEnds(s, k, secret, user))
  {
    if k in s.ops && s.ops[k].Applying? { AppliedNumbered(s, k, s.ops[k], secret, user); }
    if k in s.ops && s.ops[k].Updating? { UpdatedNumbered(s, k, s.ops[k], user); }
  }

  lemma SetUpNumbered(s: State, k: nat, ok: bool)
    requires Numbered(s)
    ensures Numbered(SetUpEnds(s, k, ok))
  {
    if k in s.ops && s.ops[k].SettingUp? { SettledNumbered(Remember(s, k, s.ops[k], ok), k, s.ops[k].recovery); }
  }

  lemma BeginNumbered(s: State, op: Op)
    requires Numbered(s) && BeganBefore(op, s.transitions + 1)
    ensures Numbered(Begin(s, op))
  {
  }

  lemma AuthNumbered(s: State, host: string, auth: Option<(string, string)>)
    requires Numbered(s)
    ensures Numbered(AuthChanged(s, host, auth))
  {
    if auth.Some? {
      var d := Deployment(auth.value.0, host);
      BeginNumbered(s, Updating(s.transitions, d, auth.value.1));
      BeginNumbered(s, Applying(s.transitions, d, Some(auth.value.1), false));
    }
  }

  lemma PassNumbered(s: State)
    requires Numbered(s)
    ensures Numbered(RecoveryPass(s))
  {
  }

  lemma ConfigNumbered(s: State)
    requires Numbered(s)
    ensures Numbered(AuthConfigChanged(s))
  {
    if !s.disposed && !s.recoveryRunning { PassNumbered(s.(recoveryRunning := true)); }
  }

  lemma LogInNumbered(s: State, d: Deployment, token: Option<string>, user: User)
    requires Numbered(s)
    ensures Numbered(LogIn(s, d, token, user))
  {
    SignInNumbered(s.(next := s.next + 1), s.next, d, token, user, false);
  }

  lemma StepNumbered(s: State, e: Event)
    requires Numbered(s)
    ensures Numbered(Step(s, e))
  {
    match e
    case Verify(d, token) => BeginNumbered(s, Applying(s.transitions, d, token, false));
    case AuthEvent(host, auth) => AuthNumbered(s, host, auth);
    case OtherWindow(other) =>
      if other.Some? { BeginNumbered(s, Applying(s.transitions, other.value, None, false)); }
    case ConfigEvent => ConfigNumbered(s);
    case Login(d, token, user) => LogInNumbered(s, d, token, user);
    case Checked(k, secret, who) => CheckedNumbered(s, k, secret, who);
    case OAuthReady(k, ok) => SetUpNumbered(s, k, ok);
    case _ =>
  }

  lemma {:induction false} RunNumbered(s: State, events: seq<Event>)
    requires Numbered(s)
    ensures Numbered(Run(s, events))
    decreases |events|
  {
    if events != [] {
      StepNumbered(s, events[0]);
      RunNumbered(Step(s, events[0]), events[1..]);
    }
  }

  /**
   * After a logout, at any point of any run: no call still in flight from before it signs in
   * or stores a deployment, as long as no such token update meets a suspended session of its
   * host. Everything later is the work of calls made since.
   */
  lemma LogoutWins(client: Client, stored: Option<Deployment>, before: seq<Event>, after: seq<Event>)
    requires var s := Run(Initial(client, stored), before); NeverRevivable(Clear(s), after, s.next)
    ensures var s := Run(Initial(client, stored), before); Since(Run(Clear(s), after), s.next)
  {
    var s := Run(Initial(client, stored), before);
    RunNumbered(Initial(client, stored), before);
    RunKept(Clear(s), after, s.next, s.transitions + 1);
  }

  /** No token update begun before `mark` is pending. */
  predicate NoOldUpdate(s: State, mark: nat) {
    mark <= s.next && forall k :: k in s.ops && k < mark ==> !s.ops[k].Updating?
  }

  predicate Harmless(s: State, mark: nat) {
    mark <= s.next && (s.disposed || NoOldUpdate(s, mark))
  }

  lemma BeginHarmless(s: State, op: Op, mark: nat)
    requires Harmless(s, mark)
    ensures Harmless(Begin(s, op), mark)
  {
  }

  lemma PassHarmless(s: State, mark: nat)
    requires Harmless(s, mark)
    ensures Harmless(RecoveryPass(s), mark)
  {
  }

  lemma SettledHarmless(s: State, k: nat, recovery: bool, mark: nat)
    requires Harmless(s, mark)
    ensures Harmless(Settled(s, k, recovery), mark)
  {
    if recovery { PassHarmless(Drop(s, k), mark); }
  }

  lemma SignInHarmless(s: State, k: nat, d: Deployment, token: Option<string>, user: User, recovery: bool, mark: nat)
    requires Harmless(s, mark)
    ensures Harmless(SignIn(s, k, d, token, user, recovery), mark)
  {
  }

  lemma AppliedHarmless(s: State, k: nat, op: Op, secret: Option<string>, user: Option<User>, mark: nat)
    requires Harmless(s, mark) && op.Applying?
    ensures Harmless(Applied(s, k, op, secret, user), mark)
  {
    SettledHarmless(s, k, op.recovery, mark);
    if user.Some? {
      SignInHarmless(s, k, op.deployment, if op.token.Some? then op.token else secret, user.value, op.recovery, mark);
    }
  }

  lemma UpdatedHarmless(s: State, k: nat, op: Op, user: Option<User>, mark: nat)
    requires Harmless(s, mark) && op.Updating?
    ensures Harmless(Updated(s, k, op, user), mark)
  {
    if user.Some? { SignInHarmless(s, k, op.deployment, Some(op.newToken), user.value, false, mark); }
  }

  lemma CheckedHarmless(s: State, k: nat, secret: Option<string>, user: Option<User>, mark: nat)
    requires Harmless(s, mark)
    ensures Harmless(CheckEnds(s, k, secret, user), mark)
  {
    if k in s.ops && s.ops[k].Applying? { AppliedHarmless(s, k, s.ops[k], secret, user, mark); }
    if k in s.ops && s.ops[k].Updating? { UpdatedHarmless(s, k, s.ops[k], user, mark); }
  }

  lemma SetUpHarmless(s: State, k: nat, ok: bool, mark: nat)
    requires Harmless(s, mark)
    ensures Harmless(SetUpEnds(s, k, ok), mark)
  {
    if k in s.ops && s.ops[k].SettingUp? { SettledHarmless(Remember(s, k, s.ops[k], ok), k, s.ops[k].recovery, mark); }
  }

  lemma AuthHarmless(s: State, host: string, auth: Option<(string, string)>, mark: nat)
    requires Harmless(s, mark)
    ensures Harmless(AuthChanged(s, host, auth), mark)
  {
    if auth.Some? {
      var d := Deployment(auth.value.0, host);
      BeginHarmless(s, Updating(s.transitions, d, auth.value.1), mark);
      BeginHarmless(s, Applying(s.transitions, d, Some(auth.value.1), false), mark);
    }
  }

  lemma ConfigHarmless(s: State, mark: nat)
    requires Harmless(s, mark)
    ensures Harmless(AuthConfigChanged(s), mark)
  {
    if !s.disposed && !s.recoveryRunning { PassHarmless(s.(recoveryRunning := true), mark); }
  }

  lemma LogInHarmless(s: State, d: Deployment, token: Option<string>, user: User, mark: nat)
    requires Harmless(s, mark)
    ensures Harmless(LogIn(s, d, token, user), mark)
  {
    SignInHarmless(s.(next := s.next + 1), s.next, d, token, user, false, mark);
  }

  lemma StepHarmless(s: State, e: Event, mark: nat)
    requires Harmless(s, mark)
    ensures Harmless(Step(s, e), mark)
  {
    match e
    case Login(d, token, user) => LogInHarmless(s, d, token, user, mark);
    case Verify(d, token) => BeginHarmless(s, Applying(s.transitions, d, token, false), mark);
    case AuthEvent(host, auth) => AuthHarmless(s, host, auth, mark);
    case OtherWindow(other) =>
      if other.Some? { BeginHarmless(s, Applying(s.transitions, other.value, None, false), mark); }
    case ConfigEvent => ConfigHarmless(s, mark);
    case Checked(k, secret, who) => CheckedHarmless(s, k, secret, who, mark);
    case OAuthReady(k, ok) => SetUpHarmless(s, k, ok, mark);
    case _ =>
  }

  lemma {:induction false} HarmlessNeverRevivable(s: State, events: seq<Event>, mark: nat)
    requires Harmless(s, mark)
    ensures NeverRevivable(s, events, mark)
    decreases |events|
  {
    if events != [] {
      StepHarmless(s, events[0], mark);
      HarmlessNeverRevivable(Step(s, events[0]), events[1..], mark);
    }
  }

  /**
   * What undoes a logout over a pending token update, call `k`: its host is signed in to and
   * suspended, and then the update ends.
   */
  function Undoing(k: nat, d: Deployment, user: User): seq<Event> {
    [Login(d, None, user), SuspendSession, Checked(k, None, Some(user)), OAuthReady(k, true)]
  }

  lemma RunFour(s: State, e1: Event, e2: Event, e3: Event, e4: Event)
    ensures Run(s, [e1, e2, e3, e4]) == Step(Step(Step(Step(s, e1), e2), e3), e4)
  {
    assert [e1, e2, e3, e4] == [e1] + ([e2] + ([e3] + ([e4] + [])));
    RunCons(s, e1, [e2] + ([e3] + ([e4] + [])));
    RunCons(Step(s, e1), e2, [e3] + ([e4] + []));
    RunCons(Step(Step(s, e1), e2), e3, [e4] + []);
    RunCons(Step(Step(Step(s, e1), e2), e3), e4, []);
  }

  /** Signed in and suspended again after a logout; what was pending still is. */
  lemma SuspendedAgain(s: State, d: Deployment, user: User, k: nat)
    requires k in s.ops && k < s.next
    ensures var b := Suspend(LogIn(Clear(s), d, None, user));
            && b.session == SignedOut(Some(d)) && b.transitions == s.transitions + 3 && b.disposed == s.disposed
            && k in b.ops && b.ops[k] == s.ops[k]
  {
  }

  /** A token update whose host is suspended signs in and stores its deployment. */
  lemma UpdateEnds(b: State, k: nat, op: Op, user: User)
    requires k in b.ops && b.ops[k] == op && op.Updating? && !b.disposed && b.transitions != op.before
    requires b.session == SignedOut(Some(op.deployment))
    ensures var t := Step(Step(b, Checked(k, None, Some(user))), OAuthReady(k, true));
            t.session == SignedIn(op.deployment, user) && t.signer == k && t.stored == Some(op.deployment) && t.writer == k
  {
    var c := Step(b, Checked(k, None, Some(user)));
    assert c == SignIn(b, k, op.deployment, Some(op.newToken), user, false);
    SettledQuiet(Remember(c, k, c.ops[k], true), k, false);
  }

  lemma OldUpdateReturns(s: State, k: nat, user: User)
    requires Numbered(s) && !s.disposed && k in s.ops && s.ops[k].Updating?
    ensures var d := s.ops[k].deployment;
            var t := Run(Clear(s), Undoing(k, d, user));
            t.session == SignedIn(d, user) && t.signer == k && t.stored == Some(d) && t.writer == k && k < s.next
  {
    var op := s.ops[k];
    var d := op.deployment;
    RunFour(Clear(s), Login(d, None, user), SuspendSession, Checked(k, None, Some(user)), OAuthReady(k, true));
    SuspendedAgain(s, d, user, k);
    UpdateEnds(Suspend(LogIn(Clear(s), d, None, user)), k, op, user);
  }

  /** `Since` after every run that may follow the logout in `s`. */
  ghost predicate LogoutHolds(s: State) {
    forall after :: Since(Run(Clear(s), after), s.next)
  }

  /**
   * Whether a logout can be undone is decided at the logout: everything that ever signs in or
   * stores a deployment afterwards is the work of calls made since, whatever happens, if and
   * only if the manager is disposed or no token update is pending.
   */
  lemma LogoutExactly(client: Client, stored: Option<Deployment>, before: seq<Event>)
    ensures var s := Run(Initial(client, stored), before);
            LogoutHolds(s) <==> s.disposed || forall k :: k in s.ops ==> !s.ops[k].Updating?
  {
    var s := Run(Initial(client, stored), before);
    RunNumbered(Initial(client, stored), before);
    if s.disposed || forall k :: k in s.ops ==> !s.ops[k].Updating? {
      forall after ensures Since(Run(Clear(s), after), s.next) {
        HarmlessNeverRevivable(Clear(s), after, s.next);
        LogoutWins(client, stored, before, after);
      }
    } else {
      var k :| k in s.ops && s.ops[k].Updating?;
      OldUpdateReturns(s, k, User("", false));
      assert !Since(Run(Clear(s), Undoing(k, s.ops[k].deployment, User("", false))), s.next);
    }
  }

  predicate SignsInNow(s: State, t: State, k: nat) {
    t.session.SignedIn? && t.signer == k && t.transitions > s.transitions
  }

  /**
   * Step by step the exception is exact: a call from before signs in exactly if it is a token
   * update whose host has a suspended session.
   */
  lemma OldCallSignsInExactly(s: State, k: nat, secret: Option<string>, user: User, mark: nat, c: nat)
    requires Kept(s, mark, c) && !s.disposed && k in s.ops && k < mark && !s.ops[k].SettingUp?
    ensures SignsInNow(s, Step(s, Checked(k, secret, Some(user))), k)
       <==> s.ops[k].Updating? && s.session.SignedOut? && HostOf(s.session) == Some(s.ops[k].deployment.safeHostname)
  {
    if s.ops[k].Applying? { SettledQuiet(s, k, s.ops[k].recovery); }
  }

  /** A step leaves the session alone, signs in, forgets it, or signs out keeping the deployment. */
  predicate SessionMoves(s: State, t: State) {
    || t.session == s.session || t.session.SignedIn?
    || t.session == SignedOut(None) || t.session == SignedOut(DeploymentOf(s.session))
  }

  lemma AppliedMoves(s: State, k: nat, op: Op, secret: Option<string>, user: Option<User>)
    requires op.Applying?
    ensures SessionMoves(s, Applied(s, k, op, secret, user))
  {
    SettledQuiet(s, k, op.recovery);
  }

  lemma UpdatedMoves(s: State, k: nat, op: Op, user: Option<User>)
    requires op.Updating?
    ensures SessionMoves(s, Updated(s, k, op, user))
  {
  }

  lemma CheckedMoves(s: State, k: nat, secret: Option<string>, user: Option<User>)
    ensures SessionMoves(s, CheckEnds(s, k, secret, user))
  {
    if k in s.ops && s.ops[k].Applying? { AppliedMoves(s, k, s.ops[k], secret, user); }
    if k in s.ops && s.ops[k].Updating? { UpdatedMoves(s, k, s.ops[k], user); }
  }

  lemma SetUpSession(s: State, k: nat, ok: bool)
    ensures SetUpEnds(s, k, ok).session == s.session
  {
    if k in s.ops && s.ops[k].SettingUp? { SettledQuiet(Remember(s, k, s.ops[k], ok), k, s.ops[k].recovery); }
  }

  lemma StepMoves(s: State, e: Event)
    ensures SessionMoves(s, Step(s, e))
  {
    match e
    case Checked(k, secret, who) => CheckedMoves(s, k, secret, who);
    case OAuthReady(k, ok) => SetUpSession(s, k, ok);
    case ConfigEvent => ConfigQuiet(s);
    case _ =>
  }

  lemma SuspendedFrom(s: State, e: Event, d: Deployment)
    requires Step(s, e).session == SignedOut(Some(d))
    ensures s.session == SignedOut(Some(d)) || (s.session.SignedIn? && s.session.current == d)
  {
    StepMoves(s, e);
  }

  /** A suspended session after a logout means that its deployment was signed in again since. */
  lemma {:induction false} SuspendedMeansSignedInAgain(s: State, after: seq<Event>, d: Deployment)
    requires s.session == SignedOut(None) && Run(s, after).session == SignedOut(Some(d))
    ensures exists n :: 0 <= n < |after| && Run(s, after[..n]).session.SignedIn? && Run(s, after[..n]).session.current == d
    decreases |after|
  {
    var n := |after| - 1;
    assert after == after[..n] + [after[n]];
    RunAppend(s, after[..n], [after[n]]);
    var t := Run(s, after[..n]);
    assert [after[n]][1..] == [];
    assert Run(t, [after[n]]) == Step(t, after[n]);
    SuspendedFrom(t, after[n], d);
    if !t.session.SignedIn? {
      SuspendedMeansSignedInAgain(s, after[..n], d);
      var m :| 0 <= m < n && Run(s, after[..n][..m]).session.SignedIn? && Run(s, after[..n][..m]).session.current == d;
      assert after[..n][..m] == after[..m];
    }
  }

  lemma RunCons(s: State, e: Event, rest: seq<Event>)
    ensures Run(s, [e] + rest) == Run(Step(s, e), rest)
  {
    assert ([e] + rest)[1..] == rest;
  }

  /**
   * The exception happens: a token update from before the logout (call 1 of calls 0 and 1)
   * signs in and stores its deployment after a new login of the host was suspended.
   */
  lemma LateUpdateReturns(d: Deployment, user: User)
    ensures var s := Run(Initial(NO_CREDENTIALS, None),
                         [Login(d, None, user), AuthEvent(d.safeHostname, Some((d.url, "token")))]);
            var t := Run(Clear(s), Undoing(1, d, user));
            s.next == 2 && t.session.SignedIn? && t.signer == 1 && t.stored == Some(d) && t.writer == 1
  {
    var i := Initial(NO_CREDENTIALS, None);
    var e1, e2 := Login(d, None, user), AuthEvent(d.safeHostname, Some((d.url, "token")));
    var events := [e1] + ([e2] + []);
    assert [e1, e2] == events;
    RunCons(i, e1, [e2] + []);
    RunCons(Step(i, e1), e2, []);
    RunNumbered(i, events);
    UpdateBegun(i, d, user);
    OldUpdateReturns(Run(i, events), 1, user);
  }

  lemma UpdateBegun(i: State, d: Deployment, user: User)
    requires i == Initial(NO_CREDENTIALS, None)
    ensures var s := AuthChanged(LogIn(i, d, None, user), d.safeHostname, Some((d.url, "token")));
            s.next == 2 && !s.disposed && 1 in s.ops && s.ops[1] == Updating(1, d, "token")
  {
  }

  // ----- recovery after a settings change -----

  predicate IsRecovery(op: Op) {
    !op.Updating? && op.recovery
  }

  /** The recovery loop has exactly one call pending while it runs, and remembers changes only then. */
  predicate OneRecovery(s: State) {
    && (forall k :: k in s.ops ==> k < s.next)
    && (forall j, k :: j in s.ops && k in s.ops && IsRecovery(s.ops[j]) && IsRecovery(s.ops[k]) ==> j == k)
    && (s.recoveryRunning <==> exists k :: k in s.ops && IsRecovery(s.ops[k]))
    && (s.recoveryPending ==> s.recoveryRunning)
  }

  predicate NoRecovery(s: State) {
    (forall k :: k in s.ops ==> k < s.next) && forall k :: k in s.ops ==> !IsRecovery(s.ops[k])
  }

  lemma PassOne(s: State)
    requires NoRecovery(s) && s.recoveryRunning
    ensures OneRecovery(RecoveryPass(s))
  {
    if !(s.disposed || DeploymentOf(s.session).None? || s.session.SignedIn?) {
      assert IsRecovery(RecoveryPass(s).ops[s.next]);
    }
  }

  lemma BeginOne(s: State, op: Op)
    requires OneRecovery(s) && !IsRecovery(op)
    ensures OneRecovery(Begin(s, op))
  {
    var t := Begin(s, op);
    assert forall k :: k in s.ops ==> k in t.ops && t.ops[k] == s.ops[k];
    if s.recoveryRunning {
      var j :| j in s.ops && IsRecovery(s.ops[j]);
      assert j in t.ops && IsRecovery(t.ops[j]);
    }
  }

  lemma SettledOne(s: State, k: nat, recovery: bool)
    requires OneRecovery(s) && k in s.ops && recovery == IsRecovery(s.ops[k])
    ensures OneRecovery(Settled(s, k, recovery))
  {
    var t := Drop(s, k);
    assert forall j :: j in t.ops ==> t.ops[j] == s.ops[j];
    if recovery {
      assert NoRecovery(t);
      if t.recoveryPending { PassOne(t); }
    } else if s.recoveryRunning {
      var j :| j in s.ops && IsRecovery(s.ops[j]);
      assert j in t.ops;
    }
  }

  /** The call that signs in goes on as the same call, of the recovery or not. */
  lemma SignInOne(s: State, k: nat, d: Deployment, token: Option<string>, user: User, recovery: bool)
    requires OneRecovery(s) && k < s.next && recovery == (k in s.ops && IsRecovery(s.ops[k]))
    ensures OneRecovery(SignIn(s, k, d, token, user, recovery))
  {
    var t := SignIn(s, k, d, token, user, recovery);
    assert forall j :: j in s.ops ==> j in t.ops && IsRecovery(t.ops[j]) == IsRecovery(s.ops[j]);
  }

  lemma AppliedOne(s: State, k: nat, secret: Option<string>, user: Option<User>)
    requires OneRecovery(s) && k in s.ops && s.ops[k].Applying?
    ensures OneRecovery(Applied(s, k, s.ops[k], secret, user))
  {
    var op := s.ops[k];
    SettledOne(s, k, op.recovery);
    if user.Some? {
      SignInOne(s, k, op.deployment, if op.token.Some? then op.token else secret, user.value, op.recovery);
    }
  }

  lemma UpdatedOne(s: State, k: nat, user: Option<User>)
    requires OneRecovery(s) && k in s.ops && s.ops[k].Updating?
    ensures OneRecovery(Updated(s, k, s.ops[k], user))
  {
    var op := s.ops[k];
    SettledOne(s, k, false);
    if user.Some? { SignInOne(s, k, op.deployment, Some(op.newToken), user.value, false); }
  }

  lemma CheckedOne(s: State, k: nat, secret: Option<string>, user: Option<User>)
    requires OneRecovery(s)
    ensures OneRecovery(CheckEnds(s, k, secret, user))
  {
    if k in s.ops && s.ops[k].Applying? { AppliedOne(s, k, secret, user); }
    if k in s.ops && s.ops[k].Updating? { UpdatedOne(s, k, user); }
  }

  lemma SetUpOne(s: State, k: nat, ok: bool)
    requires OneRecovery(s)
    ensures OneRecovery(SetUpEnds(s, k, ok))
  {
    if k in s.ops && s.ops[k].SettingUp? { SettledOne(Remember(s, k, s.ops[k], ok), k, s.ops[k].recovery); }
  }

  lemma SameOpsOne(s: State, t: State)
    requires OneRecovery(s) && t.ops == s.ops && t.next == s.next
    requires t.recoveryRunning == s.recoveryRunning && t.recoveryPending == s.recoveryPending
    ensures OneRecovery(t)
  {
  }

  lemma AuthOne(s: State, host: string, auth: Option<(string, string)>)
    requires OneRecovery(s)
    ensures OneRecovery(AuthChanged(s, host, auth))
  {
    if auth.Some? {
      var d := Deployment(auth.value.0, host);
      BeginOne(s, Updating(s.transitions, d, auth.value.1));
      BeginOne(s, Applying(s.transitions, d, Some(auth.value.1), false));
    }
  }

  lemma ConfigOne(s: State)
    requires OneRecovery(s)
    ensures OneRecovery(AuthConfigChanged(s))
  {
    if !s.disposed && !s.recoveryRunning {
      assert NoRecovery(s);
      PassOne(s.(recoveryRunning := true));
    }
  }

  lemma LogInOne(s: State, d: Deployment, token: Option<string>, user: User)
    requires OneRecovery(s)
    ensures OneRecovery(LogIn(s, d, token, user))
  {
    SignInOne(s.(next := s.next + 1), s.next, d, token, user, false);
  }

  lemma StepOne(s: State, e: Event)
    requires OneRecovery(s)
    ensures OneRecovery(Step(s, e))
  {
    match e
    case Login(d, token, user) => LogInOne(s, d, token, user);
    case Verify(d, token) => BeginOne(s, Applying(s.transitions, d, token, false));
    case AuthEvent(host, auth) => AuthOne(s, host, auth);
    case OtherWindow(other) =>
      if other.Some? { BeginOne(s, Applying(s.transitions, other.value, None, false)); }
    case Checked(k, secret, who) => CheckedOne(s, k, secret, who);
    case OAuthReady(k, ok) => SetUpOne(s, k, ok);
    case ConfigEvent => ConfigOne(s);
    case Logout => SameOpsOne(s, Clear(s));
    case SuspendSession => SameOpsOne(s, Suspend(s));
    case DisposeManager => SameOpsOne(s, Step(s, e));
  }

  lemma {:induction false} RunOneRecovery(s: State, events: seq<Event>)
    requires OneRecovery(s)
    ensures OneRecovery(Run(s, events))
    decreases |events|
  {
    if events != [] {
      StepOne(s, events[0]);
      RunOneRecovery(Step(s, events[0]), events[1..]);
    }
  }

  /**
   * From activation on, the recovery runs exactly while one recovery call is pending, never
   * two, and a settings change is remembered only while it runs, so none is left behind.
   */
  lemma OneRecoveryAtATime(client: Client, stored: Option<Deployment>, events: seq<Event>)
    ensures OneRecovery(Run(Initial(client, stored), events))
  {
    RunOneRecovery(Initial(client, stored), events);
  }
}
