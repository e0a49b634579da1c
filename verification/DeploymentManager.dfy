/**
 * The classes of src/deployment/sessionStore.ts and src/deployment/deploymentManager.ts with
 * their fields updated in place; every method is proved to do to `View()` what the protocol
 * says. Suspended calls are kept in the ghost `ops`; the secret store's current deployment is
 * the field `stored`.
 */
module DeploymentManagers {
  import opened Basics
  import opened DeploymentProtocol

  class SessionStore {
    var data: SessionData
    var identity: nat    // stands for the identity of the object `data`

    constructor ()
      ensures data == SignedOut(None) && identity == 0
    {
      data, identity := SignedOut(None), 0;
    }

    method Transition(next: SessionData) returns (ref: nat)
      modifies this
      ensures data == next && identity == old(identity) + 1 == ref
    {
      data, identity := next, identity + 1;
      ref := identity;
    }
  }

  class DeploymentManager {
    const sessionStore: SessionStore
    var disposed: bool
    var authListener: Option<string>
    var recoveryRunning: bool
    var recoveryPending: bool
    var client: Client
    var authenticated: bool
    var owner: bool
    var stored: Option<Deployment>
    ghost var signer: nat
    ghost var writer: nat
    ghost var ops: map<nat, Op>
    ghost var next: nat

    ghost function View(): State
      reads this, sessionStore
    {
      State(sessionStore.data, sessionStore.identity, signer, disposed, authListener, recoveryRunning, recoveryPending,
            client, authenticated, owner, stored, writer, ops, next)
    }

    constructor (client: Client, stored: Option<Deployment>)
      ensures View() == Initial(client, stored) && fresh(sessionStore)
    {
      sessionStore := new SessionStore();
      disposed, authListener, recoveryRunning, recoveryPending := false, None, false, false;
      this.client, authenticated, owner, this.stored := client, false, false, stored;
      signer, writer, ops, next := 0, 0, map[], 0;
    }

    /** `setDeployment` up to its await, run by call `k`. */
    method SetDeployment(ghost k: nat, d: Deployment, token: Option<string>, user: User, ghost recovery: bool)
      modifies this, sessionStore
      ensures View() == SignIn(old(View()), k, d, token, user, recovery)
    {
      if token.None? {
        client := client.(host := Some(d.url));
      } else {
        client := Client(Some(d.url), token);
      }
      var ourRef := sessionStore.Transition(SignedIn(d, user));
      signer := k;
      authListener := Some(d.safeHostname);
      authenticated, owner := true, user.isOwner;
      ops := ops[k := SettingUp(ourRef, d, recovery)];
    }

    method Login(d: Deployment, token: Option<string>, user: User)
      modifies this, sessionStore
      ensures View() == LogIn(old(View()), d, token, user)
    {
      ghost var k := next;
      next := next + 1;
      SetDeployment(k, d, token, user, false);
    }

    method ClearAuthState()
      modifies this`client, this`authenticated, this`owner
      ensures client == NO_CREDENTIALS && !authenticated && !owner
    {
      client := NO_CREDENTIALS;
      authenticated, owner := false, false;
    }

    method ClearDeployment()
      modifies this, sessionStore
      ensures View() == Clear(old(View()))
    {
      authListener := None;
      var ref := sessionStore.Transition(SignedOut(None));
      ClearAuthState();
      stored := None;
    }

    method SuspendSession()
      modifies this, sessionStore
      ensures View() == Suspend(old(View()))
    {
      var ref := sessionStore.Transition(SignedOut(DeploymentOf(sessionStore.data)));
      ClearAuthState();
    }

    method Dispose()
      modifies this
      ensures View() == Step(old(View()), DisposeManager)
    {
      disposed := true;
      authListener := None;
    }

    /** `verifyAndApplySession` up to its await; the object read before it goes into the call. */
    method VerifyAndApplySession(d: Deployment, token: Option<string>, ghost recovery: bool)
      modifies this`ops, this`next
      ensures View() == Apply(old(View()), d, token, recovery)
    {
      ghost var sessionBefore := sessionStore.identity;
      ops := ops[next := Applying(sessionBefore, d, token, recovery)];
      next := next + 1;
    }

    method VerifyAndUpdateSession(d: Deployment, newToken: string)
      modifies this`ops, this`next
      ensures View() == Begin(old(View()), Updating(old(View()).transitions, d, newToken))
    {
      ops := ops[next := Updating(sessionStore.identity, d, newToken)];
      next := next + 1;
    }

    method HasStateChangedSince(sessionBefore: nat) returns (changed: bool)
      ensures changed == Moved(View(), sessionBefore)
    {
      changed := disposed || sessionStore.data.SignedIn? || sessionStore.identity != sessionBefore;
    }

    /** The verification of an apply has answered. */
    method ApplyVerified(ghost k: nat, op: Op, secret: Option<string>, who: Option<User>)
      requires op.Applying? && k in ops && ops[k] == op
      modifies this, sessionStore
      ensures View() == Step(old(View()), Checked(k, secret, who))
    {
      if who.None? {
        CallSettled(k, op.recovery);
        return;
      }
      var changed := HasStateChangedSince(op.before);
      if changed {
        CallSettled(k, op.recovery);
        return;
      }
      SetDeployment(k, op.deployment, if op.token.Some? then op.token else secret, who.value, op.recovery);
    }

    /** The verification of a token update has answered. */
    method UpdateVerified(ghost k: nat, op: Op, who: Option<User>)
      requires op.Updating? && k in ops && ops[k] == op
      modifies this, sessionStore
      ensures View() == Step(old(View()), Checked(k, None, who))
    {
      if who.None? || disposed {
        ops := ops - {k};
        return;
      }
      var current := sessionStore.data;
      if sessionStore.identity == op.before {
        if current.SignedIn? && current.user.id == who.value.id {
          client := Client(Some(op.deployment.url), Some(op.newToken));
          ops := ops - {k};
        } else {
          SetDeployment(k, op.deployment, Some(op.newToken), who.value, false);
        }
        return;
      }
      if current.SignedOut? && HostOf(current) == Some(op.deployment.safeHostname) {
        SetDeployment(k, op.deployment, Some(op.newToken), who.value, false);
      } else {
        ops := ops - {k};
      }
    }

    /** The OAuth set-up has settled: the rest of `setDeployment`. */
    method OAuthSettled(ghost k: nat, op: Op, ok: bool)
      requires op.SettingUp? && k in ops && ops[k] == op
      modifies this
      ensures View() == Step(old(View()), OAuthReady(k, ok))
    {
      if ok && sessionStore.identity == op.ref {
        stored := Some(op.deployment);
        writer := k;
      }
      CallSettled(k, op.recovery);
    }

    /** The call returns; the recovery loop, if it made the call, goes on. */
    method CallSettled(ghost k: nat, recovery: bool)
      modifies this`ops, this`next, this`recoveryRunning, this`recoveryPending
      ensures View() == Settled(old(View()), k, recovery)
    {
      ops := ops - {k};
      if recovery {
        if recoveryPending {
          RecoveryLoop();
        } else {
          recoveryRunning := false;
        }
      }
    }

    method RecoveryLoop()
      modifies this`ops, this`next, this`recoveryRunning, this`recoveryPending
      ensures View() == RecoveryPass(old(View()))
    {
      recoveryPending := false;
      var deployment := DeploymentOf(sessionStore.data);
      if disposed || deployment.None? || sessionStore.data.SignedIn? {
        recoveryRunning := false;
        return;
      }
      VerifyAndApplySession(deployment.value, None, true);
    }

    method OnAuthConfigChange()
      requires !disposed
      modifies this`ops, this`next, this`recoveryRunning, this`recoveryPending
      ensures View() == Step(old(View()), ConfigEvent)
    {
      if recoveryRunning {
        recoveryPending := true;
        return;
      }
      recoveryRunning := true;
      RecoveryLoop();
    }

    /** The listener registered for `host` hears of a change. */
    method OnSessionAuthChanged(host: string, auth: Option<(string, string)>)
      requires authListener == Some(host)
      modifies this, sessionStore
      ensures View() == Step(old(View()), AuthEvent(host, auth))
    {
      if HostOf(sessionStore.data) != Some(host) { return; }
      if auth.None? {
        ClearDeployment();
        return;
      }
      var d := Deployment(auth.value.0, host);
      if sessionStore.data.SignedIn? {
        VerifyAndUpdateSession(d, auth.value.1);
      } else {
        VerifyAndApplySession(d, Some(auth.value.1), false);
      }
    }

    method OnCurrentDeploymentChanged(other: Option<Deployment>)
      requires !disposed
      modifies this`ops, this`next
      ensures View() == Step(old(View()), OtherWindow(other))
    {
      if sessionStore.data.SignedIn? { return; }
      if other.Some? {
        VerifyAndApplySession(other.value, None, false);
      }
    }
  }
}
