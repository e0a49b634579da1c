/**
 * The same re-sending as the code performs it: marks are set on the failed request's config
 * object, and the client is asked to send that config again, which copies it.
 */
module RetryClient {
  import opened Basics
  import opened Retry

  class RequestConfig {
    var certRetried: bool
    var authConfigRetryAttempted: bool
    var retryAttempted: bool

    ghost function Marks(): Flags
      reads this
    {
      Flags(certRetried, authConfigRetryAttempted, retryAttempted)
    }

    constructor (f: Flags)
      ensures Marks() == f
    {
      certRetried, authConfigRetryAttempted, retryAttempted := f.certRetried, f.authConfigRetried, f.retried;
    }
  }

  class Client {
    const world: World
    var sent: nat
    var looked: nat        // the 401s that authentication interceptors have looked at
    ghost var log: seq<Flags>

    constructor (world: World)
      ensures this.world == world && sent == 0 && looked == 0 && log == []
    {
      this.world, sent, looked, log := world, 0, 0, [];
    }

    /** The exchange that the client went through, and the failed config it ended with. */
    ghost predicate Did(e: Exchange, before: nat, looks: nat, logged: seq<Flags>,
                        ok: bool, unauthorized: bool, config: RequestConfig?)
      reads this, config
    {
      && sent == before + |e.sends| && looked == looks + e.looks && log == logged + e.sends
      && Ended(e.outcome, ok, unauthorized, if config == null then None else Some(config.Marks()))
    }

    /** `request(config)`: one send of a fresh copy, and the response interceptors. */
    method Request(config: RequestConfig) returns (ok: bool, unauthorized: bool, failed: RequestConfig?)
      modifies this
      ensures failed != null ==> fresh(failed)
      ensures Did(Retry.Request(world, old(config.Marks()), old(sent), old(looked)), old(sent), old(looked), old(log),
                  ok, unauthorized, failed)
      decreases Unset(config.Marks()), 1
    {
      ghost var f, n, k, logged := config.Marks(), sent, looked, log;
      ghost var e := RefreshCertificate(world, f, n, k);
      var copy := new RequestConfig(Flags(config.certRetried, config.authConfigRetryAttempted, config.retryAttempted));
      ok, unauthorized, failed := TryRefreshClientCertificate(copy);
      ok, unauthorized, failed := HandleError(ok, unauthorized, failed, f, e, n, k, logged);
    }

    /** `handleError`, after exchange `e`: only a 401 with its config is taken up. */
    method HandleError(ok: bool, unauthorized: bool, failed: RequestConfig?,
                       ghost f: Flags, ghost e: Exchange, ghost n: nat, ghost k: nat, ghost logged: seq<Flags>)
      returns (ok': bool, unauthorized': bool, failed': RequestConfig?)
      requires Descends(f, e) && Did(e, n, k, logged, ok, unauthorized, failed)
      modifies this, failed
      ensures failed' != null ==> failed' == failed || fresh(failed')
      ensures Did(Authenticate(world, f, e, n, k), n, k, logged, ok', unauthorized', failed')
      decreases Unset(f), 0, 2
    {
      ok', unauthorized', failed' := ok, unauthorized, failed;
      if ok || !unauthorized {
        OthersPass(world, f, e, n, k);
        return;
      }
      var look := looked;
      looked := looked + 1;
      if !world.hasHost(look) || failed == null {
        Stands(world, f, e, n, k);
        return;
      }
      ok', unauthorized', failed' := RecoverFromUnauthorized(failed, look, f, e, n, k, logged);
    }

    /** The send, and the certificate interceptor. */
    method TryRefreshClientCertificate(config: RequestConfig) returns (ok: bool, unauthorized: bool, failed: RequestConfig?)
      modifies this, config
      ensures failed != null ==> failed == config || fresh(failed)
      ensures Did(RefreshCertificate(world, old(config.Marks()), old(sent), old(looked)), old(sent), old(looked), old(log),
                  ok, unauthorized, failed)
      decreases Unset(config.Marks()), 0
    {
      var reply := world.reply(sent);
      var n := sent;
      sent, log := sent + 1, log + [config.Marks()];
      match reply
      case Success => return true, false, null;
      case Unauthorized(hasConfig) => return false, true, if hasConfig then config else null;
      case OtherError => return false, false, config;
      case CertificateError(refreshable) =>
        if !refreshable || config.certRetried { return false, false, null; }
        config.certRetried := true;
        if !world.refreshes(n) { return false, false, null; }
        ok, unauthorized, failed := Request(config);
    }

    /** The authentication interceptor's look at a 401 that came with its config, after exchange `e`. */
    method RecoverFromUnauthorized(config: RequestConfig, look: nat, ghost f: Flags, ghost e: Exchange, ghost n: nat,
                                   ghost k: nat, ghost logged: seq<Flags>)
      returns (ok: bool, unauthorized: bool, failed: RequestConfig?)
      requires Descends(f, e) && e.outcome == Failed(true, Some(config.Marks()))
      requires world.hasHost(look) && look == k + e.looks && looked == look + 1
      requires sent == n + |e.sends| && log == logged + e.sends
      modifies this, config
      ensures failed != null ==> failed == config || fresh(failed)
      ensures Did(Authenticate(world, f, e, n, k), n, k, logged, ok, unauthorized, failed)
      decreases Unset(f), 0, 1
    {
      UnsetFewer(f, config.Marks());
      ghost var r := Authenticate(world, f, e, n, k);
      if !config.authConfigRetryAttempted && world.settingsChanged(look) {
        config.authConfigRetryAttempted := true;
        ok, unauthorized, failed := RequestAgain(config, f, e, n, k, logged, r);
        return;
      }
      if config.retryAttempted || !world.recovers(look) {
        Stands(world, f, e, n, k);
        return false, true, config;
      }
      config.retryAttempted := true;
      ok, unauthorized, failed := RequestAgain(config, f, e, n, k, logged, r);
    }

    /** `request(error.config)` from an interceptor, with one more mark set. */
    method RequestAgain(config: RequestConfig, ghost f: Flags, ghost e: Exchange, ghost n: nat, ghost k: nat,
                        ghost logged: seq<Flags>, ghost r: Exchange)
      returns (ok: bool, unauthorized: bool, failed: RequestConfig?)
      requires Descends(f, e) && Is401(e) && Ways(world, e, k + e.looks) == Some(config.Marks())
      requires Unset(config.Marks()) < Unset(f) && r == Authenticate(world, f, e, n, k)
      requires sent == n + |e.sends| && looked == k + e.looks + 1 && log == logged + e.sends
      modifies this
      ensures failed != null ==> fresh(failed)
      ensures Did(r, n, k, logged, ok, unauthorized, failed)
      decreases Unset(f), 0, 0
    {
      ghost var next := Retry.Request(world, config.Marks(), sent, looked);
      GoesOn(world, f, e, n, k, config.Marks(), next);
      ConcatAssoc(logged, e.sends, next.sends);
      ok, unauthorized, failed := Request(config);
    }
  }

  predicate Ended(outcome: Outcome, ok: bool, unauthorized: bool, config: Option<Flags>) {
    if ok then outcome == Response else outcome == Failed(unauthorized, config)
  }
}
