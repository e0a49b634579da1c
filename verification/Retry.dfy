/**
 * Re-sending a request (src/api/authInterceptor.ts and `tryRefreshClientCertificate` in
 * src/api/coderApi.ts). A re-sent request runs through the whole interceptor chain again,
 * inside the handler that re-sent it, and its failure comes back to that handler's chain.
 */
module Retry {
  import opened Basics

  /** The three marks on the request's config. They travel with it and are never cleared. */
  datatype Flags = Flags(certRetried: bool, authConfigRetried: bool, retried: bool)

  const UNMARKED := Flags(false, false, false)

  datatype Reply = Success | CertificateError(refreshable: bool) | Unauthorized(hasConfig: bool) | OtherError

  /**
   * The outside. By the number of the send: the reply it gets, and whether refreshing
   * certificates then succeeds. By the number of the look an authentication interceptor takes at
   * a 401: whether the client has a host, whether the authentication settings changed since the
   * request, and whether a token refresh or a new login provides a token. The 401 of a nested
   * send is looked at by each chain it passes, and each time the answers may differ.
   */
  datatype World = World(
    reply: nat -> Reply,
    refreshes: nat -> bool,
    hasHost: nat -> bool,
    settingsChanged: nat -> bool,
    recovers: nat -> bool)

  /** A failure carries the config it happened with, if any. */
  datatype Outcome = Response | Failed(unauthorized: bool, config: Option<Flags>)

  /** What came of a request, the flags of every send it took, in order, and the looks at a 401. */
  datatype Exchange = Exchange(outcome: Outcome, sends: seq<Flags>, looks: nat)

  function Unset(f: Flags): nat {
    (if f.certRetried then 0 else 1) + (if f.authConfigRetried then 0 else 1) + (if f.retried then 0 else 1)
  }

  predicate Within(f: Flags, g: Flags) {
    && (f.certRetried ==> g.certRetried) && (f.authConfigRetried ==> g.authConfigRetried) && (f.retried ==> g.retried)
  }

  /** Each send carries the marks of the one before and at least one more. */
  predicate Growing(sends: seq<Flags>) {
    forall i :: 0 <= i < |sends| - 1 ==> Within(sends[i], sends[i + 1]) && sends[i] != sends[i + 1]
  }

  predicate Follows(f: Flags, e: Exchange) {
    && e.sends != [] && Growing(e.sends)
    && (e.outcome.Failed? && e.outcome.config.Some? ==> e.outcome.config.value == e.sends[|e.sends| - 1])
  }

  /** The config that a request sent with the marks `f` fails with has them still. */
  predicate Descends(f: Flags, e: Exchange) {
    e.outcome.Failed? && e.outcome.config.Some? ==> Within(f, e.outcome.config.value)
  }

  /** Send number `n` and the two interceptors its result passes; `k` looks were taken before. */
  function Request(w: World, f: Flags, n: nat, k: nat): (e: Exchange)
    ensures Descends(f, e)
    decreases Unset(f), 1
  {
    Authenticate(w, f, RefreshCertificate(w, f, n, k), n, k)
  }

  function RefreshCertificate(w: World, f: Flags, n: nat, k: nat): (e: Exchange)
    ensures Descends(f, e)
    decreases Unset(f), 0
  {
    match w.reply(n)
    case Success => Exchange(Response, [f], 0)
    case Unauthorized(hasConfig) => Exchange(Failed(true, if hasConfig then Some(f) else None), [f], 0)
    case OtherError => Exchange(Failed(false, Some(f)), [f], 0)
    case CertificateError(refreshable) =>
      if !refreshable || f.certRetried || !w.refreshes(n) then Exchange(Failed(false, None), [f], 0)
      else Resent(f, Request(w, f.(certRetried := true), n + 1, k))
  }

  /** The send so far, then those of the re-sent request, whose outcome counts. */
  function Resent(f: Flags, next: Exchange): Exchange {
    next.(sends := [f] + next.sends)
  }

  predicate Is401(e: Exchange) {
    e.outcome.Failed? && e.outcome.unauthorized
  }

  /** Look number `k`: only the 401 of a client with a host, and with its config, is taken up. */
  predicate TakenUp(w: World, e: Exchange, k: nat) {
    Is401(e) && w.hasHost(k) && e.outcome.config.Some?
  }

  /** The marks a 401 is sent again with: after new settings, or after a recovery, each at most once. */
  function NextFlags(w: World, g: Flags, k: nat): (next: Option<Flags>)
    ensures next.Some? ==> Within(g, next.value) && g != next.value && Unset(next.value) < Unset(g)
  {
    if !g.authConfigRetried && w.settingsChanged(k) then Some(g.(authConfigRetried := true))
    else if g.retried || !w.recovers(k) then None
    else Some(g.(retried := true))
  }

  /** What a look at the 401 of `e` makes of it. */
  function Ways(w: World, e: Exchange, k: nat): Option<Flags> {
    if TakenUp(w, e, k) then NextFlags(w, e.outcome.config.value, k) else None
  }

  /** `handleError` of the authentication interceptor, after `e`. */
  function Authenticate(w: World, f: Flags, e: Exchange, n: nat, k: nat): (r: Exchange)
    requires Descends(f, e)
    ensures Descends(f, r)
    decreases Unset(f), 0
  {
    if !Is401(e) then e
    else
      var next := Ways(w, e, k + e.looks);
      if next.None? then Looked(e)
      else
        UnsetFewer(f, e.outcome.config.value);
        Joined(e, Request(w, next.value, n + |e.sends|, k + e.looks + 1))
  }

  function Looked(e: Exchange): Exchange {
    e.(looks := e.looks + 1)
  }

  function Joined(e: Exchange, next: Exchange): Exchange {
    Exchange(next.outcome, e.sends + next.sends, e.looks + 1 + next.looks)
  }

  /** A 401 that finds no way out stands. */
  lemma Stands(w: World, f: Flags, e: Exchange, n: nat, k: nat)
    requires Descends(f, e) && Is401(e) && Ways(w, e, k + e.looks).None?
    ensures Authenticate(w, f, e, n, k) == Looked(e)
  {
  }

  /** Otherwise the request is sent again with the marks found, and the new exchange counts. */
  lemma GoesOn(w: World, f: Flags, e: Exchange, n: nat, k: nat, g: Flags, again: Exchange)
    requires Descends(f, e) && Is401(e) && Ways(w, e, k + e.looks) == Some(g)
    requires again == Request(w, g, n + |e.sends|, k + e.looks + 1)
    ensures Within(e.outcome.config.value, g) && e.outcome.config.value != g && Unset(g) < Unset(f)
    ensures Authenticate(w, f, e, n, k) == Joined(e, again)
  {
    UnsetFewer(f, e.outcome.config.value);
  }

  lemma OthersPass(w: World, f: Flags, e: Exchange, n: nat, k: nat)
    requires Descends(f, e) && !Is401(e)
    ensures Authenticate(w, f, e, n, k) == e
  {
  }

  /** The 401 that the exchange ended with was looked at, and the last look found no way out. */
  predicate Exhausted(w: World, e: Exchange, k: nat) {
    Is401(e) ==> e.looks > 0 && Ways(w, e, k + e.looks - 1).None?
  }

  lemma LookedExhausted(w: World, e: Exchange, k: nat)
    requires Ways(w, e, k + e.looks).None?
    ensures Exhausted(w, Looked(e), k)
  {
    assert k + Looked(e).looks - 1 == k + e.looks;
  }

  lemma JoinedExhausted(w: World, e: Exchange, again: Exchange, k: nat)
    requires Exhausted(w, again, k + e.looks + 1)
    ensures Exhausted(w, Joined(e, again), k)
  {
    assert k + Joined(e, again).looks - 1 == k + e.looks + 1 + again.looks - 1;
  }

  lemma StandsExhausted(w: World, f: Flags, e: Exchange, n: nat, k: nat)
    requires Descends(f, e) && Ways(w, e, k + e.looks).None?
    ensures Exhausted(w, Authenticate(w, f, e, n, k), k)
  {
    if Is401(e) {
      Stands(w, f, e, n, k);
      LookedExhausted(w, e, k);
    } else {
      OthersPass(w, f, e, n, k);
    }
  }

  lemma {:induction false} GoesOnExhausted(w: World, f: Flags, e: Exchange, n: nat, k: nat, g: Flags)
    requires Descends(f, e) && Ways(w, e, k + e.looks) == Some(g)
    ensures Exhausted(w, Authenticate(w, f, e, n, k), k)
    decreases Unset(f), 0, 0
  {
    var m := n + |e.sends|;
    var again := Request(w, g, m, k + e.looks + 1);
    GoesOn(w, f, e, n, k, g, again);
    var r := Authenticate(w, f, e, n, k);
    assert r == Joined(e, again);
    AgainExhausts(w, e, g, m, k);
    assert Exhausted(w, Joined(e, again), k);
    assert Exhausted(w, r, k);
  }

  lemma {:induction false} AuthenticateExhausts(w: World, f: Flags, e: Exchange, n: nat, k: nat)
    requires Descends(f, e)
    ensures Exhausted(w, Authenticate(w, f, e, n, k), k)
    decreases Unset(f), 0, 1
  {
    var next := Ways(w, e, k + e.looks);
    if next.None? { StandsExhausted(w, f, e, n, k); } else { GoesOnExhausted(w, f, e, n, k, next.value); }
  }

  lemma {:induction false} AgainExhausts(w: World, e: Exchange, g: Flags, n: nat, k: nat)
    ensures Exhausted(w, Joined(e, Request(w, g, n, k + e.looks + 1)), k)
    decreases Unset(g), 2
  {
    GivesUpOnlyExhausted(w, g, n, k + e.looks + 1);
    JoinedExhausted(w, e, Request(w, g, n, k + e.looks + 1), k);
  }

  /**
   * A 401 reaches the caller only when it cannot be helped: with a host to talk to and the
   * request at hand, either re-send after new settings and the re-send after a recovery have
   * been used up, or at the last look there are no new settings and no recovery succeeds.
   */
  lemma {:induction false} GivesUpOnlyExhausted(w: World, f: Flags, n: nat, k: nat)
    ensures Exhausted(w, Request(w, f, n, k), k)
    decreases Unset(f), 1
  {
    AuthenticateExhausts(w, f, RefreshCertificate(w, f, n, k), n, k);
  }

  lemma UnsetFewer(f: Flags, g: Flags)
    requires Within(f, g)
    ensures Unset(g) <= Unset(f) && (f != g ==> Unset(g) < Unset(f))
  {
  }

  // ----- every send carries more marks than the one before -----

  lemma ResentFollows(f: Flags, next: Exchange)
    requires next.sends != [] && Follows(next.sends[0], next) && Within(f, next.sends[0]) && f != next.sends[0]
    ensures Follows(f, Resent(f, next)) && Resent(f, next).sends[0] == f
  {
  }

  lemma JoinedFollows(e: Exchange, next: Exchange)
    requires e.sends != [] && next.sends != [] && Growing(e.sends) && Follows(next.sends[0], next)
    requires Within(e.sends[|e.sends| - 1], next.sends[0]) && e.sends[|e.sends| - 1] != next.sends[0]
    ensures Follows(e.sends[0], Joined(e, next)) && Joined(e, next).sends[0] == e.sends[0]
  {
    var r := Joined(e, next);
    assert forall i :: 0 <= i < |r.sends| - 1 ==>
      r.sends[i] == (if i < |e.sends| then e.sends[i] else next.sends[i - |e.sends|]);
  }

  lemma {:induction false} RefreshFollows(w: World, f: Flags, n: nat, k: nat)
    ensures Follows(f, RefreshCertificate(w, f, n, k)) && RefreshCertificate(w, f, n, k).sends[0] == f
    decreases Unset(f), 1
  {
    if w.reply(n) == CertificateError(true) && !f.certRetried && w.refreshes(n) {
      var next := Request(w, f.(certRetried := true), n + 1, k);
      RequestFollows(w, f.(certRetried := true), n + 1, k);
      RefreshAdds(w, f, n, k, next);
      ResentFollows(f, next);
    } else {
      assert RefreshCertificate(w, f, n, k).sends == [f];
    }
  }

  lemma {:induction false} AuthenticateFollows(w: World, f: Flags, e: Exchange, n: nat, k: nat, r: Exchange)
    requires Follows(f, e) && e.sends[0] == f && Descends(f, e) && r == Authenticate(w, f, e, n, k)
    ensures Follows(f, r) && r.sends[0] == f
    decreases Unset(f), 0
  {
    var next := Ways(w, e, k + e.looks);
    if !Is401(e) {
      OthersPass(w, f, e, n, k);
    } else if next.None? {
      Stands(w, f, e, n, k);
    } else {
      var m, l := n + |e.sends|, k + e.looks + 1;
      var again := Request(w, next.value, m, l);
      GoesOn(w, f, e, n, k, next.value, again);
      assert r == Joined(e, again);
      RequestFollows(w, next.value, m, l);
      JoinedFollows(e, again);
    }
  }

  /** However often a request is sent, each send has the marks of the one before and at least one more. */
  lemma {:induction false} RequestFollows(w: World, f: Flags, n: nat, k: nat)
    ensures Follows(f, Request(w, f, n, k)) && Request(w, f, n, k).sends[0] == f
    decreases Unset(f), 2
  {
    RefreshFollows(w, f, n, k);
    AuthenticateFollows(w, f, RefreshCertificate(w, f, n, k), n, k, Request(w, f, n, k));
  }

  /** There are no more sends than marks left to set, plus one. */
  lemma {:induction false} GrowingIsShort(sends: seq<Flags>)
    requires sends != [] && Growing(sends)
    ensures |sends| <= 1 + Unset(sends[0])
  {
    if |sends| > 1 {
      GrowingIsShort(sends[1..]);
      UnsetFewer(sends[0], sends[1]);
    }
  }

  lemma {:induction false} GrowingIsDistinct(sends: seq<Flags>, i: nat, j: nat)
    requires Growing(sends) && i < j < |sends|
    ensures sends[i] != sends[j] && Within(sends[i], sends[j])
    decreases j - i
  {
    if i + 1 < j { GrowingIsDistinct(sends, i + 1, j); }
  }

  /**
   * Whatever the servers, certificates, settings and users do, a request is sent at most four
   * times, and never twice with the same marks.
   */
  lemma SentAtMostFourTimes(w: World)
    ensures 1 <= |Request(w, UNMARKED, 0, 0).sends| <= 4
    ensures Distinct(Request(w, UNMARKED, 0, 0).sends)
  {
    var sends := Request(w, UNMARKED, 0, 0).sends;
    RequestFollows(w, UNMARKED, 0, 0);
    GrowingIsShort(sends);
    forall i, j | 0 <= i < j < |sends| ensures sends[i] != sends[j] { GrowingIsDistinct(sends, i, j); }
  }

  /** A 401 that is sent again adds its send to those of the re-sent request. */
  lemma UnauthorizedSends(w: World, f: Flags, n: nat, k: nat)
    requires w.reply(n) == Unauthorized(true) && w.hasHost(k)
    ensures var next := NextFlags(w, f, k);
            Request(w, f, n, k) == if next.None? then Exchange(Failed(true, Some(f)), [f], 1)
                                   else Joined(Exchange(Failed(true, Some(f)), [f], 0), Request(w, next.value, n + 1, k + 1))
  {
    var e := RefreshCertificate(w, f, n, k);
    assert e == Exchange(Failed(true, Some(f)), [f], 0);
    var next := NextFlags(w, f, k);
    if next.None? { Stands(w, f, e, n, k); } else { GoesOn(w, f, e, n, k, next.value, Request(w, next.value, n + 1, k + 1)); }
  }

  lemma AuthenticateAdds(w: World, f: Flags, e: Exchange, n: nat, k: nat)
    requires Descends(f, e)
    ensures |Authenticate(w, f, e, n, k).sends| >= |e.sends|
  {
    var next := Ways(w, e, k + e.looks);
    if !Is401(e) {
      OthersPass(w, f, e, n, k);
    } else if next.None? {
      Stands(w, f, e, n, k);
    } else {
      GoesOn(w, f, e, n, k, next.value, Request(w, next.value, n + |e.sends|, k + e.looks + 1));
    }
  }

  lemma RefreshAdds(w: World, f: Flags, n: nat, k: nat, next: Exchange)
    requires w.reply(n) == CertificateError(true) && !f.certRetried && w.refreshes(n)
    requires next == Request(w, f.(certRetried := true), n + 1, k)
    ensures RefreshCertificate(w, f, n, k) == next.(sends := [f] + next.sends)
  {
  }

  /** A refreshed certificate adds its send; the authentication interceptor can only add more. */
  lemma RefreshedSends(w: World, f: Flags, n: nat, k: nat)
    requires w.reply(n) == CertificateError(true) && !f.certRetried && w.refreshes(n)
    ensures |Request(w, f, n, k).sends| >= 1 + |Request(w, f.(certRetried := true), n + 1, k).sends|
  {
    RefreshAdds(w, f, n, k, Request(w, f.(certRetried := true), n + 1, k));
    AuthenticateAdds(w, f, RefreshCertificate(w, f, n, k), n, k);
  }

  const CERTIFICATE := Flags(true, false, false)
  const SETTINGS := Flags(true, true, false)
  const RECOVERED := Flags(true, false, true)

  lemma TwoSends(w: World, n: nat, k: nat)
    requires w.reply(n) == Unauthorized(true) && w.hasHost(k) && w.recovers(k)
    ensures |Request(w, SETTINGS, n, k).sends| >= 2
  {
    UnauthorizedSends(w, SETTINGS, n, k);
    assert NextFlags(w, SETTINGS, k).Some?;
  }

  lemma ThreeSends(w: World, n: nat, k: nat)
    requires w.reply(n) == Unauthorized(true) && w.hasHost(k) && w.settingsChanged(k)
    requires w.reply(n + 1) == Unauthorized(true) && w.hasHost(k + 1) && w.recovers(k + 1)
    ensures |Request(w, CERTIFICATE, n, k).sends| >= 3
  {
    UnauthorizedSends(w, CERTIFICATE, n, k);
    assert NextFlags(w, CERTIFICATE, k) == Some(SETTINGS);
    TwoSends(w, n + 1, k + 1);
  }

  /** A certificate refresh, a settings change and a recovery, one after the other. */
  lemma FourSends(w: World, n: nat, k: nat)
    requires w.reply(n) == CertificateError(true) && w.refreshes(n)
    requires w.reply(n + 1) == Unauthorized(true) && w.hasHost(k) && w.settingsChanged(k)
    requires w.reply(n + 1 + 1) == Unauthorized(true) && w.hasHost(k + 1) && w.recovers(k + 1)
    ensures |Request(w, UNMARKED, n, k).sends| >= 4
  {
    RefreshedSends(w, UNMARKED, n, k);
    ThreeSends(w, n + 1, k);
  }

  /** A certificate error, then only unauthorized replies; everything that may help does. */
  lemma HelpfulWorld() returns (w: World)
    ensures w.reply(0) == CertificateError(true) && forall k :: 0 < k ==> w.reply(k) == Unauthorized(true)
    ensures forall k :: w.refreshes(k) && w.hasHost(k) && w.settingsChanged(k) && w.recovers(k)
  {
    w := World(n => if n == 0 then CertificateError(true) else Unauthorized(true),
               n => true, n => true, n => true, n => true);
  }

  /** The bound is met. */
  lemma FourSendsHappen()
    ensures exists w: World :: |Request(w, UNMARKED, 0, 0).sends| == 4
  {
    var w := HelpfulWorld();
    FourSends(w, 0, 0);
    SentAtMostFourTimes(w);
  }

  /** The inner chain's interceptor is refused a recovery of the 401. */
  lemma InnerDeclined(w: World, n: nat, k: nat)
    requires w.reply(n) == Unauthorized(true) && w.hasHost(k) && !w.settingsChanged(k) && !w.recovers(k)
    ensures Request(w, CERTIFICATE, n, k) == Exchange(Failed(true, Some(CERTIFICATE)), [CERTIFICATE], 1)
  {
    UnauthorizedSends(w, CERTIFICATE, n, k);
  }

  /**
   * One 401 after a refreshed certificate is looked at twice: the chain of the re-sent request
   * is refused a recovery, the chain of the first send asks again, and its recovery sends again.
   */
  lemma OuterAsksAgain(w: World)
    requires w.reply(0) == CertificateError(true) && w.refreshes(0)
    requires w.reply(1) == Unauthorized(true) && w.reply(2) == Success
    requires forall k :: w.hasHost(k) && !w.settingsChanged(k) && (w.recovers(k) <==> k == 1)
    ensures Request(w, UNMARKED, 0, 0) == Exchange(Response, [UNMARKED, CERTIFICATE, RECOVERED], 2)
  {
    InnerDeclined(w, 1, 0);
    RefreshAdds(w, UNMARKED, 0, 0, Request(w, CERTIFICATE, 1, 0));
    var e := Exchange(Failed(true, Some(CERTIFICATE)), [UNMARKED, CERTIFICATE], 1);
    assert RefreshCertificate(w, UNMARKED, 0, 0) == e;
    assert Ways(w, e, 1) == Some(RECOVERED);
    GoesOn(w, UNMARKED, e, 0, 0, RECOVERED, Request(w, RECOVERED, 2, 2));
    assert Request(w, RECOVERED, 2, 2) == Exchange(Response, [RECOVERED], 0);
  }
}
