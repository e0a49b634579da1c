/** Why a request was sent again, and why it was not, read off the replies and answers it met. */
module RetryTheorems {
  import opened Basics
  import opened Retry

  /** At look `j` the settings have changed, or else a recovery succeeds, and the mark for it is not set. */
  predicate Helps(w: World, j: nat, f: Flags, g: Flags) {
    && w.hasHost(j)
    && (if !f.authConfigRetried && w.settingsChanged(j) then g == f.(authConfigRetried := true)
        else !f.retried && w.recovers(j) && g == f.(retried := true))
  }

  /** Send `i` was followed by the next one for a reason: a refreshed certificate, or help at one of the looks. */
  ghost predicate Justified(w: World, e: Exchange, n: nat, k: nat, i: nat)
    requires i + 1 < |e.sends|
  {
    var f, g := e.sends[i], e.sends[i + 1];
    || (w.reply(n + i) == CertificateError(true) && !f.certRetried && w.refreshes(n + i) && g == f.(certRetried := true))
    || (w.reply(n + i) == Unauthorized(true) && exists j :: k <= j < k + e.looks && Helps(w, j, f, g))
  }

  /** The outcome is what the last reply says, and a certificate error is the last only if it cannot be helped. */
  predicate EndsWith(w: World, e: Exchange, n: nat)
    requires e.sends != []
  {
    var m, f := n + |e.sends| - 1, e.sends[|e.sends| - 1];
    match w.reply(m)
    case Success => e.outcome == Response
    case Unauthorized(hasConfig) => e.outcome == Failed(true, if hasConfig then Some(f) else None)
    case OtherError => e.outcome == Failed(false, Some(f))
    case CertificateError(refreshable) =>
      e.outcome == Failed(false, None) && (!refreshable || f.certRetried || !w.refreshes(m))
  }

  ghost predicate Reasoned(w: World, f: Flags, e: Exchange, n: nat, k: nat) {
    && e.sends != [] && e.sends[0] == f && EndsWith(w, e, n)
    && forall i :: 0 <= i < |e.sends| - 1 ==> Justified(w, e, n, k, i)
  }

  lemma ResentReasoned(w: World, f: Flags, next: Exchange, n: nat, k: nat)
    requires Reasoned(w, f.(certRetried := true), next, n + 1, k)
    requires w.reply(n) == CertificateError(true) && !f.certRetried && w.refreshes(n)
    ensures Reasoned(w, f, Resent(f, next), n, k)
  {
    var e := Resent(f, next);
    forall i | 0 <= i < |e.sends| - 1 ensures Justified(w, e, n, k, i) {
      if i > 0 {
        assert Justified(w, next, n + 1, k, i - 1) && n + 1 + (i - 1) == n + i;
        assert e.sends[i] == next.sends[i - 1] && e.sends[i + 1] == next.sends[i];
      }
    }
    assert n + 1 + |next.sends| - 1 == n + |e.sends| - 1;
  }

  lemma JoinedReasoned(w: World, f: Flags, e: Exchange, next: Exchange, g: Flags, n: nat, k: nat)
    requires Reasoned(w, f, e, n, k) && Is401(e) && e.outcome.config.Some?
    requires Reasoned(w, g, next, n + |e.sends|, k + e.looks + 1) && Helps(w, k + e.looks, e.outcome.config.value, g)
    ensures Reasoned(w, f, Joined(e, next), n, k)
  {
    var r, m := Joined(e, next), |e.sends|;
    forall i | 0 <= i < |r.sends| - 1 ensures Justified(w, r, n, k, i) {
      if i < m - 1 {
        JustifiedLater(w, e, r, n, k, i);
      } else if i == m - 1 {
        assert r.sends[i] == e.outcome.config.value && r.sends[i + 1] == g && w.reply(n + i) == Unauthorized(true);
        assert k <= k + e.looks < k + r.looks;
      } else {
        JustifiedShifted(w, e, next, n, k, i);
      }
    }
    assert n + m + |next.sends| - 1 == n + |r.sends| - 1;
  }

  lemma JustifiedLater(w: World, e: Exchange, r: Exchange, n: nat, k: nat, i: nat)
    requires i + 1 < |e.sends| && e.sends <= r.sends && e.looks <= r.looks && Justified(w, e, n, k, i)
    ensures Justified(w, r, n, k, i)
  {
    assert r.sends[i] == e.sends[i] && r.sends[i + 1] == e.sends[i + 1];
  }

  lemma JustifiedShifted(w: World, e: Exchange, next: Exchange, n: nat, k: nat, i: nat)
    requires |e.sends| <= i < |e.sends| + |next.sends| - 1
    requires Justified(w, next, n + |e.sends|, k + e.looks + 1, i - |e.sends|)
    ensures Justified(w, Joined(e, next), n, k, i)
  {
    var m, r := |e.sends|, Joined(e, next);
    assert r.sends[i] == next.sends[i - m] && r.sends[i + 1] == next.sends[i + 1 - m];
    assert n + m + (i - m) == n + i && k + e.looks + 1 + next.looks == k + r.looks;
  }

  lemma {:induction false} RefreshReasoned(w: World, f: Flags, n: nat, k: nat)
    ensures Reasoned(w, f, RefreshCertificate(w, f, n, k), n, k)
    decreases Unset(f), 1
  {
    if w.reply(n) == CertificateError(true) && !f.certRetried && w.refreshes(n) {
      var next := Request(w, f.(certRetried := true), n + 1, k);
      RequestReasoned(w, f.(certRetried := true), n + 1, k);
      RefreshAdds(w, f, n, k, next);
      ResentReasoned(w, f, next, n, k);
    } else {
      assert RefreshCertificate(w, f, n, k).sends == [f];
    }
  }

  lemma WaysHelp(w: World, e: Exchange, j: nat)
    ensures Ways(w, e, j).Some? ==> Is401(e) && e.outcome.config.Some? && Helps(w, j, e.outcome.config.value, Ways(w, e, j).value)
  {
  }

  lemma {:induction false} AuthenticateReasoned(w: World, f: Flags, e: Exchange, n: nat, k: nat, r: Exchange)
    requires Reasoned(w, f, e, n, k) && Descends(f, e) && r == Authenticate(w, f, e, n, k)
    ensures Reasoned(w, f, r, n, k)
    decreases Unset(f), 0
  {
    var next := Ways(w, e, k + e.looks);
    WaysHelp(w, e, k + e.looks);
    if !Is401(e) {
      OthersPass(w, f, e, n, k);
    } else if next.None? {
      Stands(w, f, e, n, k);
      LookedReasoned(w, f, e, n, k);
    } else {
      GoesOn(w, f, e, n, k, next.value, Request(w, next.value, n + |e.sends|, k + e.looks + 1));
      AgainReasoned(w, f, e, n, k, next.value, Request(w, next.value, n + |e.sends|, k + e.looks + 1));
    }
  }

  lemma {:induction false} AgainReasoned(w: World, f: Flags, e: Exchange, n: nat, k: nat, g: Flags, again: Exchange)
    requires Reasoned(w, f, e, n, k) && Is401(e) && e.outcome.config.Some? && Helps(w, k + e.looks, e.outcome.config.value, g)
    requires again == Request(w, g, n + |e.sends|, k + e.looks + 1)
    ensures Reasoned(w, f, Joined(e, again), n, k)
    decreases Unset(g), 3
  {
    RequestReasoned(w, g, n + |e.sends|, k + e.looks + 1);
    JoinedReasoned(w, f, e, again, g, n, k);
  }

  lemma LookedReasoned(w: World, f: Flags, e: Exchange, n: nat, k: nat)
    requires Reasoned(w, f, e, n, k)
    ensures Reasoned(w, f, Looked(e), n, k)
  {
    forall i | 0 <= i < |e.sends| - 1 ensures Justified(w, Looked(e), n, k, i) { JustifiedLater(w, e, Looked(e), n, k, i); }
  }

  /**
   * Every re-send has its reason: a refreshable certificate error whose refresh succeeded, or a
   * 401 of a client with a host after which the settings had changed, or else a recovery
   * succeeded, each once. And the request ends as its last reply says, a certificate error only
   * where no refresh is left to try.
   */
  lemma {:induction false} RequestReasoned(w: World, f: Flags, n: nat, k: nat)
    ensures Reasoned(w, f, Request(w, f, n, k), n, k)
    decreases Unset(f), 2
  {
    RefreshReasoned(w, f, n, k);
    AuthenticateReasoned(w, f, RefreshCertificate(w, f, n, k), n, k, Request(w, f, n, k));
  }

  /** Look `j` found nothing that helps. */
  predicate NothingHelps(w: World, e: Exchange, j: nat)
    requires Is401(e)
  {
    || !w.hasHost(j) || e.outcome.config.None?
    || ((e.outcome.config.value.authConfigRetried || !w.settingsChanged(j))
        && (e.outcome.config.value.retried || !w.recovers(j)))
  }

  lemma ExhaustedExactly(w: World, e: Exchange, k: nat)
    ensures Exhausted(w, e, k) <==> (Is401(e) ==> e.looks > 0 && NothingHelps(w, e, k + e.looks - 1))
  {
  }

  /** A 401 that the caller sees was looked at last with no host, without its config, or where nothing was left to help. */
  lemma LastLookFoundNothing(w: World, f: Flags, n: nat, k: nat, e: Exchange)
    requires e == Request(w, f, n, k)
    ensures Is401(e) ==> e.looks > 0 && NothingHelps(w, e, k + e.looks - 1)
  {
    GivesUpOnlyExhausted(w, f, n, k);
    ExhaustedExactly(w, e, k);
  }
}
