/**
 * SSH authorities (src/util/authority.ts): the printer and the parser of
 * `ssh-remote+coder-vscode.<host>--<user>--<workspace>[.<agent>]`, and exactly when
 * they agree. The separator is ambiguous, so this is a matter of how `--` aligns.
 */
module Authority {
  import opened Basics
  import opened Text

  datatype Parts = Parts(agent: string, sshHost: string, safeHostname: string, username: string, workspace: string)

  datatype AuthorityError = InvalidAuthority

  const HOST_PREFIX := "coder-vscode."
  const SCHEME := "ssh-remote"

  /** `null` is `Ok(None)`; a thrown error is `Err`. */
  function ParseRemoteAuthority(authority: string): Result<Option<Parts>, AuthorityError> {
    var authorityParts := Split(authority, "+");
    if |authorityParts| < 2 || authorityParts[1] == "" then Ok(None)
    else ParseSshHost(authorityParts[1])
  }

  function ParseSshHost(sshHost: string): Result<Option<Parts>, AuthorityError> {
    ParsePieces(sshHost, Split(sshHost, "--"))
  }

  /** Reads the pieces from the right, because hosts can contain `--`. */
  function ParsePieces(sshHost: string, parts: seq<string>): Result<Option<Parts>, AuthorityError>
    requires parts != []
  {
    if !(HOST_PREFIX <= parts[0]) then Ok(None)
    else if |parts| < 3 then Err(InvalidAuthority)
    else
      var hostPrefix := Join(parts[..|parts| - 2], "--");
      var safeHostname := if |HOST_PREFIX| <= |hostPrefix| then hostPrefix[|HOST_PREFIX|..] else "";
      ParseNames(sshHost, safeHostname, parts[|parts| - 2], parts[|parts| - 1])
  }

  function ParseNames(sshHost: string, safeHostname: string, username: string, workspaceAndAgent: string)
    : (r: Result<Option<Parts>, AuthorityError>)
    ensures r.Ok? ==> r.value.Some?
  {
    if safeHostname == "" || username == "" || workspaceAndAgent == "" then Err(InvalidAuthority)
    else
      var workspaceParts := Split(workspaceAndAgent, ".");
      if |workspaceParts| == 2 then
        if workspaceParts[0] == "" || workspaceParts[1] == "" then Err(InvalidAuthority)
        else Ok(Some(Parts(workspaceParts[1], sshHost, safeHostname, username, workspaceParts[0])))
      else Ok(Some(Parts("", sshHost, safeHostname, username, workspaceAndAgent)))
  }

  function WorkspaceAndAgent(workspace: string, agent: string): string {
    if agent == "" then workspace else workspace + "." + agent
  }

  function SshHost(host: string, user: string, workspace: string, agent: string): string {
    HOST_PREFIX + host + "--" + user + "--" + WorkspaceAndAgent(workspace, agent)
  }

  /** `host` is what `toSafeHost` made of the base URL. */
  function ToRemoteAuthority(host: string, user: string, workspace: string, agent: string): string {
    SCHEME + "+" + SshHost(host, user, workspace, agent)
  }

  /** The parser returns the printed parts. */
  predicate ParsesBack(host: string, user: string, workspace: string, agent: string) {
    var r := ParseRemoteAuthority(ToRemoteAuthority(host, user, workspace, agent));
    r.Ok? && r.value.Some?
    && r.value.value == Parts(agent, SshHost(host, user, workspace, agent), host, user, workspace)
  }

  /** The length of the run of dashes that ends `s`. */
  function TrailingDashes(s: string): nat {
    if s == "" || s[|s| - 1] != '-' then 0 else 1 + TrailingDashes(s[..|s| - 1])
  }

  /** A test a caller can make on the parts before printing them. */
  predicate Unambiguous(host: string, user: string, workspace: string, agent: string) {
    && '+' !in host && '+' !in user && '+' !in workspace && '+' !in agent
    && host != "" && TrailingDashes(host) % 2 == 0
    && user != "" && !Has(user, "--") && TrailingDashes(user) == 0
    && workspace != "" && !Has(WorkspaceAndAgent(workspace, agent), "--")
    && (if agent == "" then CountChar(workspace, '.') != 1 else '.' !in workspace && '.' !in agent)
  }

  // ----- how `--` aligns -----

  lemma NoStraddle(a: string, rest: string, i: nat)
    requires MatchesAt(a + "--" + rest, "--", i) && i < |a|
    ensures MatchesAt(a, "--", i) || (i == |a| - 1 && TrailingDashes(a) >= 1)
  {
    MatchTwo(a + "--" + rest, '-', '-', i);
    MatchTwo(a, '-', '-', i);
  }

  lemma {:induction false} TrailingDashesAppend(a: string, b: string)
    ensures TrailingDashes(a + b) == if TrailingDashes(b) == |b| then |b| + TrailingDashes(a) else TrailingDashes(b)
    ensures TrailingDashes(b) <= |b|
  {
    if b == "" {
      assert a + b == a;
    } else {
      assert (a + b)[..|a + b| - 1] == a + b[..|b| - 1];
      TrailingDashesAppend(a, b[..|b| - 1]);
    }
  }

  /** A string that ends in a pair of dashes contains one. */
  lemma PairFound(a: string)
    requires TrailingDashes(a) >= 2
    ensures MatchesAt(a, "--", |a| - 2)
  {
    assert a[..|a| - 1][|a| - 2] == '-';
    MatchTwo(a, '-', '-', |a| - 2);
  }

  lemma FirstSeparatorAfter(a: string, rest: string)
    requires TrailingDashes(a) == 0 && IndexOf(a, "--", 0) == -1
    ensures IndexOf(a + "--" + rest, "--", 0) == |a|
  {
    var s := a + "--" + rest;
    forall j | 0 <= j < |a| ensures !MatchesAt(s, "--", j) {
      if MatchesAt(s, "--", j) { NoStraddle(a, rest, j); }
    }
    MatchTwo(s, '-', '-', |a|);
    IndexOfIs(s, "--", 0, |a|);
  }

  lemma FirstSeparatorWithin(a: string, rest: string)
    requires IndexOf(a, "--", 0) != -1
    ensures IndexOf(a + "--" + rest, "--", 0) == IndexOf(a, "--", 0)
  {
    var s := a + "--" + rest;
    var i := IndexOf(a, "--", 0);
    forall j | 0 <= j < i ensures !MatchesAt(s, "--", j) {
      if MatchesAt(s, "--", j) { NoStraddle(a, rest, j); }
    }
    assert s[i..i + 2] == a[i..i + 2];
    IndexOfIs(s, "--", 0, i);
  }

  /** After a string whose trailing dashes pair up, the next `--` is a separator of its own. */
  lemma {:induction false} SplitAfter(a: string, rest: string)
    requires TrailingDashes(a) % 2 == 0
    ensures Split(a + "--" + rest, "--") == Split(a, "--") + Split(rest, "--")
    decreases |a|
  {
    var s := a + "--" + rest;
    var i := IndexOf(a, "--", 0);
    if i == -1 {
      if TrailingDashes(a) >= 2 { PairFound(a); }
      FirstSeparatorAfter(a, rest);
      assert s[..|a|] == a && s[|a| + 2..] == rest;
    } else {
      FirstSeparatorWithin(a, rest);
      var tail := a[i + 2..];
      assert s[..i] == a[..i] && s[i + 2..] == tail + "--" + rest;
      TailKeepsParity(a, i);
      SplitAfter(tail, rest);
      ConcatAssoc([a[..i]], Split(tail, "--"), Split(rest, "--"));
    }
  }

  lemma TailKeepsParity(a: string, i: nat)
    requires MatchesAt(a, "--", i) && forall j :: 0 <= j < i ==> !MatchesAt(a, "--", j)
    ensures TrailingDashes(a) % 2 == TrailingDashes(a[i + 2..]) % 2
  {
    var tail := a[i + 2..];
    assert a == a[..i] + "--" + tail;
    TrailingDashesAppend(a[..i] + "--", tail);
    TrailingDashesAppend(a[..i], "--");
    assert TrailingDashes("--") == 2 by { assert "--"[..1] == "-"; assert TrailingDashes("-") == 1; }
    LeadingPieceEndsClean(a, i);
  }

  lemma LeadingPieceEndsClean(a: string, i: nat)
    requires MatchesAt(a, "--", i) && forall j :: 0 <= j < i ==> !MatchesAt(a, "--", j)
    ensures TrailingDashes(a[..i]) == 0
  {
    MatchTwo(a, '-', '-', i);
    MatchTwo(a, '-', '-', i - 1);
  }

  // ----- sufficient -----

  lemma UnambiguousParsesBack(host: string, user: string, workspace: string, agent: string)
    requires Unambiguous(host, user, workspace, agent)
    ensures ParsesBack(host, user, workspace, agent)
  {
    var sshHost := SshHost(host, user, workspace, agent);
    var last := WorkspaceAndAgent(workspace, agent);
    assert '+' !in sshHost;
    AuthorityReadsHost(sshHost);
    PrintedPieces(host, user, last);
    PrintedPiecesParse(sshHost, Split(HOST_PREFIX + host, "--"), host, user, last);
    NamesParseBack(sshHost, host, user, workspace, agent);
  }

  lemma AuthorityReadsHost(sshHost: string)
    requires '+' !in sshHost && sshHost != ""
    ensures ParseRemoteAuthority(SCHEME + "+" + sshHost) == ParseSshHost(sshHost)
  {
    SplitAtChar(SCHEME, '+', sshHost);
    SplitLackingChar(sshHost, '+');
  }

  lemma PrintedPiecesParse(sshHost: string, hostParts: seq<string>, host: string, user: string, last: string)
    requires hostParts == Split(HOST_PREFIX + host, "--")
    ensures ParsePieces(sshHost, hostParts + [user, last]) == ParseNames(sshHost, host, user, last)
  {
    var parts := hostParts + [user, last];
    assert parts[..|parts| - 2] == hostParts;
    JoinSplit(HOST_PREFIX + host, "--");
    FirstPieceKeepsPrefix(host);
    assert (HOST_PREFIX + host)[|HOST_PREFIX|..] == host;
  }

  /** The three-way alignment. */
  lemma PrintedPieces(host: string, user: string, last: string)
    requires TrailingDashes(host) % 2 == 0
    requires !Has(user, "--") && TrailingDashes(user) == 0 && !Has(last, "--")
    ensures Split(HOST_PREFIX + host + "--" + user + "--" + last, "--")
         == Split(HOST_PREFIX + host, "--") + [user, last]
  {
    var prefixed := HOST_PREFIX + host;
    TrailingDashesAppend(HOST_PREFIX, host);
    assert HOST_PREFIX[|HOST_PREFIX| - 1] == '.';
    assert prefixed + "--" + user + "--" + last == prefixed + "--" + (user + "--" + last);
    SplitAfter(prefixed, user + "--" + last);
    SplitAfter(user, last);
    SplitWhole(user, "--");
    SplitWhole(last, "--");
  }

  lemma NamesParseBack(sshHost: string, host: string, user: string, workspace: string, agent: string)
    requires Unambiguous(host, user, workspace, agent)
    ensures ParseNames(sshHost, host, user, WorkspaceAndAgent(workspace, agent))
         == Ok(Some(Parts(agent, sshHost, host, user, workspace)))
  {
    if agent == "" {
      SplitCharCount(workspace, '.');
    } else {
      SplitAtOnlyDot(workspace, agent);
    }
  }

  lemma OneDashInPrefix(j: nat)
    requires j < |HOST_PREFIX|
    ensures HOST_PREFIX[j] == '-' <==> j == 5
  {
  }

  /** The fixed prefix has no dash pair, so it lies inside the first piece. */
  lemma FirstPieceKeepsPrefix(host: string)
    ensures HOST_PREFIX <= Split(HOST_PREFIX + host, "--")[0]
  {
    var s := HOST_PREFIX + host;
    forall j | 0 <= j < |HOST_PREFIX| ensures !MatchesAt(s, "--", j) {
      MatchTwo(s, '-', '-', j);
      OneDashInPrefix(j);
      if j == 5 { OneDashInPrefix(6); }
    }
  }

  lemma SplitAtOnlyDot(workspace: string, agent: string)
    requires '.' !in workspace && '.' !in agent
    ensures Split(workspace + "." + agent, ".") == [workspace, agent]
  {
    SplitAtChar(workspace, '.', agent);
    SplitLackingChar(agent, '.');
  }

  // ----- necessary -----

  /** Pieces before a separator never end in a dash. */
  lemma {:induction false} PiecesEndClean(s: string, k: nat)
    requires k < |Split(s, "--")| - 1
    ensures TrailingDashes(Split(s, "--")[k]) == 0
    decreases |s|
  {
    var i := IndexOf(s, "--", 0);
    if k == 0 {
      LeadingPieceEndsClean(s, i);
    } else {
      PiecesEndClean(s[i + 2..], k - 1);
    }
  }

  lemma {:induction false} JoinedDashesPairUp(parts: seq<string>)
    requires parts != [] && forall k :: 0 <= k < |parts| ==> TrailingDashes(parts[k]) == 0
    ensures TrailingDashes(Join(parts, "--")) % 2 == 0
  {
    if |parts| > 1 {
      var front, last := parts[..|parts| - 1], parts[|parts| - 1];
      assert parts == front + [last];
      JoinAppend(front, [last], "--");
      JoinedDashesPairUp(front);
      TrailingDashesAppend(Join(front, "--") + "--", last);
      TrailingDashesAppend(Join(front, "--"), "--");
      assert TrailingDashes("--") == 2 by { assert "--"[..1] == "-"; assert TrailingDashes("-") == 1; }
    }
  }

  lemma JoinLastTwo(front: seq<string>, user: string, last: string)
    requires front != []
    ensures Join(front + [user, last], "--") == Join(front, "--") + "--" + user + "--" + last
  {
    JoinAppend(front, [user, last], "--");
    assert [user, last][1..] == [last];
    assert Join([user, last], "--") == user + "--" + last;
    assert Join(front, "--") + "--" + (user + "--" + last) == Join(front, "--") + "--" + user + "--" + last;
  }

  lemma LastTwo(parts: seq<string>)
    requires |parts| >= 2
    ensures parts == parts[..|parts| - 2] + [parts[|parts| - 2], parts[|parts| - 1]]
  {
  }

  /** A split with at least three pieces, read from the right. */
  lemma CutFromTheRight(s: string)
    requires |Split(s, "--")| >= 3
    ensures var parts := Split(s, "--");
            s == Join(parts[..|parts| - 2], "--") + "--" + parts[|parts| - 2] + "--" + parts[|parts| - 1]
  {
    var parts := Split(s, "--");
    JoinSplit(s, "--");
    LastTwo(parts);
    JoinLastTwo(parts[..|parts| - 2], parts[|parts| - 2], parts[|parts| - 1]);
  }

  lemma SameTail(head: string, x: string, y: string, whole: string)
    requires whole == head + x && whole == head + y
    ensures x == y
  {
    assert whole[|head|..] == x && whole[|head|..] == y;
  }

  /** A parse, read off the pieces. */
  lemma PiecesOfParse(sshHost: string, host: string, user: string, workspace: string, agent: string)
    requires ParseSshHost(sshHost) == Ok(Some(Parts(agent, sshHost, host, user, workspace)))
    ensures var parts := Split(sshHost, "--");
            && |parts| >= 3 && Join(parts[..|parts| - 2], "--") == HOST_PREFIX + host && parts[|parts| - 2] == user
            && host != "" && user != "" && parts[|parts| - 1] != ""
            && ParseNames(sshHost, host, user, parts[|parts| - 1]) == ParseSshHost(sshHost)
  {
    var parts := Split(sshHost, "--");
    FirstPieceStartsJoin(parts[..|parts| - 2]);
    PrefixBack(Join(parts[..|parts| - 2], "--"));
  }

  /** The printed and the parsed decomposition coincide, so the last piece is what was printed last. */
  lemma LastPieceOfParse(host: string, user: string, workspace: string, agent: string)
    requires var sshHost := SshHost(host, user, workspace, agent);
             ParseSshHost(sshHost) == Ok(Some(Parts(agent, sshHost, host, user, workspace)))
    ensures var parts := Split(SshHost(host, user, workspace, agent), "--");
            |parts| >= 3 && parts[|parts| - 1] == WorkspaceAndAgent(workspace, agent)
  {
    var sshHost := SshHost(host, user, workspace, agent);
    PiecesOfParse(sshHost, host, user, workspace, agent);
    LastPiece(sshHost, HOST_PREFIX + host, user, WorkspaceAndAgent(workspace, agent));
  }

  lemma LastPiece(s: string, hostPrefix: string, user: string, last: string)
    requires var parts := Split(s, "--");
             |parts| >= 3 && Join(parts[..|parts| - 2], "--") == hostPrefix && parts[|parts| - 2] == user
    requires s == hostPrefix + "--" + user + "--" + last
    ensures var parts := Split(s, "--"); parts[|parts| - 1] == last
  {
    var parts := Split(s, "--");
    CutFromTheRight(s);
    SameTail(hostPrefix + "--" + user + "--", parts[|parts| - 1], last, s);
  }

  lemma NoPlusWithin(host: string, user: string, workspace: string, agent: string)
    requires '+' !in SshHost(host, user, workspace, agent)
    ensures '+' !in host && '+' !in user && '+' !in workspace && '+' !in agent
  {
  }

  lemma DashesOfParse(sshHost: string, host: string, user: string, workspace: string, agent: string)
    requires ParseSshHost(sshHost) == Ok(Some(Parts(agent, sshHost, host, user, workspace)))
    requires var parts := Split(sshHost, "--");
             |parts| >= 3 && parts[|parts| - 1] == WorkspaceAndAgent(workspace, agent)
    ensures host != "" && TrailingDashes(host) % 2 == 0
    ensures user != "" && !Has(user, "--") && TrailingDashes(user) == 0
    ensures !Has(WorkspaceAndAgent(workspace, agent), "--") && workspace != ""
    ensures if agent == "" then CountChar(workspace, '.') != 1 else '.' !in workspace && '.' !in agent
  {
    var parts := Split(sshHost, "--");
    PiecesOfParse(sshHost, host, user, workspace, agent);
    LastPiecesClean(sshHost);
    JoinedFrontPairsUp(sshHost, host);
    NamesNecessary(sshHost, host, user, workspace, agent);
  }

  lemma LastPiecesClean(sshHost: string)
    requires |Split(sshHost, "--")| >= 3
    ensures var parts := Split(sshHost, "--"); var n := |parts|;
            !Has(parts[n - 2], "--") && !Has(parts[n - 1], "--") && TrailingDashes(parts[n - 2]) == 0
  {
    var n := |Split(sshHost, "--")|;
    SplitPiecesLackSeparator(sshHost, "--", n - 2);
    SplitPiecesLackSeparator(sshHost, "--", n - 1);
    PiecesEndClean(sshHost, n - 2);
  }

  lemma HostParsedUnambiguous(host: string, user: string, workspace: string, agent: string)
    requires var sshHost := SshHost(host, user, workspace, agent);
             '+' !in sshHost && ParseSshHost(sshHost) == Ok(Some(Parts(agent, sshHost, host, user, workspace)))
    ensures Unambiguous(host, user, workspace, agent)
  {
    NoPlusWithin(host, user, workspace, agent);
    LastPieceOfParse(host, user, workspace, agent);
    DashesOfParse(SshHost(host, user, workspace, agent), host, user, workspace, agent);
  }

  lemma NamesNecessary(sshHost: string, host: string, user: string, workspace: string, agent: string)
    requires ParseNames(sshHost, host, user, WorkspaceAndAgent(workspace, agent))
          == Ok(Some(Parts(agent, sshHost, host, user, workspace)))
    ensures workspace != ""
    ensures if agent == "" then CountChar(workspace, '.') != 1 else '.' !in workspace && '.' !in agent
  {
    AgentSplitNecessary(workspace, agent);
  }

  lemma ParsesBackUnambiguous(host: string, user: string, workspace: string, agent: string)
    requires ParsesBack(host, user, workspace, agent)
    ensures Unambiguous(host, user, workspace, agent)
  {
    var authority := ToRemoteAuthority(host, user, workspace, agent);
    SplitCharPieces(authority, '+', 1);
    assert Split(authority, "+")[1] == SshHost(host, user, workspace, agent);
    HostParsedUnambiguous(host, user, workspace, agent);
  }

  lemma JoinedFrontPairsUp(sshHost: string, host: string)
    requires var parts := Split(sshHost, "--"); |parts| >= 3 && Join(parts[..|parts| - 2], "--") == HOST_PREFIX + host
    ensures TrailingDashes(host) % 2 == 0
  {
    var parts := Split(sshHost, "--");
    var front := parts[..|parts| - 2];
    forall k | 0 <= k < |front| ensures TrailingDashes(front[k]) == 0 {
      PiecesEndClean(sshHost, k);
    }
    JoinedDashesPairUp(front);
    TrailingDashesAppend(HOST_PREFIX, host);
    assert HOST_PREFIX[|HOST_PREFIX| - 1] == '.';
  }

  lemma FirstPieceStartsJoin(parts: seq<string>)
    requires parts != [] && HOST_PREFIX <= parts[0]
    ensures HOST_PREFIX <= Join(parts, "--")
  {
    if |parts| > 1 {
      assert Join(parts, "--") == parts[0] + ("--" + Join(parts[1..], "--"));
    }
  }

  /** What the dots must look like for the last piece to come apart as it was put together. */
  lemma AgentSplitNecessary(workspace: string, agent: string)
    requires var parts := Split(WorkspaceAndAgent(workspace, agent), ".");
             if |parts| == 2 then parts == [workspace, agent] && agent != ""
             else agent == ""
    ensures if agent == "" then CountChar(workspace, '.') != 1 else '.' !in workspace && '.' !in agent
  {
    var last := WorkspaceAndAgent(workspace, agent);
    SplitCharCount(last, '.');
    if agent != "" {
      CountCharAppend(workspace + ".", agent, '.');
      CountCharAppend(workspace, ".", '.');
      assert CountChar(".", '.') == 1;
      CountCharZero(workspace, '.');
      CountCharZero(agent, '.');
    }
  }

  /**
   * Round trip, exactly: the printed authority parses back to the same four parts if and
   * only if the parts pass the test. In particular a host may contain `--` and may even end
   * in an even number of dashes; an odd number, or a lone dot in an agent-less workspace,
   * is what goes wrong.
   */
  lemma RoundTripExactly(host: string, user: string, workspace: string, agent: string)
    ensures ParsesBack(host, user, workspace, agent) <==> Unambiguous(host, user, workspace, agent)
  {
    if Unambiguous(host, user, workspace, agent) {
      UnambiguousParsesBack(host, user, workspace, agent);
    }
    if ParsesBack(host, user, workspace, agent) {
      ParsesBackUnambiguous(host, user, workspace, agent);
    }
  }

  /** A dash at the end of the host passes for one at the start of the user. */
  lemma DashMoves(host: string, user: string, workspace: string, agent: string)
    requires Unambiguous(host, "-" + user, workspace, agent)
    ensures ToRemoteAuthority(host + "-", user, workspace, agent) == ToRemoteAuthority(host, "-" + user, workspace, agent)
    ensures !ParsesBack(host + "-", user, workspace, agent) && ParsesBack(host, "-" + user, workspace, agent)
  {
    var last := WorkspaceAndAgent(workspace, agent);
    assert HOST_PREFIX + (host + "-") + "--" + user + "--" + last == HOST_PREFIX + host + "--" + ("-" + user) + "--" + last;
    RoundTripExactly(host, "-" + user, workspace, agent);
    assert host + "-" != host;
  }

  /** The host `dev-` of user `alice` is read back as the host `dev` of user `-alice`. */
  lemma DashExample()
    ensures !ParsesBack("dev-", "alice", "ws", "") && ParsesBack("dev", "-alice", "ws", "")
  {
    var host, user := "dev", "-alice";
    assert TrailingDashes(host) == 0 && TrailingDashes(user) == 0;
    forall i ensures !MatchesAt(user, "--", i) { MatchTwo(user, '-', '-', i); }
    forall i ensures !MatchesAt("ws", "--", i) { MatchTwo("ws", '-', '-', i); }
    CountCharZero("ws", '.');
    assert "dev" + "-" == "dev-" && "-" + "alice" == "-alice";
    DashMoves("dev", "alice", "ws", "");
  }

  /** On unambiguous parts the printer is injective. */
  lemma PrinterInjective(h1: string, u1: string, w1: string, a1: string, h2: string, u2: string, w2: string, a2: string)
    requires Unambiguous(h1, u1, w1, a1) && Unambiguous(h2, u2, w2, a2)
    requires ToRemoteAuthority(h1, u1, w1, a1) == ToRemoteAuthority(h2, u2, w2, a2)
    ensures (h1, u1, w1, a1) == (h2, u2, w2, a2)
  {
    RoundTripExactly(h1, u1, w1, a1);
    RoundTripExactly(h2, u2, w2, a2);
  }

  /** Whatever the parser accepts, printing the result gives back the SSH host it was given. */
  lemma ParsedPartsPrintBack(sshHost: string)
    requires var r := ParseSshHost(sshHost); r.Ok? && r.value.Some?
    ensures var p := ParseSshHost(sshHost).value.value;
            SshHost(p.safeHostname, p.username, p.workspace, p.agent) == sshHost
  {
    var parts := Split(sshHost, "--");
    AcceptedPieces(sshHost, parts);
    CutFromTheRight(sshHost);
    PrintsBack(sshHost, Join(parts[..|parts| - 2], "--"), parts[|parts| - 2], parts[|parts| - 1]);
  }

  lemma PrintsBack(sshHost: string, hostPrefix: string, user: string, last: string)
    requires HOST_PREFIX <= hostPrefix && sshHost == hostPrefix + "--" + user + "--" + last
    requires ParseNames(sshHost, hostPrefix[|HOST_PREFIX|..], user, last).Ok?
    ensures var p := ParseNames(sshHost, hostPrefix[|HOST_PREFIX|..], user, last).value.value;
            SshHost(p.safeHostname, p.username, p.workspace, p.agent) == sshHost
  {
    PrefixBack(hostPrefix);
    NamesPrintBack(sshHost, hostPrefix[|HOST_PREFIX|..], user, last);
  }

  lemma AcceptedPieces(sshHost: string, parts: seq<string>)
    requires parts != [] && var r := ParsePieces(sshHost, parts); r.Ok? && r.value.Some?
    ensures |parts| >= 3 && HOST_PREFIX <= Join(parts[..|parts| - 2], "--")
    ensures ParsePieces(sshHost, parts)
         == ParseNames(sshHost, Join(parts[..|parts| - 2], "--")[|HOST_PREFIX|..], parts[|parts| - 2], parts[|parts| - 1])
  {
    FirstPieceStartsJoin(parts[..|parts| - 2]);
  }

  lemma PrefixBack(s: string)
    requires HOST_PREFIX <= s
    ensures HOST_PREFIX + s[|HOST_PREFIX|..] == s
  {
  }

  lemma NamesPrintBack(sshHost: string, host: string, user: string, last: string)
    requires ParseNames(sshHost, host, user, last).Ok?
    ensures var p := ParseNames(sshHost, host, user, last).value.value;
            p.safeHostname == host && p.username == user && WorkspaceAndAgent(p.workspace, p.agent) == last
  {
    var pieces := Split(last, ".");
    JoinSplit(last, ".");
    if |pieces| == 2 {
      assert last == pieces[0] + "." + pieces[1];
    }
  }
}
