/** The tunnel service: reserving a tunnel before its helper starts, the
    helper's spawn / wait / restart loop, stopping the ssh process,
    building the ssh argument vector, and choosing the error notice text.
    Processes are not modelled: each spawned ssh process is described by an
    `Attempt` supplied as input, and the kill result is an input too. */
module Ssh {
  import opened Wrappers
  import opened Text
  import opened Models
  import opened Registry

  // ----- Argument vector -----

  /** A `-p`, `-i` or `-l` option: present only when the value is not blank
      and longer than one character. */
  function OptionPair(flag: string, value: string): seq<string> {
    if !IsBlank(value) && |value| > 1 then [flag, value] else []
  }

  const ConnectionOptions: seq<string> :=
    ["-o", "ConnectTimeout=5", "-o", "NumberOfPasswordPrompts=1"]

  /** The connection options, all omitted in preset mode (the settings then
      come from the user's ssh configuration). */
  function ConnectionArgs(t: SshTunnel): seq<string> {
    if t.preset then []
    else OptionPair("-p", t.port) + OptionPair("-i", t.privateKeyPath)
         + OptionPair("-l", t.login) + ConnectionOptions
  }

  /** The forwarding token of one redirection, chosen by its lower-cased
      type; other types have none. */
  function ForwardToken(r: PortRedirection): Option<string> {
    var kind := ToLower(r.kind);
    if kind == LocalType then Some("-L" + r.port1 + ":" + r.host + ":" + r.port2)
    else if kind == RemoteType then Some("-R" + r.port1 + ":" + r.host + ":" + r.port2)
    else if kind == DynamicType then Some("-D" + r.port1)
    else None
  }

  function TokenSeq(o: Option<string>): seq<string> {
    if o.Some? then [o.value] else []
  }

  /** The forwarding tokens of a list of redirections, in list order. */
  function ForwardTokens(rs: seq<PortRedirection>): seq<string> {
    if rs == [] then []
    else ForwardTokens(rs[..|rs| - 1]) + TokenSeq(ForwardToken(rs[|rs| - 1]))
  }

  /** The argument vector handed to `ssh`. */
  function SshArgs(t: SshTunnel): seq<string> {
    [t.host, "-nN"] + ConnectionArgs(t) + ForwardTokens(t.portRedirections)
  }

  lemma {:induction false} ForwardTokensAppend(a: seq<PortRedirection>, b: seq<PortRedirection>)
    ensures ForwardTokens(a + b) == ForwardTokens(a) + ForwardTokens(b)
    decreases |b|
  {
    if b == [] {
      assert a + b == a;
    } else {
      var b' := b[..|b| - 1];
      assert (a + b)[..|a + b| - 1] == a + b';
      assert (a + b)[|a + b| - 1] == b[|b| - 1];
      ForwardTokensAppend(a, b');
    }
  }

  lemma ForwardTokensSnoc(rs: seq<PortRedirection>, i: nat)
    requires i < |rs|
    ensures ForwardTokens(rs[..i + 1]) == ForwardTokens(rs[..i]) + TokenSeq(ForwardToken(rs[i]))
  {
    assert rs[..i + 1][..i] == rs[..i];
  }

  /** One token per redirection of a known type, each in its format, and
      nothing for the others. */
  lemma ForwardTokensOfOne(r: PortRedirection)
    ensures ForwardTokens([r]) == TokenSeq(ForwardToken(r))
    ensures ToLower(r.kind) == LocalType ==> ForwardTokens([r]) == ["-L" + r.port1 + ":" + r.host + ":" + r.port2]
    ensures ToLower(r.kind) == RemoteType ==> ForwardTokens([r]) == ["-R" + r.port1 + ":" + r.host + ":" + r.port2]
    ensures ToLower(r.kind) == DynamicType ==> ForwardTokens([r]) == ["-D" + r.port1]
    ensures ToLower(r.kind) !in {LocalType, RemoteType, DynamicType} ==> ForwardTokens([r]) == []
  {
    assert [r][..0] == [];
  }

  /** A redirection in the middle of a list contributes its own token, or
      nothing for an unknown type, between the tokens of its neighbours. */
  lemma ForwardTokensSplit(a: seq<PortRedirection>, r: PortRedirection, b: seq<PortRedirection>)
    ensures ForwardTokens(a + [r] + b) == ForwardTokens(a) + TokenSeq(ForwardToken(r)) + ForwardTokens(b)
  {
    ForwardTokensAppend(a + [r], b);
    ForwardTokensAppend(a, [r]);
    ForwardTokensOfOne(r);
  }

  /** Every forwarding token starts with "-L", "-R" or "-D", so none of them
      is a connection option flag. */
  lemma {:induction false} ForwardTokensAreForwards(rs: seq<PortRedirection>)
    ensures forall i :: 0 <= i < |ForwardTokens(rs)| ==>
              |ForwardTokens(rs)[i]| >= 2 && ForwardTokens(rs)[i][0] == '-'
              && ForwardTokens(rs)[i][1] in {'L', 'R', 'D'}
  {
    if rs != [] {
      ForwardTokensAreForwards(rs[..|rs| - 1]);
    }
  }

  predicate IsConnectionFlag(s: string) {
    s in {"-p", "-i", "-l", "-o"}
  }

  /** The vector always starts with the host followed by "-nN". */
  lemma ArgsStartWithHost(t: SshTunnel)
    ensures |SshArgs(t)| >= 2 && SshArgs(t)[0] == t.host && SshArgs(t)[1] == "-nN"
  {
  }

  /** In preset mode the vector is the host, "-nN" and the forwarding
      tokens; no connection option flag follows the host. */
  lemma PresetArgs(t: SshTunnel)
    requires t.preset
    ensures SshArgs(t) == [t.host, "-nN"] + ForwardTokens(t.portRedirections)
    ensures forall i :: 1 <= i < |SshArgs(t)| ==> !IsConnectionFlag(SshArgs(t)[i])
  {
    ForwardTokensAreForwards(t.portRedirections);
    var fw := ForwardTokens(t.portRedirections);
    forall i | 2 <= i < |SshArgs(t)| ensures !IsConnectionFlag(SshArgs(t)[i]) {
      assert SshArgs(t)[i] == fw[i - 2];
    }
  }

  /** Outside preset mode the port, key and login options come first, each
      only when usable, then the two fixed `-o` options, then the
      forwarding tokens. */
  lemma ManualArgs(t: SshTunnel)
    requires !t.preset
    ensures SshArgs(t) == [t.host, "-nN"] + OptionPair("-p", t.port) + OptionPair("-i", t.privateKeyPath)
                          + OptionPair("-l", t.login) + ConnectionOptions + ForwardTokens(t.portRedirections)
    ensures !IsBlank(t.port) && |t.port| > 1 ==> SshArgs(t)[2..4] == ["-p", t.port]
    ensures |t.port| <= 1 ==> SshArgs(t)[2] != "-p"
  {
  }

  /** A one-character port such as "8" is silently dropped: ssh then uses
      its default port. */
  lemma OneDigitPortDropped(t: SshTunnel)
    requires !t.preset && t.port == "8" && t.privateKeyPath == "" && t.login == "" && t.portRedirections == []
    ensures SshArgs(t) == [t.host, "-nN", "-o", "ConnectTimeout=5", "-o", "NumberOfPasswordPrompts=1"]
  {
  }

  /** The forwarding tokens are the tail of the vector. */
  lemma ArgsEndWithForwards(t: SshTunnel)
    ensures var fw := ForwardTokens(t.portRedirections);
      |fw| <= |SshArgs(t)| && SshArgs(t)[|SshArgs(t)| - |fw|..] == fw
  {
  }

  /** The token of the local forwarding 127.0.0.1:8080 -> db:5432. */
  lemma LocalForwardToken(r: PortRedirection)
    requires r == PortRedirection("local", "127.0.0.1:8080", "db", "5432")
    ensures ForwardToken(r) == Some("-L127.0.0.1:8080:db:5432")
  {
    LowerCaseUnchanged(r.kind);
    assert "-L" + r.port1 == "-L127.0.0.1:8080";
    assert "-L127.0.0.1:8080" + ":" + r.host == "-L127.0.0.1:8080:db";
    assert "-L127.0.0.1:8080:db" + ":" + r.port2 == "-L127.0.0.1:8080:db:5432";
  }

  /** A local forwarding becomes exactly one `-L bind:host:port` token,
      the last argument. */
  lemma LocalForwardExample(t: SshTunnel)
    requires t.portRedirections == [PortRedirection("local", "127.0.0.1:8080", "db", "5432")]
    ensures ForwardTokens(t.portRedirections) == ["-L127.0.0.1:8080:db:5432"]
    ensures SshArgs(t)[|SshArgs(t)| - 1] == "-L127.0.0.1:8080:db:5432"
  {
    LocalForwardToken(t.portRedirections[0]);
    ForwardTokensOfOne(t.portRedirections[0]);
    ArgsEndWithForwards(t);
  }

  /** A dynamic forwarding becomes exactly one `-D port` token, with no
      `-L` or `-R` token. */
  lemma DynamicForwardExample(t: SshTunnel)
    requires t.portRedirections == [PortRedirection("dynamic", "1080", "n/a", "n/a")]
    ensures ForwardTokens(t.portRedirections) == ["-D1080"]
    ensures SshArgs(t)[|SshArgs(t)| - 1] == "-D1080"
  {
    var r := t.portRedirections[0];
    LowerCaseUnchanged(r.kind);
    ForwardTokensOfOne(r);
    assert "-D" + r.port1 == "-D1080";
    ArgsEndWithForwards(t);
  }

  // ----- Helper thread -----

  /** What one spawned ssh process did: it ran and exited, the spawn threw
      before a process id was known, or waiting threw after the id was
      recorded. */
  datatype Attempt =
    | Exited(pid: int, exitCode: int, stderr: string)
    | SpawnFailed
    | WaitFailed(pid: int, stderr: string)

  /** One `ShowErrorNotification` call, with the values it formats. */
  datatype Notice = Notice(tunnelName: string, exitCode: int, stderr: string, numRestarts: int, maxRestarts: int)

  /** How the helper ends: `int.Parse` of the restart limit threw
      (`Crashed`: the exception is not caught on the helper's thread, so
      the whole application terminates, and the registry is unchanged only
      because nothing runs after it), the loop ended after that many
      restarts, or the supplied attempts ran out while a restarted process
      is still running. */
  datatype HelperOutcome = Crashed | Finished(restarts: nat) | StillRunning(restarts: nat)

  datatype HelperResult = HelperResult(outcome: HelperOutcome, notices: seq<Notice>, tunnels: map<string, SshTunnel>)

  /** The registry after one attempt, and the exit code and stderr text the
      helper then sees; an exception counts as exit code -1. */
  function AttemptEffect(m: map<string, SshTunnel>, name: string, a: Attempt): (map<string, SshTunnel>, int, string) {
    match a
    case Exited(pid, code, err) => (WithPid(WithPid(m, name, pid), name, 0), code, err)
    case SpawnFailed => (m, -1, "")
    case WaitFailed(pid, err) => (WithPid(m, name, pid), -1, err)
  }

  /** The restart guard. */
  predicate ShouldRestart(exitCode: int, restart: bool, numRestarts: int, maxRestarts: int, pid: int) {
    exitCode != 0 && restart && numRestarts < maxRestarts && pid == 0
  }

  /** When no restart happens: whether the final failure notice is shown. */
  predicate FinalFailure(exitCode: int, restart: bool, numRestarts: int, maxRestarts: int) {
    exitCode != 0 && (!restart || numRestarts >= maxRestarts)
  }

  /** The loop from a state with `num` restarts done and `notices` shown. */
  function HelperLoop(t: SshTunnel, maxRestarts: int, num: nat, m: map<string, SshTunnel>,
                      attempts: seq<Attempt>, notices: seq<Notice>): HelperResult
    decreases |attempts|
  {
    if attempts == [] then HelperResult(StillRunning(num), notices, m)
    else
      var (m1, code, err) := AttemptEffect(m, t.name, attempts[0]);
      if ShouldRestart(code, t.restart, num, maxRestarts, PidOf(m1, t.name)) then
        var ns := if t.notify then notices + [Notice(t.name, code, err, num + 1, maxRestarts)] else notices;
        HelperLoop(t, maxRestarts, num + 1, m1, attempts[1..], ns)
      else
        var ns := if FinalFailure(code, t.restart, num, maxRestarts)
                  then notices + [Notice(t.name, code, err, num, maxRestarts)] else notices;
        HelperResult(Finished(num), ns, WithActive(m1, t.name, false))
  }

  /** The whole helper run for tunnel `t` over the given attempts. */
  function HelperRun(t: SshTunnel, m: map<string, SshTunnel>, attempts: seq<Attempt>): HelperResult {
    match ParseInt32(t.maxRestarts)
    case None => HelperResult(Crashed, [], m)
    case Some(maxRestarts) => HelperLoop(t, maxRestarts, 0, m, attempts, [])
  }

  function Max0(x: int): nat {
    if x > 0 then x else 0
  }

  /** The loop never restarts past the limit, ends once the attempts allow
      no further restart, and on ending clears the tunnel's flag and keeps
      every key. */
  lemma {:induction false} HelperLoopBounds(t: SshTunnel, maxRestarts: int, num: nat, m: map<string, SshTunnel>,
                                            attempts: seq<Attempt>, notices: seq<Notice>)
    requires num <= Max0(maxRestarts)
    ensures var r := HelperLoop(t, maxRestarts, num, m, attempts, notices);
      !r.outcome.Crashed? && num <= r.outcome.restarts <= Max0(maxRestarts)
      && r.tunnels.Keys == m.Keys
      && r.outcome.restarts - num <= |attempts|
      && (|attempts| > Max0(maxRestarts) - num ==> r.outcome.Finished?)
      && (r.outcome.Finished? ==> !ActiveOf(r.tunnels, t.name))
      && |notices| <= |r.notices|
    decreases |attempts|
  {
    if attempts != [] {
      var (m1, code, err) := AttemptEffect(m, t.name, attempts[0]);
      if ShouldRestart(code, t.restart, num, maxRestarts, PidOf(m1, t.name)) {
        var ns := if t.notify then notices + [Notice(t.name, code, err, num + 1, maxRestarts)] else notices;
        HelperLoopBounds(t, maxRestarts, num + 1, m1, attempts[1..], ns);
      }
    }
  }

  /** Over the whole run: a restart limit that does not parse crashes the
      helper before anything changes; otherwise there are at most
      `maxRestarts` restarts, and more attempts than that end the loop with
      the tunnel inactive. */
  lemma HelperRunBounds(t: SshTunnel, m: map<string, SshTunnel>, attempts: seq<Attempt>)
    ensures HelperRun(t, m, attempts).outcome.Crashed? <==> ParseInt32(t.maxRestarts).None?
    ensures HelperRun(t, m, attempts).outcome.Crashed? ==> HelperRun(t, m, attempts).tunnels == m
    ensures ParseInt32(t.maxRestarts).Some? ==>
              var r := HelperRun(t, m, attempts);
              r.outcome.restarts <= Max0(ParseInt32(t.maxRestarts).value)
              && (|attempts| > Max0(ParseInt32(t.maxRestarts).value) ==>
                    r.outcome.Finished? && !ActiveOf(r.tunnels, t.name))
  {
    if ParseInt32(t.maxRestarts).Some? {
      HelperLoopBounds(t, ParseInt32(t.maxRestarts).value, 0, m, attempts, []);
    }
  }

  /** Without `notify` no restart notice is shown: at most the final failure
      notice appears, for a non-zero exit code, once the loop has ended. */
  lemma {:induction false} SilentRestarts(t: SshTunnel, maxRestarts: int, num: nat, m: map<string, SshTunnel>,
                                          attempts: seq<Attempt>, notices: seq<Notice>)
    requires !t.notify
    ensures var r := HelperLoop(t, maxRestarts, num, m, attempts, notices);
      r.notices == notices
      || (r.outcome.Finished? && |r.notices| == |notices| + 1 && r.notices[..|notices|] == notices
          && r.notices[|notices|].exitCode != 0 && r.notices[|notices|].numRestarts == r.outcome.restarts)
    decreases |attempts|
  {
    if attempts != [] {
      var (m1, code, err) := AttemptEffect(m, t.name, attempts[0]);
      if ShouldRestart(code, t.restart, num, maxRestarts, PidOf(m1, t.name)) {
        SilentRestarts(t, maxRestarts, num + 1, m1, attempts[1..], notices);
      }
    }
  }

  /** With `notify`, every restart shows a notice: at least one notice per
      restart performed. */
  lemma {:induction false} NotifiedRestarts(t: SshTunnel, maxRestarts: int, num: nat, m: map<string, SshTunnel>,
                                            attempts: seq<Attempt>, notices: seq<Notice>)
    requires t.notify
    ensures var r := HelperLoop(t, maxRestarts, num, m, attempts, notices);
      !r.outcome.Crashed? && |r.notices| >= |notices| + r.outcome.restarts - num
    decreases |attempts|
  {
    if attempts != [] {
      var (m1, code, err) := AttemptEffect(m, t.name, attempts[0]);
      if ShouldRestart(code, t.restart, num, maxRestarts, PidOf(m1, t.name)) {
        var ns := notices + [Notice(t.name, code, err, num + 1, maxRestarts)];
        NotifiedRestarts(t, maxRestarts, num + 1, m1, attempts[1..], ns);
      } else {
        assert HelperLoop(t, maxRestarts, num, m, attempts, notices).outcome == Finished(num);
      }
    }
  }

  /** A helper whose processes all ran and exited keeps the registry
      invariant: its tunnel is active while a pid is recorded, and the pid
      is back to 0 before the flag is cleared. */
  lemma {:induction false} HelperKeepsInvariant(t: SshTunnel, maxRestarts: int, num: nat, m: map<string, SshTunnel>,
                                                attempts: seq<Attempt>, notices: seq<Notice>)
    requires PidImpliesActive(m) && PidOf(m, t.name) == 0
    requires t.name in m ==> m[t.name].active
    requires forall i :: 0 <= i < |attempts| ==> !attempts[i].WaitFailed?
    ensures PidImpliesActive(HelperLoop(t, maxRestarts, num, m, attempts, notices).tunnels)
    decreases |attempts|
  {
    if attempts != [] {
      var (m1, code, err) := AttemptEffect(m, t.name, attempts[0]);
      assert PidImpliesActive(m1) && PidOf(m1, t.name) == 0 && (t.name in m1 ==> m1[t.name].active);
      if ShouldRestart(code, t.restart, num, maxRestarts, PidOf(m1, t.name)) {
        var ns := if t.notify then notices + [Notice(t.name, code, err, num + 1, maxRestarts)] else notices;
        HelperKeepsInvariant(t, maxRestarts, num + 1, m1, attempts[1..], ns);
      }
    }
  }

  /** A process that ran and exited leaves a registry holding exactly the
      reserved tunnel unchanged: the pid is recorded and then cleared. */
  lemma ExitedKeepsEntry(t: SshTunnel, pid: int, code: int, err: string)
    requires t.sshPid == 0
    ensures AttemptEffect(map[t.name := t], t.name, Exited(pid, code, err)) == (map[t.name := t], code, err)
  {
    var m := map[t.name := t];
    assert t.(sshPid := pid).(sshPid := 0) == t;
    assert WithPid(m, t.name, pid) == map[t.name := t.(sshPid := pid)];
    assert WithPid(map[t.name := t.(sshPid := pid)], t.name, 0) == m;
  }

  /** A wait that throws leaves the recorded pid in place and clearing the
      flag then leaves it behind on an inactive tunnel. */
  lemma WaitFailedEffect(t: SshTunnel, pid: int, err: string)
    requires pid != 0
    ensures AttemptEffect(map[t.name := t], t.name, WaitFailed(pid, err)) == (map[t.name := t.(sshPid := pid)], -1, err)
    ensures WithActive(map[t.name := t.(sshPid := pid)], t.name, false) == map[t.name := t.(sshPid := pid, active := false)]
    ensures !PidImpliesActive(map[t.name := t.(sshPid := pid, active := false)])
  {
    var m := map[t.name := t];
    assert WithPid(m, t.name, pid) == m[t.name := t.(sshPid := pid)];
    assert m[t.name := t.(sshPid := pid)] == map[t.name := t.(sshPid := pid)];
    var u := t.(sshPid := pid, active := false);
    assert map[t.name := u][t.name] == u;
  }

  /** With a parsed restart limit the run is the loop from no restarts. */
  lemma HelperRunStarts(t: SshTunnel, m: map<string, SshTunnel>, attempts: seq<Attempt>, limit: int)
    requires ParseInt32(t.maxRestarts) == Some(limit)
    ensures HelperRun(t, m, attempts) == HelperLoop(t, limit, 0, m, attempts, [])
  {
  }

  /** One attempt after which the helper restarts. */
  lemma RestartStep(t: SshTunnel, maxRestarts: int, num: nat, m: map<string, SshTunnel>, attempts: seq<Attempt>,
                    notices: seq<Notice>, m1: map<string, SshTunnel>, code: int, err: string)
    requires attempts != [] && AttemptEffect(m, t.name, attempts[0]) == (m1, code, err)
    requires ShouldRestart(code, t.restart, num, maxRestarts, PidOf(m1, t.name))
    ensures HelperLoop(t, maxRestarts, num, m, attempts, notices)
            == HelperLoop(t, maxRestarts, num + 1, m1, attempts[1..],
                          if t.notify then notices + [Notice(t.name, code, err, num + 1, maxRestarts)] else notices)
  {
  }

  /** One attempt after which the helper ends. */
  lemma FinalStep(t: SshTunnel, maxRestarts: int, num: nat, m: map<string, SshTunnel>, attempts: seq<Attempt>,
                  notices: seq<Notice>, m1: map<string, SshTunnel>, code: int, err: string)
    requires attempts != [] && AttemptEffect(m, t.name, attempts[0]) == (m1, code, err)
    requires !ShouldRestart(code, t.restart, num, maxRestarts, PidOf(m1, t.name))
    ensures HelperLoop(t, maxRestarts, num, m, attempts, notices)
            == HelperResult(Finished(num),
                            if FinalFailure(code, t.restart, num, maxRestarts)
                            then notices + [Notice(t.name, code, err, num, maxRestarts)] else notices,
                            WithActive(m1, t.name, false))
  {
  }

  /** A wait that throws after the pid was recorded leaves the pid set, so
      the guard refuses a restart and the flag is cleared with the pid still
      recorded: the invariant breaks, and with restarts left no notice is
      shown at all. */
  lemma WaitFailureStrandsPid(t: SshTunnel, attempts: seq<Attempt>)
    requires t.restart && t.maxRestarts == "3" && t.active && t.sshPid == 0
    requires attempts == [WaitFailed(4242, "")]
    ensures var r := HelperRun(t, map[t.name := t], attempts);
      r.outcome == Finished(0) && r.notices == []
      && r.tunnels == map[t.name := t.(sshPid := 4242, active := false)]
      && !PidImpliesActive(r.tunnels)
  {
    var m := map[t.name := t];
    WaitFailedEffect(t, 4242, "");
    FinalStep(t, 3, 0, m, attempts, [], map[t.name := t.(sshPid := 4242)], -1, "");
    ParseSmallLimits();
    HelperRunStarts(t, m, attempts, 3);
  }

  /** The restart notices a notifying helper shows while its restart count
      goes from `from` to `limit`, one per restart, each with the new count. */
  function RestartNotices(name: string, code: int, err: string, from: nat, limit: nat): (ns: seq<Notice>)
    requires from <= limit
    ensures |ns| == limit - from
    ensures forall j :: 0 <= j < |ns| ==> ns[j] == Notice(name, code, err, from + 1 + j, limit)
  {
    seq(limit - from, j requires 0 <= j < limit - from => Notice(name, code, err, from + 1 + j, limit))
  }

  lemma RestartNoticesCons(name: string, code: int, err: string, from: nat, limit: nat)
    requires from < limit
    ensures [Notice(name, code, err, from + 1, limit)] + RestartNotices(name, code, err, from + 1, limit)
            == RestartNotices(name, code, err, from, limit)
  {
    var a := [Notice(name, code, err, from + 1, limit)] + RestartNotices(name, code, err, from + 1, limit);
    var b := RestartNotices(name, code, err, from, limit);
    assert |a| == |b|;
    forall j | 0 <= j < |a| ensures a[j] == b[j] {
      if j > 0 {
        assert a[j] == RestartNotices(name, code, err, from + 1, limit)[j - 1];
      }
    }
  }

  /** A process that keeps failing the same way is restarted until the
      limit is used up, with one notice per restart, and the run then ends
      with the tunnel inactive and a final notice carrying the limit as its
      restart count. */
  lemma {:induction false} PersistentFailure(t: SshTunnel, limit: nat, num: nat, attempts: seq<Attempt>,
                                             notices: seq<Notice>, code: int, err: string)
    requires t.restart && t.notify && t.sshPid == 0 && code != 0
    requires num <= limit && |attempts| > limit - num
    requires forall i :: 0 <= i < |attempts| ==> attempts[i].Exited? && attempts[i].exitCode == code && attempts[i].stderr == err
    ensures HelperLoop(t, limit, num, map[t.name := t], attempts, notices)
            == HelperResult(Finished(limit),
                            notices + RestartNotices(t.name, code, err, num, limit) + [Notice(t.name, code, err, limit, limit)],
                            map[t.name := t.(active := false)])
    decreases limit - num
  {
    var m := map[t.name := t];
    ExitedKeepsEntry(t, attempts[0].pid, code, err);
    assert attempts[0] == Exited(attempts[0].pid, code, err);
    if num == limit {
      FinalStep(t, limit, num, m, attempts, notices, m, code, err);
      assert WithActive(m, t.name, false) == map[t.name := t.(active := false)];
      assert RestartNotices(t.name, code, err, num, limit) == [];
    } else {
      var ns := notices + [Notice(t.name, code, err, num + 1, limit)];
      RestartStep(t, limit, num, m, attempts, notices, m, code, err);
      PersistentFailure(t, limit, num + 1, attempts[1..], ns, code, err);
      RestartNoticesCons(t.name, code, err, num, limit);
    }
  }

  /** Exit code 1 with restart enabled and a limit of 2: two restarts, each
      announced, then the loop ends with the tunnel inactive and a final
      notice reporting 2 restarts. */
  lemma RestartTwiceThenStop(t: SshTunnel, attempts: seq<Attempt>)
    requires t.restart && t.notify && ParseInt32(t.maxRestarts) == Some(2) && t.active && t.sshPid == 0
    requires |attempts| == 3
    requires forall i :: 0 <= i < |attempts| ==> attempts[i].Exited? && attempts[i].exitCode == 1 && attempts[i].stderr == ""
    ensures var r := HelperRun(t, map[t.name := t], attempts);
      r.outcome == Finished(2) && r.tunnels == map[t.name := t.(active := false)]
      && r.notices == [Notice(t.name, 1, "", 1, 2), Notice(t.name, 1, "", 2, 2), Notice(t.name, 1, "", 2, 2)]
  {
    TwoRestartNotices(t.name);
    PersistentFailure(t, 2, 0, attempts, [], 1, "");
    HelperRunStarts(t, map[t.name := t], attempts, 2);
  }

  lemma TwoRestartNotices(name: string)
    ensures RestartNotices(name, 1, "", 0, 2) == [Notice(name, 1, "", 1, 2), Notice(name, 1, "", 2, 2)]
  {
  }

  /** There is no exemption for exit code 15 (SIGTERM): a terminated process
      is restarted like any other failure. */
  lemma TerminatedProcessRestarts(t: SshTunnel, attempts: seq<Attempt>)
    requires t.restart && !t.notify && t.maxRestarts == "9" && t.active && t.sshPid == 0
    requires attempts == [Exited(101, 15, ""), Exited(102, 0, "")]
    ensures var r := HelperRun(t, map[t.name := t], attempts);
      r.outcome == Finished(1) && r.notices == []
  {
    var m := map[t.name := t];
    ExitedKeepsEntry(t, 101, 15, "");
    ExitedKeepsEntry(t, 102, 0, "");
    RestartStep(t, 9, 0, m, attempts, [], m, 15, "");
    FinalStep(t, 9, 1, m, attempts[1..], [], m, 0, "");
    ParseSmallLimits();
    HelperRunStarts(t, m, attempts, 9);
  }

  // ----- Stopping -----

  /** The result of `Process.GetProcessById(pid).Kill(true)`: it succeeded,
      it threw `ArgumentException` (no such process), or it threw anything
      else. */
  datatype KillOutcome = Killed | NoSuchProcess | KillFailed

  /** The registry after `StopTunnel`. */
  function StopEffect(m: map<string, SshTunnel>, name: string, kill: KillOutcome): map<string, SshTunnel> {
    if PidOf(m, name) == 0 || kill == KillFailed then m else WithPid(m, name, 0)
  }

  /** Stopping only ever clears the pid: every `active` flag is kept, so a
      tunnel that was running is still refused by an immediate start. */
  lemma StopKeepsActive(m: map<string, SshTunnel>, name: string, kill: KillOutcome)
    ensures StopEffect(m, name, kill).Keys == m.Keys
    ensures forall k :: ActiveOf(StopEffect(m, name, kill), k) == ActiveOf(m, k)
    ensures ActiveOf(m, name) ==> !Reserve(StopEffect(m, name, kill), name).1
  {
  }

  /** A stopped process exits with a non-zero code and the pid is 0 once
      the helper sees it, so the stop does not block a restart. */
  lemma StopDoesNotBlockRestart(t: SshTunnel, attempts: seq<Attempt>)
    requires t.restart && !t.notify && t.maxRestarts == "9" && t.active && t.sshPid == 0
    requires attempts == [Exited(101, 137, ""), Exited(102, 0, "")]
    ensures var r := HelperRun(t, map[t.name := t], attempts);
      r.outcome == Finished(1)
  {
    var m := map[t.name := t];
    ExitedKeepsEntry(t, 101, 137, "");
    ExitedKeepsEntry(t, 102, 0, "");
    RestartStep(t, 9, 0, m, attempts, [], m, 137, "");
    FinalStep(t, 9, 1, m, attempts[1..], [], m, 0, "");
    ParseSmallLimits();
    HelperRunStarts(t, m, attempts, 9);
  }

  // ----- Starting -----

  /** The check-then-reserve step `StartTunnel` runs atomically: a known,
      inactive tunnel is marked active; anything else is refused and
      nothing changes. */
  function Reserve(m: map<string, SshTunnel>, name: string): (r: (map<string, SshTunnel>, bool))
    ensures r.1 <==> name in m && !m[name].active
    ensures r.1 ==> r.0 == WithActive(m, name, true)
    ensures !r.1 ==> r.0 == m
  {
    match Lookup(m, name)
    case None => (m, false)
    case Some(t) => if t.active then (m, false) else (m[name := t.(active := true)], true)
  }

  // ----- Notices -----

  /** The pieces of a notice, in order: a localized line, a localized text
      with no line break, an empty line, or the captured stderr text. */
  datatype MessagePart = Line(key: string) | Text(key: string) | EmptyLine | StderrText

  /** The message `ShowErrorNotification` assembles. */
  function NoticeMessage(n: Notice): seq<MessagePart> {
    var withStderr := if n.stderr != "" then [EmptyLine, StderrText] else [];
    var body :=
      if n.stderr != "" && n.exitCode != 15 then [Line("Tunnel_Stopped"), EmptyLine, StderrText]
      else if n.exitCode == 9 then [Line("Tunnel_Stopped"), Text("Tunnel_ProcessKilled")]
      else if n.exitCode == 15 then [Line("Tunnel_Terminated")] + withStderr
      else [Line("Tunnel_Stopped"), Line("Tunnel_UnknownError")] + withStderr;
    body + (if 0 < n.numRestarts <= n.maxRestarts then [EmptyLine, Text("Tunnel_Restarting")] else [])
  }

  /** Which notice text is chosen: the stderr text is shown exactly when
      there is some, the "terminated" title exactly for exit code 15, the
      "killed" text exactly for exit code 9 with no stderr, the unknown
      error line for any other code with no stderr, and the "restarting"
      text exactly when `0 < numRestarts <= maxRestarts`. */
  lemma NoticeBranches(n: Notice)
    ensures StderrText in NoticeMessage(n) <==> n.stderr != ""
    ensures NoticeMessage(n)[0] == Line("Tunnel_Terminated") <==> n.exitCode == 15
    ensures Text("Tunnel_ProcessKilled") in NoticeMessage(n) <==> n.exitCode == 9 && n.stderr == ""
    ensures Line("Tunnel_UnknownError") in NoticeMessage(n) <==> n.exitCode !in {9, 15} && n.stderr == ""
    ensures Text("Tunnel_Restarting") in NoticeMessage(n) <==> 0 < n.numRestarts <= n.maxRestarts
  {
  }

  /** The final failure notice after the last allowed restart still carries
      the "restarting" text, since its count equals the limit. */
  lemma FinalNoticeSaysRestarting()
    ensures Text("Tunnel_Restarting") in NoticeMessage(Notice("db", 1, "", 2, 2))
  {
    NoticeBranches(Notice("db", 1, "", 2, 2));
  }

  // ----- The service object -----

  class SshService {
    const registry: GstmTunnels

    constructor(registry: GstmTunnels)
      ensures this.registry == registry
    {
      this.registry := registry;
    }

    /** `StartTunnel`: reserves the tunnel and returns the record the helper
        thread is started with; an unknown or active tunnel is refused, no
        helper is created and the registry is unchanged. */
    method StartTunnel(name: string) returns (helper: Option<SshTunnel>)
      modifies registry
      ensures helper.Some? <==> name in old(registry.tunnels) && !old(registry.tunnels)[name].active
      ensures helper.Some? ==> registry.tunnels == WithActive(old(registry.tunnels), name, true)
                               && helper.value == registry.tunnels[name] && helper.value.active
      ensures helper.None? ==> registry.tunnels == old(registry.tunnels)
    {
      var canStart := registry.ExecuteAtomicValue(m => Reserve(m, name));
      if !canStart {
        return None;
      }
      helper := registry.TryGet(name);
    }

    /** One pass of the helper's `try` block: the pid is recorded once the
        process runs and cleared after it exits; a spawn that throws records
        nothing and a wait that throws leaves the pid set, both with exit
        code -1. */
    method RunAttempt(name: string, a: Attempt) returns (exitCode: int, stderr: string)
      modifies registry
      ensures (registry.tunnels, exitCode, stderr) == AttemptEffect(old(registry.tunnels), name, a)
    {
      match a {
        case Exited(pid, code, err) =>
          registry.SetSshPid(name, pid);
          exitCode := code;
          stderr := err;
          registry.SetSshPid(name, 0);
        case SpawnFailed =>
          exitCode := -1;
          stderr := "";
        case WaitFailed(pid, err) =>
          registry.SetSshPid(name, pid);
          exitCode := -1;
          stderr := err;
      }
    }

    /** The restart check taken under the registry's lock: it reads the
        recorded pid and leaves the registry as it was. */
    method CheckRestart(t: SshTunnel, exitCode: int, num: nat, maxRestarts: int) returns (restart: bool)
      modifies registry
      ensures registry.tunnels == old(registry.tunnels)
      ensures restart == ShouldRestart(exitCode, t.restart, num, maxRestarts, PidOf(registry.tunnels, t.name))
    {
      restart := registry.ExecuteAtomicValue(
        m => (m, ShouldRestart(exitCode, t.restart, num, maxRestarts, PidOf(m, t.name))));
    }

    /** `HelperThread`: spawns, waits and restarts as `HelperRun` says,
        and returns the notices it shows. */
    method HelperThread(tunnel: SshTunnel, attempts: seq<Attempt>) returns (outcome: HelperOutcome, notices: seq<Notice>)
      modifies registry
      ensures HelperResult(outcome, notices, registry.tunnels) == HelperRun(tunnel, old(registry.tunnels), attempts)
    {
      var parsed := ParseInt32(tunnel.maxRestarts);
      if parsed.None? {
        // unhandled `FormatException` or `OverflowException`: the process ends
        return Crashed, [];
      }
      var maxRestarts := parsed.value;
      var numRestarts: nat := 0;
      notices := [];
      var i := 0;
      assert attempts[i..] == attempts;
      assert HelperRun(tunnel, old(registry.tunnels), attempts)
             == HelperLoop(tunnel, maxRestarts, 0, registry.tunnels, attempts, []);
      while i < |attempts|
        invariant 0 <= i <= |attempts|
        invariant HelperLoop(tunnel, maxRestarts, numRestarts, registry.tunnels, attempts[i..], notices)
                  == HelperRun(tunnel, old(registry.tunnels), attempts)
      {
        assert attempts[i..][0] == attempts[i] && attempts[i..][1..] == attempts[i + 1..];
        var exitCode, stderr := RunAttempt(tunnel.name, attempts[i]);
        var shouldRestart := CheckRestart(tunnel, exitCode, numRestarts, maxRestarts);
        if !shouldRestart {
          if FinalFailure(exitCode, tunnel.restart, numRestarts, maxRestarts) {
            notices := notices + [Notice(tunnel.name, exitCode, stderr, numRestarts, maxRestarts)];
          }
          registry.SetActive(tunnel.name, false);
          return Finished(numRestarts), notices;
        }
        numRestarts := numRestarts + 1;
        if tunnel.notify {
          notices := notices + [Notice(tunnel.name, exitCode, stderr, numRestarts, maxRestarts)];
        }
        i := i + 1;
      }
      outcome := StillRunning(numRestarts);
    }

    /** `StopTunnel`: with no recorded pid nothing happens; a kill that
        succeeds or finds no such process clears the pid; any other failure
        changes nothing. The `active` flag is never touched. */
    method StopTunnel(name: string, kill: KillOutcome)
      modifies registry
      ensures registry.tunnels == StopEffect(old(registry.tunnels), name, kill)
    {
      var pid := registry.GetSshPid(name);
      if pid == 0 {
        return;
      }
      match kill {
        case Killed => registry.SetSshPid(name, 0);
        case NoSuchProcess => registry.SetSshPid(name, 0);
        case KillFailed =>
      }
    }

    /** `IsTunnelActive`. */
    method IsTunnelActive(name: string) returns (active: bool)
      ensures active == ActiveOf(registry.tunnels, name)
    {
      active := registry.GetActive(name);
    }

    /** `BuildSshArguments`: appends the host, "-nN", the connection
        options and the forwarding tokens. */
    method BuildSshArguments(t: SshTunnel) returns (args: seq<string>)
      ensures args == SshArgs(t)
    {
      args := [t.host, "-nN"];
      if !t.preset {
        if !IsBlank(t.port) && |t.port| > 1 {
          args := args + ["-p", t.port];
        }
        assert args == [t.host, "-nN"] + OptionPair("-p", t.port);
        if !IsBlank(t.privateKeyPath) && |t.privateKeyPath| > 1 {
          args := args + ["-i", t.privateKeyPath];
        }
        assert args == [t.host, "-nN"] + OptionPair("-p", t.port) + OptionPair("-i", t.privateKeyPath);
        if !IsBlank(t.login) && |t.login| > 1 {
          args := args + ["-l", t.login];
        }
        assert args == [t.host, "-nN"] + OptionPair("-p", t.port) + OptionPair("-i", t.privateKeyPath)
                       + OptionPair("-l", t.login);
        args := args + ["-o", "ConnectTimeout=5", "-o", "NumberOfPasswordPrompts=1"];
      }
      assert args == [t.host, "-nN"] + ConnectionArgs(t);
      args := AddForwardings(args, t.portRedirections);
    }
  }

  /** The `foreach` over the redirections at the end of
      `BuildSshArguments` (and of the main window's command preview): one
      token per known type, in list order. */
  method AddForwardings(head: seq<string>, rs: seq<PortRedirection>) returns (args: seq<string>)
    ensures args == head + ForwardTokens(rs)
  {
    args := head;
    var i := 0;
    while i < |rs|
      invariant 0 <= i <= |rs|
      invariant args == head + ForwardTokens(rs[..i])
    {
      var r := rs[i];
      var prev := args;
      var kind := ToLower(r.kind);
      if kind == LocalType {
        var token := "-L" + r.port1 + ":" + r.host + ":" + r.port2;
        args := args + [token];
        assert ForwardToken(r) == Some(token);
      } else if kind == RemoteType {
        var token := "-R" + r.port1 + ":" + r.host + ":" + r.port2;
        args := args + [token];
        assert ForwardToken(r) == Some(token);
      } else if kind == DynamicType {
        var token := "-D" + r.port1;
        args := args + [token];
        assert ForwardToken(r) == Some(token);
      } else {
        assert ForwardToken(r) == None;
      }
      assert args == prev + TokenSeq(ForwardToken(r));
      ForwardTokensSnoc(rs, i);
      assert head + ForwardTokens(rs[..i + 1]) == (head + ForwardTokens(rs[..i])) + TokenSeq(ForwardToken(r));
      i := i + 1;
    }
    assert rs[..|rs|] == rs;
  }
}
