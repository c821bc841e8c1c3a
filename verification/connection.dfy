/** The authentication state of a client and the rules that change it:
    `_RefreshToken`, `_Connect`, `_CheckLastHeartbeat` and `_CheckConnected`.
    The token endpoint, the identity probe and the clock are inputs: each
    connect attempt comes with the token reply, the probe status and the clock
    reading of that attempt. */
module Connection {
  import opened Common
  import opened Settings

  /** `token`, `refresh_token`, `headers`, `last_updated` and `is_connected`
      of one client; the clock is whole seconds. */
  datatype Session = Session(
    token: string,
    refreshToken: string,
    headers: map<string, string>,
    lastUpdated: int,
    isConnected: bool)

  /** The token endpoint's reply as `_RefreshToken` reads it: the request or
      the JSON decoding failed, or a JSON object with or without each of the
      two string fields. */
  datatype AuthReply =
    | AuthUnreachable
    | AuthJson(accessToken: Option<string>, refreshToken: Option<string>)

  /** The identity probe `GET me/drive/`: it raised, or returned a status. */
  datatype Probe = ProbeUnreachable | Status(code: int)

  /** The inputs of one `_Connect` call. */
  datatype Attempt = Attempt(auth: AuthReply, probe: Probe, at: int)

  /** The session after a step and the fault it raised, if any. */
  datatype Step = Step(session: Session, fault: Option<Fault>)

  /** The heartbeat's session, whether it asked for a new token, and its fault. */
  datatype Beat = Beat(session: Session, refreshed: bool, fault: Option<Fault>)

  /** How the connect loop of `_CheckConnected` ended: connected, gave up
      with "Could not connect to OneDrive", aborted by a fault of `_Connect`,
      or still looping when the supplied attempts ran out. */
  datatype LoopEnd = Connected | GaveUp | Aborted(fault: Fault) | AttemptsSpent

  /** The connect loop's session, the number of `_Connect` calls, and how it ended. */
  datatype Trace = Trace(session: Session, calls: nat, end: LoopEnd)

  /** The inputs of one `_CheckConnected` call: the connect attempts, then the
      clock reading and token reply of the heartbeat. */
  datatype GuardInput = GuardInput(attempts: seq<Attempt>, now: int, heartbeat: AuthReply)

  /** The result of `_CheckConnected`: the session, the number of `_Connect`
      calls, whether the heartbeat refreshed, and the fault raised; or
      `Undecided` when the connect loop was still running after the last
      supplied attempt. */
  datatype Guarded =
    | Guarded(session: Session, calls: nat, refreshed: bool, fault: Option<Fault>)
    | Undecided(session: Session, calls: nat)

  const ConnectFailure: string := "Could not connect to OneDrive"
  const StatusOk: int := 200

  /** The header map built from a token. */
  function Bearer(token: string): map<string, string>
  {
    map["Authorization" := "Bearer " + token]
  }

  /** The headers are those of the current token. */
  predicate HeadersInSync(s: Session)
  {
    s.headers == Bearer(s.token)
  }

  /** The session a fresh client starts from, before `_CheckConnected`. */
  function Initial(cfg: Config): Session
  {
    Session("", cfg.refreshToken, map[], 0, false)
  }

  /** `_RefreshToken`: the fields are assigned one after another, so a reply
      without "access_token" raises before anything changes, while one without
      "refresh_token" raises after the token was already replaced. */
  function RefreshToken(s: Session, reply: AuthReply, now: int): (r: Step)
    ensures r.session.isConnected == s.isConnected
    ensures r.fault.None? <==> reply.AuthJson? && reply.accessToken.Some? && reply.refreshToken.Some?
    ensures r.fault.None? ==>
      && r.session.token == reply.accessToken.value
      && r.session.refreshToken == reply.refreshToken.value
      && r.session.lastUpdated == now
      && HeadersInSync(r.session)
    ensures reply.AuthUnreachable? ==> r == Step(s, Some(Transport))
    ensures reply.AuthJson? && reply.accessToken.None? ==> r == Step(s, Some(KeyMissing("access_token")))
    ensures reply.AuthJson? && reply.accessToken.Some? && reply.refreshToken.None? ==>
      r == Step(s.(token := reply.accessToken.value), Some(KeyMissing("refresh_token")))
  {
    match reply
    case AuthUnreachable => Step(s, Some(Transport))
    case AuthJson(access, refresh) =>
      if access.None? then Step(s, Some(KeyMissing("access_token")))
      else if refresh.None? then Step(s.(token := access.value), Some(KeyMissing("refresh_token")))
      else
        var t := access.value;
        Step(s.(token := t, refreshToken := refresh.value, lastUpdated := now, headers := Bearer(t)), None)
  }

  /** `_Connect`: a new token, then the probe; only status 200 connects. */
  function Connect(s: Session, a: Attempt): (r: Step)
    ensures r.fault.None? ==> (r.session.isConnected <==> a.probe == Status(StatusOk))
    ensures r.fault.None? ==> r.session.lastUpdated == a.at && HeadersInSync(r.session)
    ensures r.fault.None? <==>
      a.auth.AuthJson? && a.auth.accessToken.Some? && a.auth.refreshToken.Some? && a.probe.Status?
  {
    var st := RefreshToken(s, a.auth, a.at);
    if st.fault.Some? then st
    else match a.probe
      case ProbeUnreachable => Step(st.session, Some(Transport))
      case Status(code) => Step(st.session.(isConnected := code == StatusOk), None)
  }

  /** An attempt that refreshes the token and probes without success. */
  predicate Unsuccessful(a: Attempt)
  {
    a.auth.AuthJson? && a.auth.accessToken.Some? && a.auth.refreshToken.Some?
    && a.probe.Status? && a.probe.code != StatusOk
  }

  /** An attempt that refreshes the token and gets status 200 from the probe. */
  predicate Successful(a: Attempt)
  {
    a.auth.AuthJson? && a.auth.accessToken.Some? && a.auth.refreshToken.Some?
    && a.probe == Status(StatusOk)
  }

  /** The loop of `_CheckConnected` after `tried` passes: each pass counts
      itself first and gives up when the count reaches `limit`, before calling
      `_Connect`; a fault of `_Connect` is not caught. */
  function ConnectLoop(s: Session, limit: int, tried: nat, attempts: seq<Attempt>): (r: Trace)
    ensures r.calls <= |attempts|
    ensures s.isConnected ==> r == Trace(s, 0, Connected)
    ensures tried < limit ==> tried + r.calls < limit
    ensures r.end == GaveUp ==> tried + 1 + r.calls == limit
    ensures r.end == Connected && !s.isConnected ==>
      && r.calls > 0
      && attempts[r.calls - 1].probe == Status(StatusOk)
      && (forall j :: 0 <= j < r.calls - 1 ==> Unsuccessful(attempts[j]))
    ensures r.end == Connected ==> r.session.isConnected
    decreases |attempts|
  {
    if s.isConnected then Trace(s, 0, Connected)
    else if tried + 1 == limit then Trace(s, 0, GaveUp)
    else if |attempts| == 0 then Trace(s, 0, AttemptsSpent)
    else
      var st := Connect(s, attempts[0]);
      if st.fault.Some? then Trace(st.session, 1, Aborted(st.fault.value))
      else
        var rest := ConnectLoop(st.session, limit, tried + 1, attempts[1..]);
        Trace(rest.session, rest.calls + 1, rest.end)
  }

  /** `_CheckLastHeartbeat`: a new token exactly when more than the refresh
      interval has passed since the last one. */
  function CheckLastHeartbeat(s: Session, interval: int, now: int, reply: AuthReply): (r: Beat)
    ensures r.refreshed <==> now - s.lastUpdated > interval
    ensures !r.refreshed ==> r == Beat(s, false, None)
    ensures r.refreshed ==> Step(r.session, r.fault) == RefreshToken(s, reply, now)
  {
    if now - s.lastUpdated > interval then
      var st := RefreshToken(s, reply, now);
      Beat(st.session, true, st.fault)
    else Beat(s, false, None)
  }

  /** `_CheckConnected`: connect if needed, then the heartbeat. (Waiting for
      running workers is not part of this model.) */
  function CheckConnected(s: Session, cfg: Config, input: GuardInput): (r: Guarded)
    ensures r.calls <= |input.attempts|
    ensures cfg.retryCount >= 1 ==> r.calls <= cfg.retryCount - 1
    ensures r.Guarded? && r.fault.None? ==> r.session.isConnected
    ensures var t := ConnectLoop(s, cfg.retryCount, 0, input.attempts);
      && r.calls == t.calls
      && (t.end == GaveUp ==> r.Guarded? && !r.refreshed && r.fault == Some(Raised(ConnectFailure)))
      && (t.end.Aborted? ==> r.Guarded? && !r.refreshed && r.fault == Some(t.end.fault))
      && (r.Undecided? <==> t.end == AttemptsSpent)
  {
    var t := ConnectLoop(s, cfg.retryCount, 0, input.attempts);
    match t.end
    case Connected =>
      var b := CheckLastHeartbeat(t.session, cfg.refreshInterval, input.now, input.heartbeat);
      Guarded(b.session, t.calls, b.refreshed, b.fault)
    case GaveUp => Guarded(t.session, t.calls, false, Some(Raised(ConnectFailure)))
    case Aborted(f) => Guarded(t.session, t.calls, false, Some(f))
    case AttemptsSpent => Undecided(t.session, t.calls)
  }

  // ---------------------------------------------------------------------------
  // Lemmas

  /** A successful refresh keeps the headers in step with the token. */
  lemma RefreshKeepsHeadersInSync(s: Session, reply: AuthReply, now: int)
    requires RefreshToken(s, reply, now).fault.None?
    ensures HeadersInSync(RefreshToken(s, reply, now).session)
    ensures RefreshToken(s, reply, now).session.lastUpdated == now
  {
  }

  /** A reply without "refresh_token" but with a new access token leaves the
      headers carrying the old token. */
  lemma MissingRefreshTokenLeavesHeadersStale(s: Session, access: string, now: int)
    requires HeadersInSync(s) && access != s.token
    ensures var r := RefreshToken(s, AuthJson(Some(access), None), now);
      && r.fault == Some(KeyMissing("refresh_token"))
      && r.session.token == access
      && r.session.headers == s.headers
      && !HeadersInSync(r.session)
  {
    var r := RefreshToken(s, AuthJson(Some(access), None), now);
    var renewed := "Bearer " + access;
    var stale := "Bearer " + s.token;
    assert renewed[7..] == access && stale[7..] == s.token;
    assert renewed != stale;
    assert r.session.headers["Authorization"] == stale;
    assert Bearer(access)["Authorization"] == renewed;
  }

  /** Right after a successful refresh at `now`, a heartbeat at the same
      instant with a non-negative interval does not refresh again. */
  lemma HeartbeatAfterRefreshIsQuiet(s: Session, reply: AuthReply, reply2: AuthReply, interval: int, now: int)
    requires interval >= 0
    requires CheckLastHeartbeat(s, interval, now, reply).fault.None?
    ensures var b := CheckLastHeartbeat(s, interval, now, reply);
      CheckLastHeartbeat(b.session, interval, now, reply2) == Beat(b.session, false, None)
  {
  }

  /** Two heartbeats in immediate succession ask for at most one token. */
  lemma TwoHeartbeatsRefreshAtMostOnce(s: Session, r1: AuthReply, r2: AuthReply, interval: int, now: int)
    requires interval >= 0
    ensures var b := CheckLastHeartbeat(s, interval, now, r1);
      b.fault.None? ==> !(b.refreshed && CheckLastHeartbeat(b.session, interval, now, r2).refreshed)
  {
  }

  /** With a positive retry count and at least that many attempts minus one
      supplied, the loop always reaches a verdict. */
  lemma {:induction false} ConnectLoopDecides(s: Session, limit: int, tried: nat, attempts: seq<Attempt>)
    requires tried < limit
    requires |attempts| >= limit - 1 - tried
    ensures ConnectLoop(s, limit, tried, attempts).end != AttemptsSpent
    decreases |attempts|
  {
    if !s.isConnected && tried + 1 != limit && |attempts| > 0 {
      var st := Connect(s, attempts[0]);
      if st.fault.None? {
        ConnectLoopDecides(st.session, limit, tried + 1, attempts[1..]);
      }
    }
  }

  /** The loop stops at the first successful attempt, as long as the counter
      does not reach the retry count before it: after `k` unsuccessful
      attempts, a successful attempt `k` ends the loop connected, with
      exactly `k + 1` calls of `_Connect`. */
  lemma {:induction false} ConnectLoopStopsAtFirstSuccess(s: Session, limit: int, tried: nat,
                                                          attempts: seq<Attempt>, k: nat)
    requires !s.isConnected
    requires k < |attempts|
    requires limit <= tried || tried + k + 1 < limit
    requires forall j :: 0 <= j < k ==> Unsuccessful(attempts[j])
    requires Successful(attempts[k])
    ensures ConnectLoop(s, limit, tried, attempts).end == Connected
    ensures ConnectLoop(s, limit, tried, attempts).calls == k + 1
    ensures ConnectLoop(s, limit, tried, attempts).session.lastUpdated == attempts[k].at
    decreases k
  {
    var st := Connect(s, attempts[0]);
    if k > 0 {
      assert Unsuccessful(attempts[0]);
      forall j | 0 <= j < k - 1 ensures Unsuccessful(attempts[1..][j]) {
        assert attempts[1..][j] == attempts[j + 1];
      }
      ConnectLoopStopsAtFirstSuccess(st.session, limit, tried + 1, attempts[1..], k - 1);
    }
  }

  /** `_CheckConnected` on a disconnected client whose attempt `k` is the
      first successful one, within the retry count: the check makes `k + 1`
      connect calls and then runs the heartbeat, which refreshes only when
      more than the interval has passed since that attempt; without a
      refresh the check passes. */
  lemma CheckConnectedAfterSuccess(s: Session, cfg: Config, input: GuardInput, k: nat)
    requires !s.isConnected
    requires k < |input.attempts|
    requires cfg.retryCount <= 0 || k + 1 < cfg.retryCount
    requires forall j :: 0 <= j < k ==> Unsuccessful(input.attempts[j])
    requires Successful(input.attempts[k])
    ensures var r := CheckConnected(s, cfg, input);
      && r.Guarded?
      && r.calls == k + 1
      && (r.refreshed <==> input.now - input.attempts[k].at > cfg.refreshInterval)
      && (!r.refreshed ==> r.fault.None? && r.session.isConnected)
  {
    ConnectLoopStopsAtFirstSuccess(s, cfg.retryCount, 0, input.attempts, k);
  }

  /** A retry count of 1 gives up at once, without any `_Connect` call. */
  lemma SingleRetryNeverConnects(s: Session, attempts: seq<Attempt>)
    requires !s.isConnected
    ensures ConnectLoop(s, 1, 0, attempts) == Trace(s, 0, GaveUp)
  {
  }

  /** With a retry count of zero or less the counter never equals it: while
      every attempt fails, the loop is still running after any number of
      attempts, so it never terminates. */
  lemma {:induction false} NonPositiveRetryNeverGivesUp(s: Session, limit: int, tried: nat, attempts: seq<Attempt>)
    requires limit <= 0 && !s.isConnected
    requires forall j :: 0 <= j < |attempts| ==> Unsuccessful(attempts[j])
    ensures ConnectLoop(s, limit, tried, attempts).end == AttemptsSpent
    ensures ConnectLoop(s, limit, tried, attempts).calls == |attempts|
    decreases |attempts|
  {
    if |attempts| > 0 {
      var st := Connect(s, attempts[0]);
      assert !st.session.isConnected && st.fault.None?;
      NonPositiveRetryNeverGivesUp(st.session, limit, tried + 1, attempts[1..]);
    }
  }

  /** When every attempt fails the loop makes exactly `limit - 1` calls and
      then gives up. */
  lemma {:induction false} AllFailingGivesUp(s: Session, limit: int, tried: nat, attempts: seq<Attempt>)
    requires !s.isConnected && tried < limit
    requires |attempts| >= limit - 1 - tried
    requires forall j :: 0 <= j < |attempts| ==> Unsuccessful(attempts[j])
    ensures ConnectLoop(s, limit, tried, attempts).end == GaveUp
    ensures ConnectLoop(s, limit, tried, attempts).calls == limit - 1 - tried
    decreases |attempts|
  {
    if tried + 1 != limit {
      var st := Connect(s, attempts[0]);
      assert !st.session.isConnected && st.fault.None?;
      AllFailingGivesUp(st.session, limit, tried + 1, attempts[1..]);
    }
  }

  /** A disconnected client whose every attempt fails, with a retry count of
      at least 1 and enough attempts supplied, raises "Could not connect to
      OneDrive" after exactly `number_retry_connection - 1` connect calls. */
  lemma AllFailingCheckRaises(s: Session, cfg: Config, input: GuardInput)
    requires !s.isConnected && cfg.retryCount >= 1
    requires |input.attempts| >= cfg.retryCount - 1
    requires forall j :: 0 <= j < |input.attempts| ==> Unsuccessful(input.attempts[j])
    ensures var r := CheckConnected(s, cfg, input);
      && r.Guarded?
      && r.calls == cfg.retryCount - 1
      && r.fault == Some(Raised(ConnectFailure))
  {
    AllFailingGivesUp(s, cfg.retryCount, 0, input.attempts);
  }

  /** A connected client whose token is not yet stale passes the check with
      no `_Connect` call, no refresh and no change. */
  lemma ConnectedAndFreshIsNoOp(s: Session, cfg: Config, input: GuardInput)
    requires s.isConnected
    requires input.now - s.lastUpdated <= cfg.refreshInterval
    ensures CheckConnected(s, cfg, input) == Guarded(s, 0, false, None)
  {
  }

  /** A connected client never calls `_Connect`; the check reduces to the
      heartbeat. */
  lemma ConnectedOnlyHeartbeats(s: Session, cfg: Config, input: GuardInput)
    requires s.isConnected
    ensures CheckConnected(s, cfg, input).Guarded?
    ensures CheckConnected(s, cfg, input).calls == 0
    ensures CheckConnected(s, cfg, input).refreshed <==>
      input.now - s.lastUpdated > cfg.refreshInterval
  {
  }
}
