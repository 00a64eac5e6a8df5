/** Renewal of an account's credential over HTTP and over its socket
    (load_tests/src/account_session.rs). Instants are milliseconds of a monotone clock,
    expiries are epoch seconds; replies, clock readings and fresh ids are inputs. */
module AccountSession {

  import opened Wrappers

  const REQUEST_TIMEOUT_SECONDS: int := 15
  const REFRESH_BEFORE_SECONDS: int := 60
  const MAX_RENEWAL_ATTEMPTS: nat := 4
  const MAX_REFRESHES: nat := 8

  datatype Pending = Pending(requestId: string, started: int, next: int, retry: bool, attempts: nat)

  datatype Session = Session(account: string, sessionId: int, token: string, cookie: string,
                             originalExpiresAt: int, expiresAt: int, socketExpiresAt: int, refreshAt: int,
                             pending: Option<Pending>, refreshLatencies: seq<int>, renewalLatencies: seq<int>,
                             deferred: nat, failures: nat)

  datatype Claims = Claims(sub: string, exp: int, sid: int)

  /** An authentication response with its token decoded and its refresh cookie extracted. */
  datatype Reply = Reply(user: string, token: string, claims: Claims, cookie: Option<string>)

  /** What one call of `refresh` meets: the clocks before and after the request, the reply
      (none if the request failed), a fresh id and whether the message could be built. */
  datatype Attempt = Attempt(now: int, done: int, epoch: int, reply: Option<Reply>, id: string, built: bool)

  datatype ServerMessage =
    | Renewed(requestId: string, expiresAt: int)
    | RenewalFailed
    | RenewalDeferred(requestId: string, retryAfterMs: nat, expiresAt: int)
    | OtherMessage

  datatype Fault =
    | NotAcknowledged | RetryBoundExceeded | TooManyRefreshes | RequestFailed | BadToken | NoCookie
    | NotExtended | NotBuilt | Unrequested | AckMismatch | RenewalRejected | UnsafeDeferral

  datatype Outcome = Done | Renew(token: string, requestId: string) | Failed(fault: Fault)

  // -------------------------------------------------------------------- operations

  /** `token_claims`: the right account and an unmodified fifteen-minute lifetime. */
  predicate TokenFits(reply: Reply, account: string, epoch: int) {
    reply.user == account && reply.claims.sub == account && epoch + 600 < reply.claims.exp <= epoch + 960
  }

  function RefreshDeadline(exp: int, epoch: int, now: int): int {
    now + 1000 * if exp > epoch + REFRESH_BEFORE_SECONDS then exp - epoch - REFRESH_BEFORE_SECONDS else 0
  }

  /** A new session, after `login`. */
  function LoggedIn(account: string, sessionId: int, token: string, cookie: string, exp: int, refreshAt: int): Session {
    Session(account, sessionId, token, cookie, exp, exp, exp, refreshAt, None, [], [], 0, 0)
  }

  function Renewal(s: Session, a: Attempt): Outcome {
    if a.built then Renew(s.token, a.id) else Failed(NotBuilt)
  }

  function RefreshInner(s: Session, a: Attempt): (Session, Outcome) {
    if s.pending.Some? then
      var p := s.pending.value;
      if !(p.retry && a.now >= p.next) then (s, Failed(NotAcknowledged))
      else if p.attempts >= MAX_RENEWAL_ATTEMPTS then (s, Failed(RetryBoundExceeded))
      else
        (s.(pending := Some(p.(requestId := a.id, attempts := p.attempts + 1, retry := false,
                               next := a.now + 1000 * REQUEST_TIMEOUT_SECONDS))),
         Renewal(s, a))
    else if |s.refreshLatencies| >= MAX_REFRESHES then (s, Failed(TooManyRefreshes))
    else if a.reply.None? then (s, Failed(RequestFailed))
    else
      var r := a.reply.value;
      if !TokenFits(r, s.account, a.epoch) then (s, Failed(BadToken))
      else if r.cookie.None? then (s, Failed(NoCookie))
      else if !(r.cookie.value != s.cookie && r.claims.exp > s.expiresAt && r.claims.sid == s.sessionId) then
        (s, Failed(NotExtended))
      else
        var t := s.(refreshLatencies := s.refreshLatencies + [a.done - a.now], cookie := r.cookie.value,
                    token := r.token, expiresAt := r.claims.exp,
                    refreshAt := RefreshDeadline(r.claims.exp, a.epoch, a.done));
        if !a.built then (t, Failed(NotBuilt))
        else (t.(pending := Some(Pending(a.id, a.done, a.done + 1000 * REQUEST_TIMEOUT_SECONDS, false, 1))),
              Renewal(t, a))
  }

  function ObserveInner(s: Session, m: ServerMessage, now: int, epoch: int): (Session, Outcome) {
    match m
    case Renewed(id, expiresAt) =>
      if s.pending.None? then (s, Failed(Unrequested))
      else if !(s.pending.value.requestId == id && s.expiresAt == expiresAt) then (s, Failed(AckMismatch))
      else (s.(renewalLatencies := s.renewalLatencies + [now - s.pending.value.started],
               socketExpiresAt := expiresAt, pending := None), Done)
    case RenewalFailed => (s, Failed(RenewalRejected))
    case RenewalDeferred(id, retryAfterMs, expiresAt) =>
      if s.pending.None? then (s, Failed(Unrequested))
      else
        var p := s.pending.value;
        if !(&& p.requestId == id && !p.retry && expiresAt == s.socketExpiresAt
             && 1 <= retryAfterMs <= 5000 && p.attempts < MAX_RENEWAL_ATTEMPTS
             && epoch + (retryAfterMs + 999) / 1000 + REQUEST_TIMEOUT_SECONDS < expiresAt)
        then (s, Failed(UnsafeDeferral))
        else (s.(pending := Some(p.(retry := true, next := now + retryAfterMs)), deferred := s.deferred + 1), Done)
    case OtherMessage => (s, Done)
  }

  /** `refresh` and `observe` count every failure. */
  function Counted(result: (Session, Outcome)): (Session, Outcome) {
    if result.1.Failed? then (result.0.(failures := result.0.failures + 1), result.1) else result
  }

  function Refresh(s: Session, a: Attempt): (Session, Outcome) {
    Counted(RefreshInner(s, a))
  }

  function Observe(s: Session, m: ServerMessage, now: int, epoch: int): (Session, Outcome) {
    Counted(ObserveInner(s, m, now, epoch))
  }

  /** The verdict of `report`. */
  predicate Passed(s: Session, epoch: int) {
    && epoch >= s.originalExpiresAt + 60
    && |s.refreshLatencies| > 0
    && |s.refreshLatencies| == |s.renewalLatencies|
    && s.pending.None?
    && s.socketExpiresAt > epoch
    && s.failures == 0
  }

  // --------------------------------------------------------------------------- runs

  datatype Event = Refreshes(attempt: Attempt) | Observes(message: ServerMessage, now: int, epoch: int)

  function Step(s: Session, e: Event): (Session, Outcome) {
    match e
    case Refreshes(a) => Refresh(s, a)
    case Observes(m, now, epoch) => Observe(s, m, now, epoch)
  }

  predicate IsRun(trace: seq<Session>, events: seq<Event>) {
    && |trace| == |events| + 1
    && trace[0] == LoggedIn(trace[0].account, trace[0].sessionId, trace[0].token, trace[0].cookie,
                            trace[0].originalExpiresAt, trace[0].refreshAt)
    && forall n {:trigger events[n]} | 0 <= n < |events| :: trace[n + 1] == Step(trace[n], events[n]).0
  }

  function Owed(s: Session): nat {
    if s.pending.Some? then 1 else 0
  }

  /** Deferrals the pending renewal has used up. */
  function Spent(s: Session): int {
    if s.pending.None? then 0 else s.pending.value.attempts - 1 + if s.pending.value.retry then 1 else 0
  }

  predicate Inv(s: Session) {
    && |s.refreshLatencies| <= MAX_REFRESHES
    && |s.renewalLatencies| + Owed(s) <= |s.refreshLatencies|
    && s.originalExpiresAt + |s.refreshLatencies| <= s.expiresAt
    && s.socketExpiresAt <= s.expiresAt
    && (s.pending.Some? ==>
          && s.socketExpiresAt < s.expiresAt
          && 1 <= s.pending.value.attempts <= MAX_RENEWAL_ATTEMPTS
          && (s.pending.value.retry ==> s.pending.value.attempts < MAX_RENEWAL_ATTEMPTS))
    && s.deferred <= 3 * |s.renewalLatencies| + Spent(s)
    && (s.failures == 0 ==>
          && |s.refreshLatencies| == |s.renewalLatencies| + Owed(s)
          && (s.pending.None? ==> s.socketExpiresAt == s.expiresAt))
  }

  lemma RefreshKeepsInv(s: Session, a: Attempt)
    requires Inv(s)
    ensures Inv(Refresh(s, a).0) && Refresh(s, a).1 != Failed(RetryBoundExceeded)
  {}

  lemma ObserveKeepsInv(s: Session, m: ServerMessage, now: int, epoch: int)
    requires Inv(s)
    ensures Inv(Observe(s, m, now, epoch).0)
  {}

  lemma {:induction false} RunKeepsInv(trace: seq<Session>, events: seq<Event>, n: nat)
    requires IsRun(trace, events) && n < |trace|
    ensures Inv(trace[n])
  {
    if n > 0 {
      RunKeepsInv(trace, events, n - 1);
      match events[n - 1]
      case Refreshes(a) => RefreshKeepsInv(trace[n - 1], a);
      case Observes(m, now, epoch) => ObserveKeepsInv(trace[n - 1], m, now, epoch);
    }
  }

  /** While nothing has failed, every HTTP refresh has its socket renewal except the one
      that is pending, and the socket lags behind the token exactly while it is. */
  lemma RenewalsKeepUp(trace: seq<Session>, events: seq<Event>, n: nat)
    requires IsRun(trace, events) && n < |trace| && trace[n].failures == 0
    ensures |trace[n].refreshLatencies| == |trace[n].renewalLatencies| + Owed(trace[n])
    ensures trace[n].socketExpiresAt <= trace[n].expiresAt
    ensures trace[n].socketExpiresAt == trace[n].expiresAt <==> trace[n].pending.None?
  {
    RunKeepsInv(trace, events, n);
  }

  /** A renewal is retried at most three times, so the retry bound of `refresh` never
      fires and a run sees at most three deferrals per refresh. */
  lemma RetriesAreBounded(trace: seq<Session>, events: seq<Event>, n: nat)
    requires IsRun(trace, events) && n < |events|
    ensures Step(trace[n], events[n]).1 != Failed(RetryBoundExceeded)
    ensures trace[n].deferred <= 3 * |trace[n].refreshLatencies| <= 3 * MAX_REFRESHES
  {
    RunKeepsInv(trace, events, n);
    if events[n].Refreshes? {
      RefreshKeepsInv(trace[n], events[n].attempt);
    }
  }

  predicate SameCredentials(s: Session, t: Session) {
    s.cookie == t.cookie && s.token == t.token && s.expiresAt == t.expiresAt && s.refreshAt == t.refreshAt
  }

  /** A step rotates the cookie exactly when it completes an HTTP refresh. */
  lemma StepRotates(s: Session, e: Event)
    ensures var t := Step(s, e).0;
            && |s.refreshLatencies| <= |t.refreshLatencies| <= |s.refreshLatencies| + 1
            && (|t.refreshLatencies| == |s.refreshLatencies| <==> t.cookie == s.cookie)
            && (|t.refreshLatencies| == |s.refreshLatencies| ==> SameCredentials(s, t))
            && (|t.refreshLatencies| > |s.refreshLatencies| ==>
                  e.Refreshes? && s.pending.None? && s.expiresAt < t.expiresAt)
  {}

  /** Between two completed refreshes nothing touches the credentials, however many
      deferrals, retries, acknowledgements and failures there are. */
  lemma {:induction false} DeferralsKeepCredentials(trace: seq<Session>, events: seq<Event>, m: nat, n: nat)
    requires IsRun(trace, events) && m <= n < |trace|
    ensures |trace[m].refreshLatencies| <= |trace[n].refreshLatencies|
    ensures |trace[m].refreshLatencies| == |trace[n].refreshLatencies| ==> SameCredentials(trace[m], trace[n])
  {
    if m < n {
      DeferralsKeepCredentials(trace, events, m, n - 1);
      StepRotates(trace[n - 1], events[n - 1]);
    }
  }

  /** A passing report means the socket carries the latest token's expiry, beyond the
      original one; comparing the two counts adds nothing to the other conditions. */
  lemma PassedMeans(trace: seq<Session>, events: seq<Event>, n: nat, epoch: int)
    requires IsRun(trace, events) && n < |trace|
    ensures var s := trace[n];
            && (Passed(s, epoch) <==>
                && epoch >= s.originalExpiresAt + 60 && |s.refreshLatencies| > 0 && s.pending.None?
                && s.socketExpiresAt > epoch && s.failures == 0)
            && (Passed(s, epoch) ==>
                && s.socketExpiresAt == s.expiresAt
                && s.expiresAt >= s.originalExpiresAt + |s.refreshLatencies|)
  {
    RunKeepsInv(trace, events, n);
  }

  /** The retry of an accepted deferral and the wait for its answer both fit inside the
      credential the socket still has, at whatever millisecond of the epoch second the
      deferral arrived; the credential itself is untouched. */
  lemma DeferralIsSafe(s: Session, id: string, retryAfterMs: nat, expiresAt: int, now: int, epoch: int, wall: int)
    requires 1000 * epoch <= wall < 1000 * epoch + 1000
    requires Observe(s, RenewalDeferred(id, retryAfterMs, expiresAt), now, epoch).1 == Done
    ensures var t := Observe(s, RenewalDeferred(id, retryAfterMs, expiresAt), now, epoch).0;
            && t.pending.Some? && t.pending.value.retry && t.pending.value.next == now + retryAfterMs
            && wall + retryAfterMs + 1000 * REQUEST_TIMEOUT_SECONDS < 1000 * t.socketExpiresAt
            && t.socketExpiresAt == s.socketExpiresAt && SameCredentials(s, t)
  {}

  // -------------------------------------------------- what goes out and what comes in

  /** A reply that the session may take over. */
  predicate Usable(s: Session, a: Attempt) {
    && s.pending.None? && |s.refreshLatencies| < 8 && a.reply.Some?
    && var r := a.reply.value;
       && r.user == r.claims.sub == s.account && r.claims.sid == s.sessionId
       && r.cookie.Some? && r.cookie.value != s.cookie
       && r.claims.exp > s.expiresAt && 600 < r.claims.exp - a.epoch <= 960
  }

  /** A refresh takes over the reply's credentials exactly when it may, sends its token in the
      renewal and comes back a minute before it expires. */
  lemma RefreshTakesOver(s: Session, a: Attempt)
    requires s.pending.None?
    ensures var (t, outcome) := Refresh(s, a);
            if Usable(s, a) then
              var r := a.reply.value;
              && t.token == r.token && t.expiresAt == r.claims.exp && Some(t.cookie) == r.cookie
              && t.refreshAt == a.done + 1_000 * (r.claims.exp - a.epoch - 60)
              && t.refreshLatencies == s.refreshLatencies + [a.done - a.now]
              && t.socketExpiresAt == s.socketExpiresAt && t.renewalLatencies == s.renewalLatencies
              && outcome == (if a.built then Renew(r.token, a.id) else Failed(NotBuilt))
              && t.pending == if a.built then Some(Pending(a.id, a.done, a.done + 15_000, false, 1)) else None
            else
              outcome.Failed? && t == s.(failures := s.failures + 1)
  {}

  /** A pending renewal is sent again exactly when its deferral has run out and attempts are
      left, with the token the session already has and a request id of its own. */
  lemma RetryRepeats(s: Session, a: Attempt)
    requires s.pending.Some?
    ensures var p, (t, outcome) := s.pending.value, Refresh(s, a);
            if p.retry && a.now >= p.next && p.attempts < 4 then
              && SameCredentials(s, t) && t.refreshLatencies == s.refreshLatencies
              && t.socketExpiresAt == s.socketExpiresAt && t.renewalLatencies == s.renewalLatencies
              && t.pending == Some(Pending(a.id, p.started, a.now + 15_000, false, p.attempts + 1))
              && outcome == if a.built then Renew(s.token, a.id) else Failed(NotBuilt)
            else
              outcome.Failed? && t == s.(failures := s.failures + 1)
  {}

  /** An acknowledgement is accepted exactly when it names the pending request and the latest
      expiry, which the socket then has. */
  lemma AcknowledgesExactly(s: Session, id: string, expiresAt: int, now: int, epoch: int)
    ensures var (t, outcome) := Observe(s, Renewed(id, expiresAt), now, epoch);
            if s.pending.Some? && s.pending.value.requestId == id && expiresAt == s.expiresAt then
              && outcome == Done && SameCredentials(s, t) && t.failures == s.failures
              && t.pending.None? && t.socketExpiresAt == s.expiresAt
              && t.renewalLatencies == s.renewalLatencies + [now - s.pending.value.started]
            else
              outcome.Failed? && t == s.(failures := s.failures + 1)
  {}

  /** A deferral of `seconds`, rounded up, is accepted exactly when it names the pending
      request and the socket's expiry, is the first of this attempt, leaves attempts and lets
      the retry and its answer come before the expiry. */
  lemma DefersExactly(s: Session, id: string, retryAfterMs: nat, expiresAt: int, now: int, epoch: int, seconds: int)
    requires 1_000 * (seconds - 1) < retryAfterMs <= 1_000 * seconds
    ensures var (t, outcome) := Observe(s, RenewalDeferred(id, retryAfterMs, expiresAt), now, epoch);
            if && s.pending.Some? && s.pending.value.requestId == id && expiresAt == s.socketExpiresAt
               && !s.pending.value.retry && s.pending.value.attempts < 4
               && 1 <= retryAfterMs <= 5_000 && epoch + seconds + 15 < expiresAt
            then
              && outcome == Done
              && t == s.(pending := Some(s.pending.value.(retry := true, next := now + retryAfterMs)),
                         deferred := s.deferred + 1)
            else
              outcome.Failed? && t == s.(failures := s.failures + 1)
  {}

  /** A step before `n` sent the renewal `id` with this token. */
  predicate WasSent(trace: seq<Session>, events: seq<Event>, n: nat, token: string, id: string)
    requires |trace| == |events| + 1 && n <= |events|
  {
    exists k :: 0 <= k < n && SendsAt(trace[k], events[k], token, id)
  }

  predicate SendsAt(s: Session, e: Event, token: string, id: string) {
    Step(s, e).1 == Renew(token, id)
  }

  /** Without a failure a pending renewal went out with the session's token. */
  predicate Outstanding(trace: seq<Session>, events: seq<Event>, n: nat)
    requires |trace| == |events| + 1 && n <= |events|
  {
    trace[n].failures == 0 && trace[n].pending.Some? ==>
      WasSent(trace, events, n, trace[n].token, trace[n].pending.value.requestId)
  }

  lemma StepSends(s: Session, e: Event)
    ensures var t := Step(s, e).0;
            && s.failures <= t.failures
            && (t.failures == 0 && t.pending.Some? ==>
                  || SendsAt(s, e, t.token, t.pending.value.requestId)
                  || (s.pending.Some? && t.token == s.token
                      && t.pending.value.requestId == s.pending.value.requestId))
  {}

  lemma {:induction false} PendingWasSent(trace: seq<Session>, events: seq<Event>, n: nat)
    requires IsRun(trace, events) && n < |trace|
    ensures Outstanding(trace, events, n)
  {
    if n > 0 {
      PendingWasSent(trace, events, n - 1);
      var e := events[n - 1];
      StepSends(trace[n - 1], e);
      if trace[n].failures == 0 && trace[n].pending.Some? && trace[n - 1].pending.Some? {
        var token, id := trace[n].token, trace[n].pending.value.requestId;
        if !SendsAt(trace[n - 1], e, token, id) {
          var k :| 0 <= k < n - 1 && SendsAt(trace[k], events[k], token, id);
        }
      }
    }
  }

  /** In a run without failures every accepted acknowledgement answers a message that went
      out before, with the token the session has now. */
  lemma AcknowledgementsAnswer(trace: seq<Session>, events: seq<Event>, n: nat)
    requires IsRun(trace, events) && n < |events| && trace[n].failures == 0
    requires events[n].Observes? && events[n].message.Renewed? && Step(trace[n], events[n]).1 == Done
    ensures WasSent(trace, events, n, trace[n].token, events[n].message.requestId)
  {
    PendingWasSent(trace, events, n);
    var m := events[n].message;
    AcknowledgesExactly(trace[n], m.requestId, m.expiresAt, events[n].now, events[n].epoch);
  }
}
