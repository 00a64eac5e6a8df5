/** The account session as the object the load client keeps
    (load_tests/src/account_session.rs). */
module AccountProgram {

  import opened AccountSession
  import opened Wrappers

  datatype Report = Report(passed: bool, account: string, originalExpiresAt: int, latestExpiresAt: int,
                           originalExpiryCrossed: bool, httpRefreshes: nat, socketRenewals: nat, deferredRenewals: nat,
                           failures: nat, refreshLatencies: seq<int>, renewalLatencies: seq<int>)

  class AccountClient {
    const account: string
    const sessionId: int
    const originalExpiresAt: int
    var token: string
    var cookie: string
    var expiresAt: int
    var socketExpiresAt: int
    var refreshAt: int
    var pending: Option<Pending>
    var refreshLatencies: seq<int>
    var renewalLatencies: seq<int>
    var deferred: nat
    var failures: nat

    ghost function View(): Session
      reads this
    {
      Session(account, sessionId, token, cookie, originalExpiresAt, expiresAt, socketExpiresAt, refreshAt, pending,
              refreshLatencies, renewalLatencies, deferred, failures)
    }

    /** After a successful `login`. */
    constructor (account: string, reply: Reply, cookie: string, epoch: int, now: int)
      requires TokenFits(reply, account, epoch)
      ensures View() == LoggedIn(account, reply.claims.sid, reply.token, cookie, reply.claims.exp,
                                 RefreshDeadline(reply.claims.exp, epoch, now))
      ensures Inv(View())
    {
      this.account, sessionId, originalExpiresAt := account, reply.claims.sid, reply.claims.exp;
      token, this.cookie := reply.token, cookie;
      expiresAt, socketExpiresAt := reply.claims.exp, reply.claims.exp;
      refreshAt := RefreshDeadline(reply.claims.exp, epoch, now);
      pending := None;
      refreshLatencies, renewalLatencies := [], [];
      deferred, failures := 0, 0;
    }

    /** `next_refresh`: the retry time or acknowledgement deadline of a pending renewal,
        else the time of the next refresh. */
    function NextRefresh(): int
      reads this
    {
      if pending.Some? then pending.value.next else refreshAt
    }

    /** The pending branch of `refresh_inner`. */
    method RetryPending(a: Attempt) returns (outcome: Outcome)
      requires pending.Some?
      modifies this`pending
      ensures (View(), outcome) == RefreshInner(old(View()), a)
    {
      var p := pending.value;
      if !(p.retry && a.now >= p.next) {
        return Failed(NotAcknowledged);
      }
      if p.attempts >= MAX_RENEWAL_ATTEMPTS {
        return Failed(RetryBoundExceeded);
      }
      p := p.(requestId := a.id);
      p := p.(attempts := p.attempts + 1);
      p := p.(retry := false);
      p := p.(next := a.now + 1000 * REQUEST_TIMEOUT_SECONDS);
      pending := Some(p);
      outcome := if a.built then Renew(token, a.id) else Failed(NotBuilt);
    }

    /** `refresh_inner`: whatever goes out carries the token the session now has, under the
        request id it waits for; a completed refresh took both from the reply. */
    method RefreshOnce(a: Attempt) returns (outcome: Outcome)
      modifies this
      ensures (View(), outcome) == RefreshInner(old(View()), a)
      ensures outcome.Renew? ==>
                outcome.token == token && pending.Some? && pending.value.requestId == outcome.requestId == a.id
      ensures outcome.Renew? && old(pending.None?) ==>
                && a.reply.Some? && token == a.reply.value.token && Some(cookie) == a.reply.value.cookie
                && expiresAt == a.reply.value.claims.exp && a.reply.value.claims.sid == sessionId
      ensures outcome.Renew? && old(pending.Some?) ==>
                token == old(token) && cookie == old(cookie) && expiresAt == old(expiresAt)
    {
      if pending.Some? {
        outcome := RetryPending(a);
        return;
      }
      if |refreshLatencies| >= MAX_REFRESHES {
        return Failed(TooManyRefreshes);
      }
      if a.reply.None? {
        return Failed(RequestFailed);
      }
      var reply := a.reply.value;
      if !TokenFits(reply, account, a.epoch) {
        return Failed(BadToken);
      }
      if reply.cookie.None? {
        return Failed(NoCookie);
      }
      if !(reply.cookie.value != cookie && reply.claims.exp > expiresAt && reply.claims.sid == sessionId) {
        return Failed(NotExtended);
      }
      refreshLatencies := refreshLatencies + [a.done - a.now];
      cookie := reply.cookie.value;
      token := reply.token;
      expiresAt := reply.claims.exp;
      refreshAt := RefreshDeadline(reply.claims.exp, a.epoch, a.done);
      if !a.built {
        return Failed(NotBuilt);
      }
      pending := Some(Pending(a.id, a.done, a.done + 1000 * REQUEST_TIMEOUT_SECONDS, false, 1));
      return Renew(token, a.id);
    }

    /** `refresh`: keeps the invariant and never runs into the retry bound. A pending renewal
        is not touched before `NextRefresh`, and a message that goes out leaves fifteen
        seconds for its answer. */
    method RefreshCredential(a: Attempt) returns (outcome: Outcome)
      modifies this
      ensures (View(), outcome) == Refresh(old(View()), a)
      ensures old(Inv(View())) ==> Inv(View()) && outcome != Failed(RetryBoundExceeded)
      ensures old(pending.Some?) && a.now < old(NextRefresh()) ==>
                outcome == Failed(NotAcknowledged) && pending == old(pending)
      ensures outcome.Renew? ==> NextRefresh() == 15_000 + if old(pending.Some?) then a.now else a.done
    {
      ghost var before := View();
      outcome := RefreshOnce(a);
      if outcome.Failed? {
        failures := failures + 1;
      }
      if Inv(before) {
        RefreshKeepsInv(before, a);
      }
    }

    method ObserveOnce(m: ServerMessage, now: int, epoch: int) returns (outcome: Outcome)
      modifies this
      ensures (View(), outcome) == ObserveInner(old(View()), m, now, epoch)
    {
      if m.OtherMessage? {
        return Done;
      }
      if m.RenewalFailed? {
        return Failed(RenewalRejected);
      }
      if pending.None? {
        return Failed(Unrequested);
      }
      var p := pending.value;
      if m.Renewed? {
        if !(p.requestId == m.requestId && expiresAt == m.expiresAt) {
          return Failed(AckMismatch);
        }
        renewalLatencies := renewalLatencies + [now - p.started];
        socketExpiresAt := m.expiresAt;
        pending := None;
      } else {
        if !(&& p.requestId == m.requestId && !p.retry && m.expiresAt == socketExpiresAt
             && 1 <= m.retryAfterMs <= 5000 && p.attempts < MAX_RENEWAL_ATTEMPTS
             && epoch + (m.retryAfterMs + 999) / 1000 + REQUEST_TIMEOUT_SECONDS < m.expiresAt) {
          return Failed(UnsafeDeferral);
        }
        pending := Some(p.(retry := true, next := now + m.retryAfterMs));
        deferred := deferred + 1;
      }
      return Done;
    }

    /** `observe`. */
    method ObserveMessage(m: ServerMessage, now: int, epoch: int) returns (outcome: Outcome)
      modifies this
      ensures (View(), outcome) == Observe(old(View()), m, now, epoch)
      ensures old(Inv(View())) ==> Inv(View())
    {
      ghost var before := View();
      outcome := ObserveOnce(m, now, epoch);
      if outcome.Failed? {
        failures := failures + 1;
      }
      if Inv(before) {
        ObserveKeepsInv(before, m, now, epoch);
      }
    }

    /** `report`: what a client that kept the invariant may conclude from its verdict. */
    method ReportSession(epoch: int) returns (report: Report)
      ensures report.passed <==> Passed(View(), epoch)
      ensures report == Report(report.passed, account, originalExpiresAt, socketExpiresAt,
                               epoch >= originalExpiresAt + 60, |refreshLatencies|, |renewalLatencies|, deferred,
                               failures, refreshLatencies, renewalLatencies)
      ensures Inv(View()) && report.passed ==>
                report.latestExpiresAt == expiresAt > epoch && expiresAt >= originalExpiresAt + report.httpRefreshes
      ensures Inv(View()) ==> report.deferredRenewals <= 3 * report.httpRefreshes
    {
      var crossed := epoch >= originalExpiresAt + 60;
      var refreshes, renewals := |refreshLatencies|, |renewalLatencies|;
      report := Report(
        crossed && refreshes > 0 && refreshes == renewals && pending.None? && socketExpiresAt > epoch && failures == 0,
        account, originalExpiresAt, socketExpiresAt, crossed, refreshes, renewals, deferred, failures,
        refreshLatencies, renewalLatencies);
    }
  }

  /** A whole session of the load client: after a login, whatever refreshes and messages come
      in whatever order, the object goes through a run of the protocol. So a passing report
      at the end means that the socket carries the latest token's expiry and nothing is
      outstanding. */
  method DriveSession(account: string, reply: Reply, cookie: string, loginEpoch: int, now: int,
                      events: seq<Event>, epoch: int)
    returns (report: Report, last: AccountClient, ghost trace: seq<Session>)
    requires TokenFits(reply, account, loginEpoch)
    ensures IsRun(trace, events) && trace[|events|] == last.View()
    ensures trace[0] == LoggedIn(account, reply.claims.sid, reply.token, cookie, reply.claims.exp,
                                 RefreshDeadline(reply.claims.exp, loginEpoch, now))
    ensures report.passed <==> Passed(last.View(), epoch)
    ensures report.passed ==> report.latestExpiresAt == last.expiresAt > epoch && last.pending.None?
    ensures report.failures == 0 ==> report.httpRefreshes == report.socketRenewals + Owed(last.View())
    ensures report.deferredRenewals <= 3 * report.httpRefreshes <= 24
  {
    last := new AccountClient(account, reply, cookie, loginEpoch, now);
    trace := [last.View()];
    for n := 0 to |events|
      invariant IsRun(trace, events[..n]) && trace[n] == last.View()
      invariant trace[0] == LoggedIn(account, reply.claims.sid, reply.token, cookie, reply.claims.exp,
                                     RefreshDeadline(reply.claims.exp, loginEpoch, now))
      invariant fresh(last)
    {
      match events[n] {
        case Refreshes(a) => var _ := last.RefreshCredential(a);
        case Observes(m, at, seconds) => var _ := last.ObserveMessage(m, at, seconds);
      }
      RunOn(trace, events, n, last.View());
      trace := trace + [last.View()];
    }
    assert events[..|events|] == events;
    RunKeepsInv(trace, events, |events|);
    report := last.ReportSession(epoch);
  }

  lemma RunOn(trace: seq<Session>, events: seq<Event>, n: nat, next: Session)
    requires n < |events| && IsRun(trace, events[..n]) && next == Step(trace[n], events[n]).0
    ensures IsRun(trace + [next], events[..n + 1])
  {
    var longer, more := trace + [next], events[..n + 1];
    forall k | 0 <= k < |more|
      ensures longer[k + 1] == Step(longer[k], more[k]).0
    {
      if k < n {
        assert events[..n][k] == more[k] && longer[k] == trace[k] && longer[k + 1] == trace[k + 1];
      }
    }
  }
}
