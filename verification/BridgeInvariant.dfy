/** What every run of the bridge keeps: the session invariant, the record of requests and of answers. */
module BridgeInvariant {
  import opened KeepaliveText
  import opened Bridge
  import opened BridgeMoves

  const RETRY_GAP_US := 500_000

  /** Neither the counters of the session nor the session ids are about to wrap. */
  predicate Roomy(s: Session) {
    s.lastCompleted < 0x7FFF_FFFF && s.nextSession < 0xFFFF_FFFF
  }

  ghost predicate SessionInv(s: Session) {
    && 1 <= s.nextSession
    && s.session < s.nextSession
    && (Live(s) ==> LiveInv(s))
  }

  // ----- the record of requests sent -----

  ghost predicate Starts(t: Transmission) {
    t.request == 1 && t.attempt == 0
  }

  /** b may come right after a: a new session from request 1, the next request, or the same one again. */
  ghost predicate Follows(a: Transmission, b: Transmission) {
    || (a.session < b.session && Starts(b))
    || (a.session == b.session && b.request == a.request + 1 && b.attempt == 0
        && b.begin - a.end >= KEEPALIVE_PERIOD_US)
    || (a.session == b.session && b.request == a.request && b.attempt == a.attempt + 1
        && b.begin - a.end >= RETRY_GAP_US)
  }

  ghost predicate SentInOrder(sent: seq<Transmission>) {
    && (forall i :: 0 <= i < |sent| ==> sent[i].attempt < RETRY_LIMIT && sent[i].begin <= sent[i].end)
    && (|sent| > 0 ==> Starts(sent[0]))
    && (forall i :: 0 < i < |sent| ==> Follows(sent[i - 1], sent[i]))
  }

  /** Something was sent in the current session. */
  ghost predicate Asking(s: Session) {
    |s.sent| > 0 && s.sent[|s.sent| - 1].session == s.session
  }

  /** How the live session continues the record; `now` is a lower bound of the next clock reading. */
  ghost predicate SentLink(s: Session, now: int) {
    var n := |s.sent|;
    && (n > 0 ==> s.sent[n - 1].session <= s.session)
    && (if Asking(s)
        then 0 < s.lastTx == s.sent[n - 1].end && s.nextRequest == s.sent[n - 1].request + 1
        else s.lastTx == 0 && s.nextRequest == 1)
    && s.lastTx <= now
    && (s.state.ClientReturn? ==>
          && s.windowStarted <= now
          && Asking(s) && s.sent[n - 1].request == s.pendingRequest && s.sent[n - 1].attempt == s.retries
          && s.retries < n
          && s.sent[n - 1 - s.retries].session == s.session
          && s.sent[n - 1 - s.retries].request == s.pendingRequest
          && s.windowStarted - s.sent[n - 1 - s.retries].end >= s.retries * RETRY_GAP_US)
  }

  ghost predicate SentInv(s: Session, now: int) {
    && SentInOrder(s.sent)
    && (|s.sent| > 0 ==> s.sent[|s.sent| - 1].session < s.nextSession)
    && (Live(s) ==> SentLink(s, now))
  }

  // ----- the record of answers -----

  /** b may be the next exchange completed after a: nothing twice, nothing left out. */
  ghost predicate Succeeds(a: Exchange, b: Exchange) {
    || (a.session < b.session && b.request == 1)
    || (a.session == b.session && b.request == a.request + 1)
  }

  ghost predicate CompletedInOrder(completed: seq<Exchange>) {
    && (|completed| > 0 ==> completed[0].request == 1)
    && (forall i :: 0 < i < |completed| ==> Succeeds(completed[i - 1], completed[i]))
  }

  ghost predicate CompletedInv(s: Session) {
    var n := |s.completed|;
    && CompletedInOrder(s.completed)
    && (n > 0 ==> s.completed[n - 1].session < s.nextSession)
    && (Live(s) ==>
          && (n > 0 ==> s.completed[n - 1].session <= s.session)
          && s.lastCompleted == if n > 0 && s.completed[n - 1].session == s.session then s.completed[n - 1].request else 0)
  }

  ghost predicate Kept(s: Session, now: int) {
    SessionInv(s) && SentInv(s, now) && CompletedInv(s)
  }

  // ----- one move -----

  /** The parity fix-ups of a request never fire in a live session. */
  lemma ParityHolds(s: Session)
    requires Live(s) && SessionInv(s) && Roomy(s)
    ensures EvenUp(s.server) == s.server && OddUp(s.client) == s.client
    ensures AnsweredNow(s).server == s.server + 2 && AnsweredNow(s).client == s.server + 1
  {
  }

  lemma QuietKeeps(s: Session, r: Session, now: int, later: int)
    requires Kept(s, now) && Quiet(s, r) && (Roomy(s) || r.nextSession == s.nextSession)
    ensures Kept(r, later)
  {
  }

  lemma OpensKeeps(s: Session, r: Session, now: int, later: int)
    requires Kept(s, now) && Roomy(s) && Opens(s, r) && 0 <= later
    ensures Kept(r, later)
  {
  }

  lemma AskedKeeps(s: Session, now: int, clock: Clock)
    requires Kept(s, now) && Roomy(s) && RequestDue(s, clock.enter)
    requires clock.Ordered() && now <= clock.enter
    ensures Kept(Asked(s, false, clock), clock.armed)
  {
    hide EvenUp, OddUp, AnsweredNow;
    ParityHolds(s);
    var r := Asked(s, false, clock);
    assert SessionInv(r);
    assert r.sent[..|s.sent|] == s.sent;
    assert SentInOrder(r.sent);
  }

  lemma RetriedKeeps(s: Session, now: int, clock: Clock)
    requires Kept(s, now) && Roomy(s) && RetryDue(s, clock.enter)
    requires clock.Ordered() && now <= clock.enter
    ensures Kept(Retried(s, clock), clock.armed)
  {
    hide EvenUp, OddUp, AnsweredNow;
    ParityHolds(s);
    var r := Retried(s, clock);
    assert SessionInv(r);
    assert r.sent[..|s.sent|] == s.sent;
    assert SentInOrder(r.sent);
  }

  lemma AnsweredKeeps(s: Session, now: int, later: int)
    requires Kept(s, now) && Roomy(s) && Live(s) && s.state.ClientReturn? && now <= later
    ensures Kept(AnsweredNow(s), later)
  {
    hide EvenUp, OddUp;
    ParityHolds(s);
  }

  lemma LaterKeeps(s: Session, now: int, later: int)
    requires Kept(s, now) && now <= later
    ensures Kept(s, later)
  {
  }

  lemma OutcomeKeeps(middle: Session, r: Session, now: int)
    requires Kept(middle, now) && Outcome(middle, r)
    ensures Kept(r, now)
  {
    hide Kept, Quiet, Roomy;
    if r != middle {
      QuietKeeps(middle, r, now, now);
    }
  }

  lemma MoveKeeps(s: Session, r: Session, now: int, clock: Clock)
    requires Kept(s, now) && Roomy(s) && clock.Ordered() && now <= clock.enter
    requires Moves(s, r, clock)
    ensures Kept(r, clock.armed)
  {
    hide Kept, Roomy, Opens, Quiet, AnsweredNow, Asked, Retried, RequestDue, RetryDue;
    if r == s {
      LaterKeeps(s, now, clock.armed);
    } else if Quiet(s, r) {
      QuietKeeps(s, r, now, clock.armed);
    } else if Opens(s, r) {
      OpensKeeps(s, r, now, clock.armed);
    } else if RequestDue(s, clock.enter) && Outcome(Asked(s, false, clock), r) {
      AskedKeeps(s, now, clock);
      OutcomeKeeps(Asked(s, false, clock), r, clock.armed);
    } else if RetryDue(s, clock.enter) && Outcome(Retried(s, clock), r) {
      RetriedKeeps(s, now, clock);
      OutcomeKeeps(Retried(s, clock), r, clock.armed);
    } else {
      AnsweredKeeps(s, now, clock.armed);
      OutcomeKeeps(AnsweredNow(s), r, clock.armed);
    }
  }
}
