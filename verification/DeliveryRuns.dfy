/**
  One recipient of one post under any number of overlapping publishes and dispatches: each works
  through claim, send and record one statement at a time, may fail or die at every one of them, and
  always carries its claim's token. A mail counts as accepted once the transport's send returned.
*/
module DeliveryRuns {
  import opened Deliveries

  datatype Worker =
    | TakingOver
    | Inspecting
    | Sending(token: Token)
    | Recording(token: Token, tries: nat)
    | Failing(token: Token)
    | Releasing(token: Token)
    | Answered(claim: Claim)
    | Finished

  datatype State = State(
    row: Entry,
    workers: map<nat, Worker>,
    clock: Token,             // of the last claim
    accepted: set<Token>,     // claims whose mail the transport accepted
    displaced: set<Token>,    // claims a stale takeover replaced
    sends: nat,
    takeovers: nat)           // of stale claims; re-claiming a failed row is not one

  const EMPTY := State(Absent, map[], 0, {}, {}, 0, 0)

  datatype Event =
    | Insert(w: nat, now: Token)
    | TakeOver(w: nat, now: Token)
    | Inspect(w: nat)
    | Accept(w: nat)
    | Reject(w: nat)
    | Unconfigured(w: nat)
    | Write(w: nat, applied: bool, answered: bool)
    | Fail(w: nat)
    | Release(w: nat)
    | Die(w: nat)

  /** The clock is past every earlier claim; a write may be applied and still go unanswered. */
  predicate Legal(s: State, e: Event) {
    match e
    case Insert(w, now) => w !in s.workers && now > s.clock
    case TakeOver(w, now) => w in s.workers && s.workers[w].TakingOver? && now > s.clock
    case Inspect(w) => w in s.workers && s.workers[w].Inspecting?
    case Accept(w) => w in s.workers && s.workers[w].Sending?
    case Reject(w) => w in s.workers && s.workers[w].Sending?
    case Unconfigured(w) => w in s.workers && s.workers[w].Sending?
    case Write(w, applied, answered) => w in s.workers && s.workers[w].Recording? && (answered ==> applied)
    case Fail(w) => w in s.workers && s.workers[w].Failing?
    case Release(w) => w in s.workers && s.workers[w].Releasing?
    case Die(w) => w in s.workers
  }

  function Moved(s: State, w: nat, pc: Worker): State { s.(workers := s.workers[w := pc]) }

  function Step(s: State, e: Event): State
    requires Legal(s, e)
  {
    match e
    case Insert(w, now) =>
      if s.row.Absent? then Moved(s, w, Sending(now)).(row := Claimed(now), clock := now) else Moved(s, w, TakingOver)
    case TakeOver(w, now) =>
      if !Takeable(s.row, now) then Moved(s, w, Inspecting)
      else
        var next := Moved(s, w, Sending(now)).(row := Claimed(now), clock := now);
        if s.row.Failed? then next else next.(displaced := s.displaced + {s.row.at}, takeovers := s.takeovers + 1)
    case Inspect(w) => Moved(s, w, Answered(Inspected(s.row)))
    case Accept(w) =>
      Moved(s, w, Recording(s.workers[w].token, 0)).(accepted := s.accepted + {s.workers[w].token}, sends := s.sends + 1)
    case Reject(w) => Moved(s, w, Failing(s.workers[w].token))
    case Unconfigured(w) => Moved(s, w, Releasing(s.workers[w].token))
    case Write(w, applied, answered) =>
      var tries := s.workers[w].tries + 1;
      var pc := if answered || tries >= RECORD_DELIVERED_ATTEMPTS then Finished else Recording(s.workers[w].token, tries);
      Moved(s, w, pc).(row := if applied then Recorded(s.row) else s.row)
    case Fail(w) => Moved(s, w, Finished).(row := AfterFailure(s.row, s.workers[w].token))
    case Release(w) => Moved(s, w, Finished).(row := AfterRelease(s.row, s.workers[w].token))
    case Die(w) => Moved(s, w, Finished)
  }

  function Next(s: State, e: Event): State { if Legal(s, e) then Step(s, e) else s }

  function Run(events: seq<Event>): State {
    if events == [] then EMPTY
    else
      Next(Run(events[..|events| - 1]), events[|events| - 1])
  }

  // ---------------------------------------------------------------------------------------------
  // The invariant
  // ---------------------------------------------------------------------------------------------

  predicate Holding(pc: Worker) { pc.Sending? || pc.Recording? || pc.Failing? || pc.Releasing? }

  ghost predicate HeldBy(s: State, w: nat, t: Token) { w in s.workers && Holding(s.workers[w]) && s.workers[w].token == t }

  /** A claim that is still at work, or whose mail went out, and that no takeover replaced. */
  ghost predicate Standing(s: State, t: Token) {
    t !in s.displaced && (t in s.accepted || exists w :: HeldBy(s, w, t))
  }

  ghost predicate Distinct(s: State) {
    forall v, w | v in s.workers && w in s.workers && Holding(s.workers[v]) && Holding(s.workers[w]) && v != w ::
      s.workers[v].token != s.workers[w].token
  }

  ghost predicate Known(s: State) {
    && (forall w | w in s.workers && Holding(s.workers[w]) ::
          s.workers[w].token <= s.clock && (s.workers[w].token in s.accepted <==> s.workers[w].Recording?))
    && (forall t | t in s.accepted || t in s.displaced :: t <= s.clock)
    && (s.row.Claimed? ==> s.row.at <= s.clock && s.row.at !in s.displaced)
  }

  ghost predicate Tokens(s: State) { Distinct(s) && Known(s) }

  /** A standing claim still owns the row, unless the row already says 'sent'. */
  ghost predicate Owned(s: State) {
    forall t | Standing(s, t) :: s.row == Claimed(t) || s.row == Sent
  }

  ghost predicate OneStands(s: State) {
    forall t, u | Standing(s, t) && Standing(s, u) :: t == u
  }

  ghost predicate Counted(s: State) { s.sends == |s.accepted| && s.takeovers == |s.displaced| }

  ghost predicate Inv(s: State) { Tokens(s) && Owned(s) && OneStands(s) && Counted(s) }

  lemma DistinctKeeps(s: State, e: Event)
    requires Tokens(s) && Legal(s, e)
    ensures Distinct(Step(s, e))
  {
  }

  lemma KnownKeeps(s: State, e: Event)
    requires Tokens(s) && Legal(s, e)
    ensures Known(Step(s, e))
  {
  }

  /** A step makes at most one claim stand that did not stand before: the one it just made. */
  lemma StandingBefore(s: State, e: Event, t: Token)
    requires Tokens(s) && Legal(s, e) && Standing(Step(s, e), t)
    ensures Standing(s, t) || (Step(s, e).row == Claimed(t) && Step(s, e).clock == t > s.clock && !s.row.Sent?)
  {
    var after := Step(s, e);
    if t in s.accepted {
    } else if t in after.accepted {
      assert HeldBy(s, e.w, t);
    } else {
      var w :| HeldBy(after, w, t);
      if w != e.w {
        assert HeldBy(s, w, t);
      } else if w in s.workers && Holding(s.workers[w]) {
        assert HeldBy(s, w, t);
      }
    }
  }

  /** … and then nothing else stands any more. */
  lemma NewClaimStandsAlone(s: State, e: Event, t: Token)
    requires Inv(s) && Legal(s, e) && Step(s, e).clock > s.clock && Standing(s, t)
    ensures t in Step(s, e).displaced
  {
  }

  lemma OwnedKeeps(s: State, e: Event, t: Token)
    requires Inv(s) && Legal(s, e) && Standing(Step(s, e), t)
    ensures Step(s, e).row == Claimed(t) || Step(s, e).row == Sent
  {
    StandingBefore(s, e, t);
    if Standing(s, t) {
      if Step(s, e).clock > s.clock {
        NewClaimStandsAlone(s, e, t);
      }
    }
  }

  lemma OneStandsKeeps(s: State, e: Event, t: Token, u: Token)
    requires Inv(s) && Legal(s, e) && Standing(Step(s, e), t) && Standing(Step(s, e), u)
    ensures t == u
  {
    StandingBefore(s, e, t);
    StandingBefore(s, e, u);
    if Step(s, e).clock > s.clock {
      if Standing(s, t) { NewClaimStandsAlone(s, e, t); }
      if Standing(s, u) { NewClaimStandsAlone(s, e, u); }
    }
  }

  lemma StepKeeps(s: State, e: Event)
    requires Inv(s) && Legal(s, e)
    ensures Inv(Step(s, e))
  {
    DistinctKeeps(s, e);
    KnownKeeps(s, e);
    forall t | Standing(Step(s, e), t) ensures Step(s, e).row == Claimed(t) || Step(s, e).row == Sent {
      OwnedKeeps(s, e, t);
    }
    forall t, u | Standing(Step(s, e), t) && Standing(Step(s, e), u) ensures t == u {
      OneStandsKeeps(s, e, t, u);
    }
  }

  lemma {:induction false} RunKeeps(events: seq<Event>)
    ensures Inv(Run(events))
  {
    if events != [] {
      RunKeeps(events[..|events| - 1]);
      if Legal(Run(events[..|events| - 1]), events[|events| - 1]) {
        StepKeeps(Run(events[..|events| - 1]), events[|events| - 1]);
      }
    }
  }

  // ---------------------------------------------------------------------------------------------
  // At most one mail, plus one per stale takeover
  // ---------------------------------------------------------------------------------------------

  lemma AtMostOneMore(a: set<Token>, d: set<Token>)
    requires forall t, u | t in a - d && u in a - d :: t == u
    ensures |a| <= 1 + |d|
  {
    var rest := a - d;
    if rest != {} {
      var t :| t in rest;
      assert rest == {t};
    }
    assert a <= d + rest;
    SubsetSize(a, d + rest);
  }

  lemma {:induction false} SubsetSize(a: set<Token>, b: set<Token>)
    requires a <= b
    ensures |a| <= |b|
    decreases a
  {
    if a != {} {
      var t :| t in a;
      SubsetSize(a - {t}, b - {t});
    }
  }

  /**
    Whatever fails or dies, and however the workers interleave: of the claims no stale takeover
    replaced, at most one ever mails the recipient, so the accepted mails are at most one more than
    the stale takeovers.
  */
  lemma AtMostOncePlusTakeovers(events: seq<Event>)
    ensures var s := Run(events); s.sends == |s.accepted| <= 1 + s.takeovers
    ensures forall t, u | t in Run(events).accepted - Run(events).displaced && u in Run(events).accepted - Run(events).displaced :: t == u
  {
    RunKeeps(events);
    var s := Run(events);
    forall t, u | t in s.accepted - s.displaced && u in s.accepted - s.displaced ensures t == u {
      assert Standing(s, t) && Standing(s, u);
    }
    AtMostOneMore(s.accepted, s.displaced);
  }

  /** 'sent' is final: from then on no worker that has not claimed yet ever sends. */
  lemma {:induction false} SentIsFinal(events: seq<Event>, more: seq<Event>)
    requires Run(events).row == Sent
    ensures Run(events + more).row == Sent && Run(events + more).clock == Run(events).clock
  {
    if more == [] {
      assert events + more == events;
    } else {
      SentIsFinal(events, more[..|more| - 1]);
      assert (events + more)[..|events + more| - 1] == events + more[..|more| - 1];
    }
  }

  /** An accepted mail whose claim was not replaced is never lost from the ledger: its row is the claim, or 'sent'. */
  lemma AcceptedStaysKnown(events: seq<Event>, t: Token)
    requires t in Run(events).accepted && t !in Run(events).displaced
    ensures Run(events).row == Claimed(t) || Run(events).row == Sent
  {
    RunKeeps(events);
    assert Standing(Run(events), t);
  }

  /** … so recording it leaves the row 'sent'. */
  lemma RecordingLands(events: seq<Event>, w: nat)
    requires var s := Run(events);
             w in s.workers && s.workers[w].Recording? && s.workers[w].token !in s.displaced
    ensures Step(Run(events), Write(w, true, true)).row == Sent
  {
    RunKeeps(events);
    AcceptedStaysKnown(events, Run(events).workers[w].token);
  }

  lemma RunSnoc(events: seq<Event>, e: Event)
    ensures Run(events + [e]) == Next(Run(events), e)
  {
    assert (events + [e])[..|events + [e]| - 1] == events;
  }

  // ---------------------------------------------------------------------------------------------
  // The bound is exact
  // ---------------------------------------------------------------------------------------------

  function Time(k: nat): Token { if k == 0 then 1 else Time(k - 1) + STALE_CLAIM + 1 }

  /** k + 1 workers that each send and die before recording, each as soon as the last claim is stale. */
  function Relay(k: nat): seq<Event> {
    if k == 0 then [Insert(0, Time(0))] + [Accept(0)]
    else Relay(k - 1) + [Insert(k, Time(k))] + [TakeOver(k, Time(k))] + [Accept(k)]
  }

  /** A claim left unrecorded until it is stale, by a worker whose number no later one has. */
  ghost predicate Abandoned(s: State, k: nat) {
    && s.row == Claimed(Time(k)) && s.clock == Time(k)
    && s.sends == 1 + k && s.takeovers == k && forall w | w in s.workers :: w <= k
  }

  lemma FirstRound()
    ensures Abandoned(Run(Relay(0)), 0)
  {
    RunSnoc([], Insert(0, Time(0)));
    assert [] + [Insert(0, Time(0))] == [Insert(0, Time(0))];
    RunSnoc([Insert(0, Time(0))], Accept(0));
  }

  lemma NextRound(s: State, k: nat)
    requires k > 0 && Abandoned(s, k - 1)
    ensures Legal(s, Insert(k, Time(k)))
    ensures var one := Step(s, Insert(k, Time(k))); Legal(one, TakeOver(k, Time(k)))
    ensures var two := Step(Step(s, Insert(k, Time(k))), TakeOver(k, Time(k)));
            Legal(two, Accept(k)) && Abandoned(Step(two, Accept(k)), k)
  {
  }

  /** Any number of takeovers really can cost that many further mails. */
  lemma {:induction false} BoundIsReached(k: nat)
    ensures Abandoned(Run(Relay(k)), k)
  {
    if k == 0 {
      FirstRound();
    } else {
      BoundIsReached(k - 1);
      var before := Relay(k - 1);
      NextRound(Run(before), k);
      RunSnoc(before, Insert(k, Time(k)));
      RunSnoc(before + [Insert(k, Time(k))], TakeOver(k, Time(k)));
      RunSnoc(before + [Insert(k, Time(k))] + [TakeOver(k, Time(k))], Accept(k));
      assert Relay(k) == before + [Insert(k, Time(k))] + [TakeOver(k, Time(k))] + [Accept(k)];
    }
  }

  /** One worker on its own whose every operation succeeds. */
  function Alone(s: State, w: nat, now: Token): State {
    Next(Next(Next(Next(Next(s, Insert(w, now)), TakeOver(w, now)), Inspect(w)), Accept(w)), Write(w, true, true))
  }

  /** It mails the recipient and records it exactly when the row is missing, failed, or a stale claim. */
  lemma AloneDelivers(s: State, w: nat, now: Token)
    requires w !in s.workers && now > s.clock
    ensures var after := Alone(s, w, now);
            if s.row.Absent? || Takeable(s.row, now) then after.row == Sent && after.sends == s.sends + 1
            else after.row == s.row && after.sends == s.sends
  {
  }

  /** A worker whose record stays unanswered n times. */
  function Unanswered(s: State, w: nat, n: nat): State {
    if n == 0 then s else Next(Unanswered(s, w, n - 1), Write(w, false, false))
  }

  /** An accepted mail's record is tried three times, and an answer ends it at any of them. */
  lemma {:induction false} RecordIsTriedThrice(s: State, w: nat, t: Token, n: nat)
    requires w in s.workers && s.workers[w] == Recording(t, 0)
    ensures var now := Unanswered(s, w, n);
            && now.row == s.row && w in now.workers && now.workers[w] == (if n < 3 then Recording(t, n) else Finished)
            && (n < 3 ==> var after := Next(now, Write(w, true, true)); after.workers[w] == Finished && after.row == Recorded(s.row))
  {
    if n > 0 {
      RecordIsTriedThrice(s, w, t, n - 1);
    }
  }

  // ---------------------------------------------------------------------------------------------
  // What an 'in-flight' answer is worth
  // ---------------------------------------------------------------------------------------------

  /** The step fails or releases the claim the row carries. */
  predicate GivesUp(s: State, e: Event) {
    (e.Fail? || e.Release?) && Legal(s, e) && s.row == Claimed(s.workers[e.w].token)
  }

  predicate ClaimsAnew(s: State, e: Event) {
    Legal(s, e) && ((e.Insert? && s.row.Absent?) || (e.TakeOver? && Takeable(s.row, e.now)))
  }

  /** Since event n the row's claim was given up, or was missing already, and nobody claimed it again. */
  ghost predicate GivenUpSince(events: seq<Event>, n: nat)
    requires n <= |events|
    decreases |events|
  {
    if |events| == n then Run(events).row.Absent?
    else
      var rest, last := events[..|events| - 1], events[|events| - 1];
      GivesUp(Run(rest), last) || (GivenUpSince(rest, n) && !ClaimsAnew(Run(rest), last))
  }

  /** Event n - 1 is the takeover with which worker w missed a claim. */
  ghost predicate MissedAt(events: seq<Event>, n: nat, w: nat) {
    && 0 < n <= |events| && events[n - 1].TakeOver? && events[n - 1].w == w
    && Legal(Run(events[..n - 1]), events[n - 1]) && !Takeable(Run(events[..n - 1]).row, events[n - 1].now)
  }

  lemma {:induction false} RowSince(events: seq<Event>, n: nat)
    requires n <= |events| && !Run(events[..n]).row.Failed?
    ensures Run(events).row != Sent ==> (GivenUpSince(events, n) <==> Run(events).row.Absent? || Run(events).row.Failed?)
  {
    if |events| == n {
      assert events[..n] == events;
    } else {
      var rest := events[..|events| - 1];
      assert rest[..n] == events[..n];
      RowSince(rest, n);
    }
  }

  /**
    A worker that missed its takeover is answered 'in-flight' for any row that is not 'sent'; there
    is another claim behind that answer exactly when, since the takeover it missed, no claim was
    given up without a new one being made.
  */
  lemma InFlightHasAClaimIff(events: seq<Event>, n: nat, w: nat)
    requires MissedAt(events, n, w) && w in Run(events).workers && Run(events).workers[w].Inspecting?
    ensures var row, after := Run(events).row, Next(Run(events), Inspect(w));
            && after.workers[w] == Answered(if row == Sent then AlreadySent else InFlight)
            && (after.workers[w] == Answered(InFlight) ==> (row.Claimed? <==> !GivenUpSince(events, n)))
  {
    assert events[..n][..n - 1] == events[..n - 1];
    RowSince(events, n);
  }

  /** A worker inspects after the claim it missed has failed … */
  function Crossed(): seq<Event> {
    [Insert(0, 1)] + [Insert(1, 2)] + [TakeOver(1, 2)] + [Reject(0)] + [Fail(0)] + [Inspect(1)]
  }

  /** … and is answered 'in-flight', though nobody mailed the recipient and nobody is going to. */
  lemma InFlightOfNobody()
    ensures Run(Crossed()) == State(Failed, map[0 := Finished, 1 := Answered(InFlight)], 1, {}, {}, 0, 0)
  {
    var a := [Insert(0, 1)];
    var b := a + [Insert(1, 2)];
    var c := b + [TakeOver(1, 2)];
    var d := c + [Reject(0)];
    RunSnoc([], Insert(0, 1));
    assert [] + [Insert(0, 1)] == a;
    RunSnoc(a, Insert(1, 2));
    RunSnoc(b, TakeOver(1, 2));
    assert Run(c) == State(Claimed(1), map[0 := Sending(1), 1 := Inspecting], 1, {}, {}, 0, 0);
    RunSnoc(c, Reject(0));
    RunSnoc(d, Fail(0));
    RunSnoc(d + [Fail(0)], Inspect(1));
  }

  // ---------------------------------------------------------------------------------------------
  // A displaced claim can be lost
  // ---------------------------------------------------------------------------------------------

  /** A mail accepted but not yet recorded. */
  function Unrecorded(): seq<Event> { [Insert(0, 1)] + [Accept(0)] }

  const LATER: Token := STALE_CLAIM + 2

  /** Its stale claim is taken over, and the new claim finds the mailer unconfigured and deletes the row. */
  function Stolen(): seq<Event> {
    Unrecorded() + [Insert(1, LATER)] + [TakeOver(1, LATER)] + [Unconfigured(1)] + [Release(1)]
  }

  lemma UnrecordedState()
    ensures Run(Unrecorded()) == State(Claimed(1), map[0 := Recording(1, 0)], 1, {1}, {}, 1, 0)
  {
    RunSnoc([], Insert(0, 1));
    assert [] + [Insert(0, 1)] == [Insert(0, 1)];
    RunSnoc([Insert(0, 1)], Accept(0));
  }

  lemma StolenState()
    ensures Run(Stolen()) == State(Absent, map[0 := Recording(1, 0), 1 := Finished], LATER, {1}, {1}, 1, 1)
  {
    UnrecordedState();
    var a := Unrecorded();
    var b := a + [Insert(1, LATER)];
    var c := b + [TakeOver(1, LATER)];
    RunSnoc(a, Insert(1, LATER));
    RunSnoc(b, TakeOver(1, LATER));
    RunSnoc(c, Unconfigured(1));
    RunSnoc(c + [Unconfigured(1)], Release(1));
  }

  /** A displaced claim can be lost: its record then updates nothing, though it is answered, and the next attempt mails again. */
  lemma DisplacedRecordIsLost()
    ensures var s := Run(Stolen());
            && s.sends == 1 && Legal(s, Write(0, true, true)) && Step(s, Write(0, true, true)).row == Absent
            && Alone(Step(s, Write(0, true, true)), 2, LATER + 1).sends == 2
  {
    StolenState();
    AloneDelivers(Step(Run(Stolen()), Write(0, true, true)), 2, LATER + 1);
  }
}
