/**
  The per-recipient claim / send / record pass that publishEmail and dispatchEmail share, and the
  verdict publishEmail gives on it (modules/content/src/publish-channel.ts,
  modules/content/src/dispatch.ts).

  What the world does during one recipient's turn is a Turn: how the send and the ledger writes go,
  and what other workers make of the ledger at each await.
*/
module EmailPass {
  import opened Wrappers
  import opened Deliveries

  datatype Send = Accepted | Refused | Unconfigured

  datatype Turn = Turn(
    now: Token, send: Send, writes: seq<bool>,
    claimThrows: bool, tokenThrows: bool, markThrows: bool,
    first: Option<Rows>, second: Option<Rows>, third: Option<Rows>, last: Option<Rows>)

  predicate Quiet(t: Turn) { t.first.None? && t.second.None? && t.third.None? && t.last.None? }

  predicate Throws(t: Turn) { t.claimThrows || t.tokenThrows || t.markThrows }

  datatype Outcome = Delivered | Already | Owned | Undelivered | Unrecorded | Released | Unreached

  /** What an outcome says happened to the mail. */
  predicate Means(o: Outcome, t: Turn) {
    match o
    case Delivered => t.send.Accepted? && Succeeds(t.writes)
    case Unrecorded => t.send.Accepted? && !Succeeds(t.writes)
    case Undelivered => t.send.Refused?
    case Released => t.send.Unconfigured?
    case _ => true
  }

  /** One recipient with nobody else at the ledger and no throw: the outcome, and the row it leaves. */
  function QuietOutcome(r: Entry, t: Turn): Outcome {
    if r.Sent? then Already
    else if r.Absent? || Takeable(r, t.now) then
      match t.send
      case Accepted => if Succeeds(t.writes) then Delivered else Unrecorded
      case Refused => Undelivered
      case Unconfigured => Released
    else Owned
  }

  function QuietRow(r: Entry, t: Turn): Entry {
    match QuietOutcome(r, t)
    case Delivered => Sent
    case Unrecorded => Claimed(t.now)
    case Undelivered => Failed
    case Released => Absent
    case _ => r
  }

  /**
    One recipient's turn; None when a ledger statement or the token insert threw. Only a Refused or
    Unconfigured send ever reaches MarkFailed or ReleaseClaim.
  */
  method TakeTurn(ledger: Ledger, e: Email, t: Turn) returns (outcome: Option<Outcome>)
    modifies ledger
    ensures ledger.KeepsSent()
    ensures outcome.Some? ==> !outcome.value.Unreached? && Means(outcome.value, t)
    ensures outcome == Some(Already) ==> ledger.Get(e) == Sent
    ensures outcome == Some(Delivered) ==> (ledger.Get(e) == Sent <==> Stays(t, e))
    ensures outcome == Some(Owned) ==> ledger.Get(e) != Sent && (ledger.Get(e).Claimed? <==> InOtherHands(t, e))
    ensures outcome.Some? && (outcome.value.Owned? || outcome.value.Already? || outcome.value.Delivered?) ==>
              e in ledger.lastSeen && ledger.lastSeen[e] == ledger.Get(e)
    ensures forall k | k in old(ledger.lastSeen) && k != e :: k in ledger.lastSeen && ledger.lastSeen[k] == old(ledger.lastSeen)[k]
    ensures outcome.None? ==> Throws(t)
    ensures outcome.Some? ==>
              match ClaimOf(Theirs(old(ledger.Get(e)), t.first, e), t.now, t.second, t.third, e)
              case AlreadySent => outcome.value == Already
              case InFlight => outcome.value == Owned
              case Fresh(_) => !outcome.value.Already? && !outcome.value.Owned?
    ensures Quiet(t) && !Throws(t) ==>
              outcome == Some(QuietOutcome(old(ledger.Get(e)), t)) && ledger.Get(e) == QuietRow(old(ledger.Get(e)), t)
    ensures Quiet(t) ==> ledger.Touches(e)
  {
    ledger.Others(t.first);
    var claim := ledger.ClaimDelivery(e, t.now, t.second, t.third);
    if t.claimThrows { return None; }
    if claim.AlreadySent? { return Some(Already); }
    if claim.InFlight? { return Some(Owned); }
    if t.tokenThrows { return None; }
    ledger.Others(t.last);
    match t.send
    case Accepted =>
      var recorded := ledger.RecordDelivered(e, t.writes);
      outcome := Some(if recorded then Delivered else Unrecorded);
    case Refused =>
      if t.markThrows { return None; }
      ledger.MarkFailed(e, claim.token);
      outcome := Some(Undelivered);
    case Unconfigured =>
      if t.markThrows { return None; }
      ledger.ReleaseClaim(e, claim.token);
      outcome := Some(Released);
  }

  /**
    Nobody failed or released the other claim between the takeover that missed it and the third
    statement. It is tested on what the others last made of the row before that statement; when they
    did nothing the row is the fresh claim the insert ran into.
  */
  predicate InOtherHands(t: Turn, e: Email) {
    if t.third.Some? then At(t.third.value, e).Claimed?
    else t.second.Some? ==> At(t.second.value, e).Claimed?
  }

  /** Other workers did not delete the claimed row before it was recorded. */
  predicate Stays(t: Turn, e: Email) { t.last.Some? ==> !At(t.last.value, e).Absent? }

  // ---------------------------------------------------------------------------------------------
  // The verdict on a pass
  // ---------------------------------------------------------------------------------------------

  function Count(outcomes: seq<Outcome>, o: Outcome): nat {
    if outcomes == [] then 0
    else Count(outcomes[..|outcomes| - 1], o) + if outcomes[|outcomes| - 1] == o then 1 else 0
  }

  lemma {:induction false} CountsSomething(outcomes: seq<Outcome>, o: Outcome)
    ensures Count(outcomes, o) > 0 <==> exists i :: 0 <= i < |outcomes| && outcomes[i] == o
  {
    if outcomes != [] {
      var rest := outcomes[..|outcomes| - 1];
      CountsSomething(rest, o);
      if Count(rest, o) > 0 {
        var i :| 0 <= i < |rest| && rest[i] == o;
        assert outcomes[i] == o;
      }
      assert forall i | 0 <= i < |rest| :: rest[i] == outcomes[i];
    }
  }

  /** Every recipient is counted exactly once. */
  lemma {:induction false} OutcomesPartition(outcomes: seq<Outcome>)
    ensures |outcomes| == Count(outcomes, Delivered) + Count(outcomes, Already) + Count(outcomes, Owned) + Count(outcomes, Undelivered)
                          + Count(outcomes, Unrecorded) + Count(outcomes, Released) + Count(outcomes, Unreached)
  {
    if outcomes != [] {
      OutcomesPartition(outcomes[..|outcomes| - 1]);
    }
  }

  datatype Detail = UnusableBase | NoRecipients | NotRecorded | NotConfigured | AllFailed | SomeFailed | Complete

  datatype EmailResult = EmailResult(sent: bool, recipientCount: nat, detail: Detail)

  /** Recipients a stopped pass never reached. */
  function Padded(outcomes: seq<Outcome>, n: nat): seq<Outcome>
    decreases n
  {
    if |outcomes| >= n then outcomes else Padded(outcomes, n - 1) + [Unreached]
  }

  lemma {:induction false} PaddedAt(outcomes: seq<Outcome>, n: nat)
    requires |outcomes| <= n
    ensures |Padded(outcomes, n)| == n
    ensures forall i | 0 <= i < n :: Padded(outcomes, n)[i] == if i < |outcomes| then outcomes[i] else Unreached
    ensures forall o :: Count(Padded(outcomes, n), o) == Count(outcomes, o) + if o == Unreached then n - |outcomes| else 0
    decreases n
  {
    if |outcomes| < n {
      PaddedAt(outcomes, n - 1);
      assert Padded(outcomes, n)[..n - 1] == Padded(outcomes, n - 1);
    }
  }

  /** Nobody failed, unrecorded or not even tried; an owned recipient is one answered 'in-flight', whatever was found. */
  ghost predicate NoneLeft(outcomes: seq<Outcome>) {
    forall i | 0 <= i < |outcomes| :: outcomes[i].Delivered? || outcomes[i].Already? || outcomes[i].Owned?
  }

  /** What 'sent' wants of the outcomes: nobody left, and a delivery, now or before. */
  ghost predicate FullyDelivered(outcomes: seq<Outcome>) {
    NoneLeft(outcomes) && exists i :: 0 <= i < |outcomes| && (outcomes[i].Delivered? || outcomes[i].Already?)
  }

  function Verdict(outcomes: seq<Outcome>): EmailResult {
    var sent, failed := Count(outcomes, Delivered), Count(outcomes, Undelivered);
    if Count(outcomes, Unrecorded) > 0 then EmailResult(false, sent, NotRecorded)
    else if Count(outcomes, Released) > 0 then EmailResult(false, sent, NotConfigured)
    else if sent + Count(outcomes, Already) == 0 then EmailResult(false, sent, AllFailed)
    else if failed > 0 then EmailResult(false, sent, SomeFailed)
    else EmailResult(true, sent, Complete)
  }

  /** A pass stops only at a released claim. */
  ghost predicate StopsAtRelease(outcomes: seq<Outcome>) {
    forall i | 0 <= i < |outcomes| && outcomes[i].Unreached? :: exists j :: 0 <= j < i && outcomes[j].Released?
  }

  ghost predicate Has(outcomes: seq<Outcome>, o: Outcome) { exists i :: 0 <= i < |outcomes| && outcomes[i] == o }

  function Positions(outcomes: seq<Outcome>, o: Outcome): set<nat> { set i | 0 <= i < |outcomes| && outcomes[i] == o }

  lemma PositionsSnoc(outcomes: seq<Outcome>, last: Outcome, o: Outcome)
    ensures Positions(outcomes + [last], o) == if last == o then Positions(outcomes, o) + {|outcomes|} else Positions(outcomes, o)
  {
    assert forall i | 0 <= i < |outcomes| :: (outcomes + [last])[i] == outcomes[i];
  }

  lemma {:induction false} CountIs(outcomes: seq<Outcome>, o: Outcome)
    ensures Count(outcomes, o) == |Positions(outcomes, o)|
  {
    if outcomes != [] {
      var n := |outcomes| - 1;
      CountIs(outcomes[..n], o);
      PositionsSnoc(outcomes[..n], outcomes[n], o);
      assert outcomes[..n] + [outcomes[n]] == outcomes;
    }
  }

  /**
    The verdict is 'sent' exactly for a full delivery. Of the failures an unrecorded mail outranks a
    released claim, that one a pass that delivered nothing, and that one single failed sends; and the
    count answered is that of this pass's recorded deliveries.
  */
  lemma VerdictMeans(outcomes: seq<Outcome>)
    requires StopsAtRelease(outcomes)
    ensures var v := Verdict(outcomes);
            && (v.sent <==> FullyDelivered(outcomes)) && (v.sent <==> v.detail == Complete)
            && (v.detail == NotRecorded <==> Has(outcomes, Unrecorded))
            && (v.detail == NotConfigured <==> Has(outcomes, Released) && !Has(outcomes, Unrecorded))
            && (v.detail == AllFailed <==> !Has(outcomes, Unrecorded) && !Has(outcomes, Released)
                                           && !Has(outcomes, Delivered) && !Has(outcomes, Already))
            && (v.detail == SomeFailed <==> !Has(outcomes, Unrecorded) && !Has(outcomes, Released)
                                            && (Has(outcomes, Delivered) || Has(outcomes, Already)) && Has(outcomes, Undelivered))
            && v.recipientCount == |set i | 0 <= i < |outcomes| && outcomes[i].Delivered?|
  {
    CountsSomething(outcomes, Delivered);
    CountsSomething(outcomes, Already);
    CountsSomething(outcomes, Undelivered);
    CountsSomething(outcomes, Unrecorded);
    CountsSomething(outcomes, Released);
    CountIs(outcomes, Delivered);
    assert (set i | 0 <= i < |outcomes| && outcomes[i].Delivered?) == Positions(outcomes, Delivered);
  }
}
