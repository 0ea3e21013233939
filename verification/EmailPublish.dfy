/**
  Publishing one post to the email channel (modules/content/src/publish-channel.ts): publishEmail's
  pass over the resolved recipients, and the one transaction that commits status and event.
*/
module EmailPublish {
  import opened Wrappers
  import opened Deliveries
  import opened EmailPass

  datatype Status = Draft | Scheduled | Sending | MarkedSent | MarkedFailed

  datatype Message =
    | EmailSent(recipients: nat, delivered: nat)
    | PortalSent
    | InstagramEnqueued
    | PublishSucceeded(channels: nat)
    | PublishFailed

  predicate Distinct(recipients: seq<Email>) { forall i, j | 0 <= i < j < |recipients| :: recipients[i] != recipients[j] }

  /** The other workers left this recipient's row where its outcome says it is. */
  predicate Undisturbed(e: Email, t: Turn, o: Outcome) {
    match o
    case Delivered => Stays(t, e)
    case Owned => InOtherHands(t, e)
    case _ => true
  }

  /** The outcome is what its turn saw in the ledger: recorded 'sent', or under another worker's claim. */
  predicate SeenAs(seen: Entry, o: Outcome) { seen == Sent || (o.Owned? && seen.Claimed?) }

  /** A delivered, already delivered or owned recipient was seen as its outcome says exactly when undisturbed. */
  ghost predicate SawTruly(lastSeen: Rows, e: Email, t: Turn, o: Outcome) {
    o.Delivered? || o.Already? || o.Owned? ==> e in lastSeen && (SeenAs(lastSeen[e], o) <==> Undisturbed(e, t, o))
  }

  /** What is on record of the recipients so far; a row once 'sent' still is. */
  ghost predicate OnRecord(rows: Rows, lastSeen: Rows, recipients: seq<Email>, turns: nat -> Turn, outcomes: seq<Outcome>)
    requires |outcomes| <= |recipients|
  {
    && (forall i | 0 <= i < |outcomes| && (outcomes[i].Already? || (outcomes[i].Delivered? && Stays(turns(i), recipients[i]))) ::
          At(rows, recipients[i]) == Sent)
    && (Distinct(recipients) ==> forall i | 0 <= i < |outcomes| :: SawTruly(lastSeen, recipients[i], turns(i), outcomes[i]))
  }

  /** Every recipient was seen recorded as delivered, or in flight under another claim. */
  ghost predicate EveryoneServed(lastSeen: Rows, recipients: seq<Email>, outcomes: seq<Outcome>)
    requires |outcomes| == |recipients|
  {
    forall i | 0 <= i < |outcomes| :: recipients[i] in lastSeen && SeenAs(lastSeen[recipients[i]], outcomes[i])
  }

  /**
    A pass that left nobody has served everyone exactly when no other worker, between the two
    statements that matter, deleted a row about to be recorded or gave up a claim about to be
    inspected.
  */
  lemma ServesEveryoneIff(rows: Rows, lastSeen: Rows, recipients: seq<Email>, turns: nat -> Turn, outcomes: seq<Outcome>)
    requires |outcomes| == |recipients| && Distinct(recipients) && OnRecord(rows, lastSeen, recipients, turns, outcomes)
    requires NoneLeft(outcomes)
    ensures EveryoneServed(lastSeen, recipients, outcomes) <==>
            forall i | 0 <= i < |outcomes| :: Undisturbed(recipients[i], turns(i), outcomes[i])
  {
    forall i | 0 <= i < |outcomes| ensures SawTruly(lastSeen, recipients[i], turns(i), outcomes[i]) {
    }
  }

  /** The post's own status, its email channel's status, and the tenant's outbox. */
  class Post {
    var status: Status
    var emailStatus: Status
    var outbox: seq<Message>

    constructor (status: Status, emailStatus: Status)
      ensures this.status == status && this.emailStatus == emailStatus && outbox == []
    {
      this.status := status;
      this.emailStatus := emailStatus;
      outbox := [];
    }

    /** Best effort: a flag that cannot be written never hides the result. */
    method FlagChannelFailed(throws: bool)
      modifies this`emailStatus
      ensures emailStatus == if throws then old(emailStatus) else MarkedFailed
    {
      if !throws {
        emailStatus := MarkedFailed;
      }
    }

    /** Status and event in one transaction. */
    method CommitEmail(event: Message, throws: bool) returns (committed: bool)
      modifies this`emailStatus, this`outbox
      ensures committed == !throws
      ensures committed ==> emailStatus == MarkedSent && outbox == old(outbox) + [event]
      ensures !committed ==> emailStatus == old(emailStatus) && outbox == old(outbox)
    {
      if throws { return false; }
      emailStatus, outbox := MarkedSent, outbox + [event];
      committed := true;
    }
  }

  /** What the pass is told about each recipient, once it ended or stopped. */
  ghost predicate Pass(recipients: seq<Email>, turns: nat -> Turn, outcomes: seq<Outcome>) {
    && |outcomes| == |recipients|
    && (forall i | 0 <= i < |outcomes| :: Means(outcomes[i], turns(i)))
    && StopsAtRelease(outcomes)
    && (forall i, j | 0 <= i < j < |outcomes| && outcomes[i].Released? :: outcomes[j].Unreached?)
  }

  /** With nobody else at the ledger and no throw, the outcomes and the ledger a pass leaves, row by row. */
  ghost predicate QuietPass(before: Rows, after: Rows, recipients: seq<Email>, turns: nat -> Turn, outcomes: seq<Outcome>)
    requires |outcomes| == |recipients|
  {
    && (forall i | 0 <= i < |outcomes| && !outcomes[i].Unreached? ::
          outcomes[i] == QuietOutcome(At(before, recipients[i]), turns(i)) &&
          At(after, recipients[i]) == QuietRow(At(before, recipients[i]), turns(i)))
    && (forall i | 0 <= i < |outcomes| && outcomes[i].Unreached? :: At(after, recipients[i]) == At(before, recipients[i]))
    && (forall k | k !in recipients :: At(after, k) == At(before, k))
  }

  ghost predicate AllQuiet(recipients: seq<Email>, turns: nat -> Turn) {
    Distinct(recipients) && forall i | 0 <= i < |recipients| :: Quiet(turns(i)) && !Throws(turns(i))
  }

  /** The same for the recipients so far. */
  ghost predicate QuietSoFar(before: Rows, now: Rows, recipients: seq<Email>, turns: nat -> Turn, done: seq<Outcome>)
    requires |done| <= |recipients|
  {
    && (forall k | 0 <= k < |done| ::
          done[k] == QuietOutcome(At(before, recipients[k]), turns(k)) &&
          At(now, recipients[k]) == QuietRow(At(before, recipients[k]), turns(k)))
    && (forall k | |done| <= k < |recipients| :: At(now, recipients[k]) == At(before, recipients[k]))
    && (forall e | e !in recipients :: At(now, e) == At(before, e))
  }

  lemma QuietStep(before: Rows, mid: Rows, now: Rows, recipients: seq<Email>, turns: nat -> Turn, done: seq<Outcome>, o: Outcome)
    requires |done| < |recipients| && Distinct(recipients) && QuietSoFar(before, mid, recipients, turns, done)
    requires o == QuietOutcome(At(mid, recipients[|done|]), turns(|done|))
    requires At(now, recipients[|done|]) == QuietRow(At(mid, recipients[|done|]), turns(|done|))
    requires forall e | e != recipients[|done|] :: At(now, e) == At(mid, e)
    ensures QuietSoFar(before, now, recipients, turns, done + [o])
  {
    var i := |done|;
    assert forall k | 0 <= k < |recipients| && k != i :: recipients[k] != recipients[i];
    assert recipients[i] in recipients;
  }

  ghost predicate SoFar(now: Rows, lastSeen: Rows, recipients: seq<Email>, turns: nat -> Turn, done: seq<Outcome>) {
    && |done| <= |recipients| && OnRecord(now, lastSeen, recipients, turns, done)
    && forall k | 0 <= k < |done| :: Means(done[k], turns(k)) && !done[k].Unreached?
  }

  lemma StepSoFar(mid: Rows, now: Rows, was: Rows, lastSeen: Rows, recipients: seq<Email>, turns: nat -> Turn, done: seq<Outcome>, o: Outcome)
    requires |done| < |recipients| && SoFar(mid, was, recipients, turns, done)
    requires Means(o, turns(|done|)) && !o.Unreached?
    requires o.Already? || (o.Delivered? && Stays(turns(|done|), recipients[|done|])) ==> At(now, recipients[|done|]) == Sent
    requires forall e | At(mid, e) == Sent :: At(now, e) == Sent
    requires SawTruly(lastSeen, recipients[|done|], turns(|done|), o)
    requires forall e | e in was && e != recipients[|done|] :: e in lastSeen && lastSeen[e] == was[e]
    ensures SoFar(now, lastSeen, recipients, turns, done + [o])
  {
  }

  datatype Tally = Tally(sent: nat, already: nat, failed: nat, unrecorded: nat, unconfigured: bool)

  function TallyOf(outcomes: seq<Outcome>): Tally {
    Tally(Count(outcomes, Delivered), Count(outcomes, Already), Count(outcomes, Undelivered), Count(outcomes, Unrecorded),
          Count(outcomes, Released) > 0)
  }

  /** One outcome counted. */
  function Counted(t: Tally, o: Outcome): Tally {
    match o
    case Delivered => t.(sent := t.sent + 1)
    case Already => t.(already := t.already + 1)
    case Undelivered => t.(failed := t.failed + 1)
    case Unrecorded => t.(unrecorded := t.unrecorded + 1)
    case Released => t.(unconfigured := true)
    case _ => t
  }

  lemma CountedAll(outcomes: seq<Outcome>, o: Outcome)
    ensures TallyOf(outcomes + [o]) == Counted(TallyOf(outcomes), o)
  {
    assert (outcomes + [o])[..|outcomes|] == outcomes;
  }

  /** The counters count the outcomes, and only the last of them can be a released claim. */
  ghost predicate Tallied(t: Tally, done: seq<Outcome>) {
    && t == TallyOf(done)
    && (t.unconfigured ==> done != [] && done[|done| - 1] == Released)
    && (forall k | 0 <= k < |done| && (k < |done| - 1 || !t.unconfigured) :: !done[k].Released?)
  }

  lemma TallyStep(t: Tally, done: seq<Outcome>, o: Outcome)
    requires Tallied(t, done) && !t.unconfigured
    ensures Tallied(Counted(t, o), done + [o])
  {
    CountedAll(done, o);
  }

  lemma FinishedPass(now: Rows, lastSeen: Rows, recipients: seq<Email>, turns: nat -> Turn, done: seq<Outcome>, t: Tally)
    requires SoFar(now, lastSeen, recipients, turns, done) && Tallied(t, done)
    requires |done| < |recipients| ==> t.unconfigured
    ensures Pass(recipients, turns, Padded(done, |recipients|))
  {
    PaddedAt(done, |recipients|);
  }

  lemma FinishedRecord(now: Rows, lastSeen: Rows, recipients: seq<Email>, turns: nat -> Turn, done: seq<Outcome>)
    requires SoFar(now, lastSeen, recipients, turns, done)
    ensures |Padded(done, |recipients|)| == |recipients|
    ensures OnRecord(now, lastSeen, recipients, turns, Padded(done, |recipients|))
  {
    PaddedAt(done, |recipients|);
  }

  lemma FinishedTally(done: seq<Outcome>, n: nat)
    requires |done| <= n
    ensures TallyOf(Padded(done, n)) == TallyOf(done) && Partitions(TallyOf(done), Padded(done, n))
  {
    PaddedAt(done, n);
    OutcomesPartition(Padded(done, n));
  }

  /** The counters and the three outcomes nobody counts make up the recipients. */
  predicate Partitions(t: Tally, outcomes: seq<Outcome>) {
    |outcomes| == t.sent + t.already + t.failed + t.unrecorded
                  + Count(outcomes, Owned) + Count(outcomes, Released) + Count(outcomes, Unreached)
  }

  lemma QuietFinished(before: Rows, now: Rows, recipients: seq<Email>, turns: nat -> Turn, done: seq<Outcome>)
    requires |done| <= |recipients| && QuietSoFar(before, now, recipients, turns, done)
    requires forall k | 0 <= k < |done| :: !done[k].Unreached?
    ensures |Padded(done, |recipients|)| == |recipients|
    ensures QuietPass(before, now, recipients, turns, Padded(done, |recipients|))
  {
    PaddedAt(done, |recipients|);
  }

  predicate NothingThrows(recipients: seq<Email>, turns: nat -> Turn) { forall i | 0 <= i < |recipients| :: !Throws(turns(i)) }

  method SendAll(ledger: Ledger, recipients: seq<Email>, turns: nat -> Turn) returns (tally: Option<Tally>, ghost outcomes: seq<Outcome>)
    modifies ledger
    ensures ledger.KeepsSent()
    ensures tally.Some? ==> Pass(recipients, turns, outcomes) && OnRecord(ledger.rows, ledger.lastSeen, recipients, turns, outcomes)
    ensures tally.Some? ==> tally.value == TallyOf(outcomes) && Partitions(tally.value, outcomes)
    ensures NothingThrows(recipients, turns) ==> tally.Some?
    ensures AllQuiet(recipients, turns) ==>
              tally.Some? && QuietPass(old(ledger.rows), ledger.rows, recipients, turns, outcomes)
  {
    var t := Tally(0, 0, 0, 0, false);
    ghost var done: seq<Outcome> := [];
    ghost var before := ledger.rows;
    var i := 0;
    while i < |recipients| && !t.unconfigured
      invariant i == |done|
      invariant ledger.KeepsSent()
      invariant SoFar(ledger.rows, ledger.lastSeen, recipients, turns, done)
      invariant Tallied(t, done)
      invariant AllQuiet(recipients, turns) ==> QuietSoFar(before, ledger.rows, recipients, turns, done)
      decreases |recipients| - i
    {
      ghost var mid, was := ledger.rows, ledger.lastSeen;
      var outcome := TakeTurn(ledger, recipients[i], turns(i));
      if outcome.None? {
        outcomes := done;
        return None, outcomes;
      }
      TallyStep(t, done, outcome.value);
      StepSoFar(mid, ledger.rows, was, ledger.lastSeen, recipients, turns, done, outcome.value);
      if AllQuiet(recipients, turns) {
        QuietStep(before, mid, ledger.rows, recipients, turns, done, outcome.value);
      }
      t := Counted(t, outcome.value);
      done := done + [outcome.value];
      i := i + 1;
    }
    outcomes := Padded(done, |recipients|);
    FinishedPass(ledger.rows, ledger.lastSeen, recipients, turns, done, t);
    FinishedRecord(ledger.rows, ledger.lastSeen, recipients, turns, done);
    FinishedTally(done, |recipients|);
    if AllQuiet(recipients, turns) {
      QuietFinished(before, ledger.rows, recipients, turns, done);
    }
    tally := Some(t);
  }

  /** What a publish of the email channel may leave of the post when it returns `r`. */
  predicate Flagged(before: Status, after: Status, r: EmailResult, flagThrows: bool) {
    if r.sent || r.detail.UnusableBase? || (r.detail.NotConfigured? && r.recipientCount == 0) || flagThrows then after == before
    else after == MarkedFailed
  }

  /**
    publishEmail. None when it threw. `sent` is answered exactly for a full delivery, all of it on
    record; the outcomes cover the resolved recipients one by one.
  */
  method PublishEmail(ledger: Ledger, post: Post, usableBase: bool, recipients: seq<Email>, turns: nat -> Turn, flagThrows: bool)
    returns (result: Option<EmailResult>, ghost outcomes: seq<Outcome>)
    modifies ledger, post`emailStatus
    ensures ledger.KeepsSent()
    ensures !usableBase || recipients == [] ==> ledger.rows == old(ledger.rows)
    ensures !usableBase ==> result == Some(EmailResult(false, 0, UnusableBase))
    ensures usableBase && recipients == [] ==> result == if flagThrows then None else Some(EmailResult(false, 0, NoRecipients))
    ensures usableBase && recipients != [] && result.Some? ==>
              && Pass(recipients, turns, outcomes) && OnRecord(ledger.rows, ledger.lastSeen, recipients, turns, outcomes)
              && result.value == Verdict(outcomes)
    ensures result.Some? && result.value.sent ==> usableBase && recipients != [] && FullyDelivered(outcomes)
    ensures result.Some? && result.value.sent && Distinct(recipients) ==>
              (EveryoneServed(ledger.lastSeen, recipients, outcomes) <==>
               forall i | 0 <= i < |outcomes| :: Undisturbed(recipients[i], turns(i), outcomes[i]))
    ensures usableBase && recipients != [] && result.Some? && FullyDelivered(outcomes) ==> result.value.sent
    ensures usableBase && recipients != [] && NothingThrows(recipients, turns) ==> result.Some?
    ensures usableBase && recipients != [] && AllQuiet(recipients, turns) ==>
              result.Some? && QuietPass(old(ledger.rows), ledger.rows, recipients, turns, outcomes)
    ensures if result.Some? then Flagged(old(post.emailStatus), post.emailStatus, result.value, flagThrows)
            else post.emailStatus == old(post.emailStatus)
  {
    outcomes := [];
    if !usableBase {
      return Some(EmailResult(false, 0, UnusableBase)), outcomes;
    }
    if recipients == [] {
      if flagThrows {
        return None, outcomes;
      }
      post.FlagChannelFailed(false);
      return Some(EmailResult(false, 0, NoRecipients)), outcomes;
    }
    var tally;
    tally, outcomes := SendAll(ledger, recipients, turns);
    if tally.None? {
      return None, outcomes;
    }
    VerdictMeans(outcomes);
    if Distinct(recipients) && FullyDelivered(outcomes) {
      ServesEveryoneIff(ledger.rows, ledger.lastSeen, recipients, turns, outcomes);
    }
    var t := tally.value;
    if t.unrecorded > 0 {
      post.FlagChannelFailed(flagThrows);
      result := Some(EmailResult(false, t.sent, NotRecorded));
    } else if t.unconfigured {
      if t.sent > 0 {
        post.FlagChannelFailed(flagThrows);
      }
      result := Some(EmailResult(false, t.sent, NotConfigured));
    } else if t.sent + t.already == 0 {
      post.FlagChannelFailed(flagThrows);
      result := Some(EmailResult(false, 0, AllFailed));
    } else if t.failed > 0 {
      post.FlagChannelFailed(flagThrows);
      result := Some(EmailResult(false, t.sent, SomeFailed));
    } else {
      result := Some(EmailResult(true, t.sent, Complete));
    }
  }

  datatype Answer = NotPublishable | Threw | Published(result: EmailResult)

  /** Nothing of the post changes but, at most, the channel's failed flag. */
  twostate predicate NoEvent(post: Post)
    reads post
  {
    post.outbox == old(post.outbox) && (post.emailStatus == old(post.emailStatus) || post.emailStatus == MarkedFailed)
  }

  /**
    publishChannel for email. The status 'sent' and its event are committed together exactly when
    'sent' is answered, and otherwise neither is.
  */
  method PublishChannel(ledger: Ledger, post: Post, known: bool, enabled: bool, usableBase: bool, recipients: seq<Email>,
                        turns: nat -> Turn, flagThrows: bool, commitThrows: bool)
    returns (answer: Answer, ghost outcomes: seq<Outcome>)
    modifies ledger, post`emailStatus, post`outbox
    ensures ledger.KeepsSent()
    ensures answer.NotPublishable? <==> !known || !enabled
    ensures known && enabled && usableBase && recipients != [] && NothingThrows(recipients, turns) && !commitThrows ==>
              answer == Published(Verdict(outcomes)) && Pass(recipients, turns, outcomes)
    ensures answer.NotPublishable? ==> ledger.rows == old(ledger.rows) && post.emailStatus == old(post.emailStatus)
    ensures answer.Published? && answer.result.sent ==>
              && post.emailStatus == MarkedSent && FullyDelivered(outcomes)
              && post.outbox == old(post.outbox) + [EmailSent(|recipients|, Count(outcomes, Delivered))]
              && Pass(recipients, turns, outcomes) && OnRecord(ledger.rows, ledger.lastSeen, recipients, turns, outcomes)
    ensures answer.Published? && answer.result.sent && Distinct(recipients) ==>
              (EveryoneServed(ledger.lastSeen, recipients, outcomes) <==>
               forall i | 0 <= i < |outcomes| :: Undisturbed(recipients[i], turns(i), outcomes[i]))
    ensures !(answer.Published? && answer.result.sent) ==> NoEvent(post)
    ensures answer.Published? && usableBase && recipients != [] ==> answer.result == Verdict(outcomes)
    ensures !commitThrows && known && enabled && usableBase && recipients != [] && AllQuiet(recipients, turns) ==>
              && answer == Published(Verdict(outcomes)) && |outcomes| == |recipients|
              && QuietPass(old(ledger.rows), ledger.rows, recipients, turns, outcomes)
  {
    outcomes := [];
    if !known || !enabled {
      return NotPublishable, outcomes;
    }
    var result;
    result, outcomes := PublishEmail(ledger, post, usableBase, recipients, turns, flagThrows);
    if result.None? {
      return Threw, outcomes;
    }
    if result.value.sent {
      var committed := post.CommitEmail(EmailSent(|recipients|, result.value.recipientCount), commitThrows);
      if !committed {
        return Threw, outcomes;
      }
    }
    answer := Published(result.value);
  }

  /** Publishing again mails nobody twice who is recorded, and retries exactly the failed and the released at once. */
  lemma PublishAgain(row: Entry, first: Turn, second: Turn)
    requires Quiet(first) && Quiet(second) && first.now <= second.now
    ensures var then_ := QuietOutcome(QuietRow(row, first), second);
            match QuietOutcome(row, first)
            case Delivered => then_ == Already
            case Already => then_ == Already
            case Undelivered => then_ == QuietOutcome(Absent, second) && then_ != Owned
            case Released => then_ == QuietOutcome(Absent, second) && then_ != Owned
            case Unrecorded => then_ == Owned <==> second.now <= first.now + 900_000_000
            case _ => true
  {
  }
}
