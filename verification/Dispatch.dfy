/**
  Dispatching one post to all its channels (modules/content/src/dispatch.ts): the post-level claim,
  the email channel, and the one transaction that commits the post's status with all its events.
  The portal and Instagram channels are calls that succeed or throw.
*/
module Dispatch {
  import opened Wrappers
  import opened Deliveries
  import opened EmailPass
  import opened EmailPublish

  /** A dispatch has no branch for an unconfigured mailer: it is a failed send like any other. */
  function AsDispatch(t: Turn): Turn { if t.send.Unconfigured? then t.(send := Refused) else t }

  function AsDispatched(turns: nat -> Turn): nat -> Turn { (i: nat) => AsDispatch(turns(i)) }

  lemma NoneReleased(turns: nat -> Turn, outcomes: seq<Outcome>)
    requires forall i | 0 <= i < |outcomes| :: Means(outcomes[i], AsDispatched(turns)(i))
    requires StopsAtRelease(outcomes)
    ensures forall i | 0 <= i < |outcomes| :: !outcomes[i].Released? && !outcomes[i].Unreached?
  {
    forall i | 0 <= i < |outcomes| ensures !outcomes[i].Released? {
      assert Means(outcomes[i], AsDispatch(turns(i)));
    }
  }

  /** dispatchEmail; None when it threw, as it does for a failed or an unrecorded recipient. */
  method DispatchEmail(ledger: Ledger, usableBase: bool, recipients: seq<Email>, turns: nat -> Turn)
    returns (event: Option<Message>, ghost outcomes: seq<Outcome>)
    modifies ledger
    ensures ledger.KeepsSent()
    ensures !usableBase ==> event.None? && ledger.rows == old(ledger.rows)
    ensures event.Some? ==>
              && event.value == EmailSent(|recipients|, Count(outcomes, Delivered)) && NoneLeft(outcomes)
              && Pass(recipients, AsDispatched(turns), outcomes) && OnRecord(ledger.rows, ledger.lastSeen, recipients, AsDispatched(turns), outcomes)
    ensures usableBase && NothingThrows(recipients, AsDispatched(turns)) ==>
              Pass(recipients, AsDispatched(turns), outcomes) && (event.Some? <==> NoneLeft(outcomes))
    ensures event.Some? && Distinct(recipients) ==>
              (EveryoneServed(ledger.lastSeen, recipients, outcomes) <==>
               forall i | 0 <= i < |outcomes| :: Undisturbed(recipients[i], AsDispatched(turns)(i), outcomes[i]))
    ensures usableBase && AllQuiet(recipients, AsDispatched(turns)) ==>
              && |outcomes| == |recipients| && QuietPass(old(ledger.rows), ledger.rows, recipients, AsDispatched(turns), outcomes)
              && (event.Some? <==> NoneLeft(outcomes))
  {
    outcomes := [];
    if !usableBase {
      return None, outcomes;
    }
    var tally;
    tally, outcomes := SendAll(ledger, recipients, AsDispatched(turns));
    if tally.None? {
      return None, outcomes;
    }
    NoneReleased(turns, outcomes);
    CountsSomething(outcomes, Undelivered);
    CountsSomething(outcomes, Unrecorded);
    if tally.value.unrecorded > 0 || tally.value.failed > 0 {
      return None, outcomes;
    }
    if Distinct(recipients) {
      ServesEveryoneIff(ledger.rows, ledger.lastSeen, recipients, AsDispatched(turns), outcomes);
    }
    event := Some(EmailSent(|recipients|, tally.value.sent));
  }

  /** A channel the post does not have, or whose calls succeed or throw. */
  datatype Channel = Off | Works | Breaks

  datatype Faults = Faults(postMissing: bool, successThrows: bool, failureThrows: bool)

  /** Neither sending nor sent. */
  predicate Claimable(s: Status) { s != Sending && s != MarkedSent }

  /** Nothing but the email channel stands in the way of success. */
  predicate Clear(portal: Channel, instagram: Channel, faults: Faults) {
    !faults.postMissing && !portal.Breaks? && !instagram.Breaks? && !faults.successThrows
  }

  datatype Ending = Skipped | Succeeded | FailedAndRecorded | FailedUnrecorded

  /**
    dispatch. Only a post that is neither sending nor sent is worked on; the post's status and all
    its events are then committed together, or the failure and its one event are, or the post stays
    'sending' with no event at all. `mailed` says that the email channel gave its event.
  */
  method Dispatch(ledger: Ledger, post: Post, email: bool, portal: Channel, instagram: Channel,
                  usableBase: bool, recipients: seq<Email>, turns: nat -> Turn, faults: Faults)
    returns (ending: Ending, ghost outcomes: seq<Outcome>, ghost mailed: bool)
    modifies ledger, post`status, post`outbox
    ensures ledger.KeepsSent()
    ensures !Claimable(old(post.status)) ==> ending == Skipped
    ensures Claimable(old(post.status)) ==>
              ending == if (email ==> mailed) && Clear(portal, instagram, faults) then Succeeded
                        else if faults.failureThrows then FailedUnrecorded else FailedAndRecorded
    ensures mailed ==> email && !faults.postMissing
    ensures email && Claimable(old(post.status)) && !faults.postMissing ==>
              && (mailed ==> usableBase && NoneLeft(outcomes))
              && (usableBase && NothingThrows(recipients, AsDispatched(turns)) ==> (mailed <==> NoneLeft(outcomes)))
    ensures ending == Skipped <==> old(post.status) == Sending || old(post.status) == MarkedSent
    ensures ending == Skipped ==> ledger.rows == old(ledger.rows) && post.status == old(post.status)
    ensures ending == Succeeded ==>
              && post.status == MarkedSent && !portal.Breaks? && !instagram.Breaks?
              && (email ==> NoneLeft(outcomes) && Pass(recipients, AsDispatched(turns), outcomes) &&
                            OnRecord(ledger.rows, ledger.lastSeen, recipients, AsDispatched(turns), outcomes))
              && var events := (if email then [EmailSent(|recipients|, Count(outcomes, Delivered))] else [])
                               + (if portal.Off? then [] else [PortalSent]) + (if instagram.Off? then [] else [InstagramEnqueued]);
                 post.outbox == old(post.outbox) + events + [PublishSucceeded(|events|)]
    ensures ending == Succeeded && email && Distinct(recipients) ==>
              (EveryoneServed(ledger.lastSeen, recipients, outcomes) <==>
               forall i | 0 <= i < |outcomes| :: Undisturbed(recipients[i], AsDispatched(turns)(i), outcomes[i]))
    ensures ending == FailedAndRecorded ==> post.status == MarkedFailed && post.outbox == old(post.outbox) + [PublishFailed]
    ensures ending == FailedUnrecorded ==> post.status == Sending
    ensures ending == Skipped || ending == FailedUnrecorded ==> post.outbox == old(post.outbox)
  {
    outcomes, mailed := [], false;
    if post.status == Sending || post.status == MarkedSent {
      return Skipped, outcomes, mailed;
    }
    post.status := Sending;
    var events: seq<Message> := [];
    var ok := !faults.postMissing;
    if ok && email {
      var event;
      event, outcomes := DispatchEmail(ledger, usableBase, recipients, turns);
      if event.Some? {
        events := events + [event.value];
      }
      ok := event.Some?;
      mailed := event.Some?;
    }
    if ok && !portal.Off? {
      ok := portal.Works?;
      events := events + [PortalSent];
    }
    if ok && !instagram.Off? {
      ok := instagram.Works?;
      events := events + [InstagramEnqueued];
    }
    ending := Finish(post, ok, events, faults);
  }

  /** The finish of a claimed post: one transaction for the success, and if there is none, one for the failure. */
  method Finish(post: Post, ok: bool, events: seq<Message>, faults: Faults) returns (ending: Ending)
    modifies post`status, post`outbox
    ensures ending == if ok && !faults.successThrows then Succeeded
                      else if faults.failureThrows then FailedUnrecorded else FailedAndRecorded
    ensures match ending
            case Succeeded => post.status == MarkedSent && post.outbox == old(post.outbox) + events + [PublishSucceeded(|events|)]
            case FailedAndRecorded => post.status == MarkedFailed && post.outbox == old(post.outbox) + [PublishFailed]
            case _ => post.status == old(post.status) && post.outbox == old(post.outbox)
  {
    if ok && !faults.successThrows {
      post.status, post.outbox := MarkedSent, post.outbox + events + [PublishSucceeded(|events|)];
      return Succeeded;
    }
    if faults.failureThrows {
      return FailedUnrecorded;
    }
    post.status, post.outbox := MarkedFailed, post.outbox + [PublishFailed];
    ending := FailedAndRecorded;
  }
}
