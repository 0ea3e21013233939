/**
  What the email pass assumes of its surroundings, from the models beside it: the other workers'
  part of a turn is what a run of the ledger protocol makes of it, and the resolved audience names
  nobody twice.
*/
module EmailRuns {
  import opened Wrappers
  import opened Deliveries
  import DeliveryRuns
  import RecipientList
  import opened EmailPass
  import opened EmailPublish

  /** The turn of a worker of the run that missed its takeover at event n - 1, as recipient e's pass sees it. */
  ghost function TurnOf(events: seq<DeliveryRuns.Event>, n: nat, e: Email, t: Turn): Turn
    requires 0 < n <= |events|
  {
    t.(second := Some(map[e := DeliveryRuns.Run(events[..n - 1]).row]), third := Some(map[e := DeliveryRuns.Run(events).row]))
  }

  /**
    A turn's test of the row other workers left is the run's test of what they did: a worker answered
    'in-flight' has its recipient in another claim's hands exactly when, since the takeover it
    missed, no claim was given up without a new one being made.
  */
  lemma InOtherHandsIff(events: seq<DeliveryRuns.Event>, n: nat, w: nat, e: Email, t: Turn)
    requires DeliveryRuns.MissedAt(events, n, w) && w in DeliveryRuns.Run(events).workers && DeliveryRuns.Run(events).workers[w].Inspecting?
    ensures var answer := DeliveryRuns.Next(DeliveryRuns.Run(events), DeliveryRuns.Inspect(w)).workers[w];
            answer == DeliveryRuns.Answered(InFlight) ==>
              (InOtherHands(TurnOf(events, n, e, t), e) <==> !DeliveryRuns.GivenUpSince(events, n))
  {
    DeliveryRuns.InFlightHasAClaimIff(events, n, w);
  }

  /** … and a claim disturbed as the run disturbs it misses the same takeover and gets the answer the run gives. */
  lemma AnswersAsInRun(events: seq<DeliveryRuns.Event>, n: nat, w: nat, e: Email, t: Turn, row: Entry)
    requires DeliveryRuns.MissedAt(events, n, w) && w in DeliveryRuns.Run(events).workers && DeliveryRuns.Run(events).workers[w].Inspecting?
    requires row != Sent
    ensures var turn := TurnOf(events, n, e, t);
            var second := Theirs(row, turn.second, e);
            && !Takeable(second, events[n - 1].now)
            && DeliveryRuns.Next(DeliveryRuns.Run(events), DeliveryRuns.Inspect(w)).workers[w]
               == DeliveryRuns.Answered(Inspected(Theirs(second, turn.third, e)))
  {
    if DeliveryRuns.Run(events[..n - 1]).row == Sent {
      DeliveryRuns.SentIsFinal(events[..n - 1], events[n - 1..]);
      assert events[..n - 1] + events[n - 1..] == events;
    }
  }

  /** The addresses of an audience, numbered without collisions. */
  function Numbered(audience: seq<RecipientList.Recipient>, number: string -> Email): seq<Email> {
    seq<Email>(|audience|, i requires 0 <= i < |audience| => number(audience[i].email))
  }

  /** The recipients a pass is given are distinct, as the audience it resolved is. */
  lemma AudienceIsDistinct(d: RecipientList.Directory, all: seq<RecipientList.Recipient>, number: string -> Email)
    requires forall a, b :: number(a) == number(b) ==> a == b
    ensures Distinct(Numbered(RecipientList.Audience(d, all), number))
  {
    var audience := RecipientList.Audience(d, all);
    forall k, l | 0 <= k < l < |audience| ensures audience[k].email != audience[l].email {
      RecipientList.NoDuplicates(d, all, k, l);
    }
  }
}
