/**
  The per-recipient deliveries ledger (modules/content/src/store/deliveries.ts), the duplicate-send
  gate of one post. A row is keyed by the recipient's address; times are microseconds, so a claim's
  time is its token.
*/
module Deliveries {
  import opened Wrappers

  const STALE_CLAIM: int := 15 * 60 * 1_000_000
  const RECORD_DELIVERED_ATTEMPTS: nat := 3

  type Token = nat

  /** An address, lowercased, stands for its number. */
  type Email = nat

  /** The ledger row of one recipient. */
  datatype Entry = Absent | Claimed(at: Token) | Sent | Failed

  type Rows = map<Email, Entry>

  datatype Claim = Fresh(token: Token) | AlreadySent | InFlight

  /** A row the takeover's UPDATE matches: a failed one, or a claim older than the stale window. */
  predicate Takeable(e: Entry, now: int) { e.Failed? || (e.Claimed? && e.at < now - STALE_CLAIM) }

  function Inspected(e: Entry): Claim { if e.Sent? then AlreadySent else InFlight }

  /** markSent's UPDATE: any row but a missing one. */
  function Recorded(e: Entry): Entry { if e.Absent? then Absent else Sent }

  /** markFailed and releaseClaim with their claim's token. */
  function AfterFailure(e: Entry, token: Token): Entry { if e == Claimed(token) then Failed else e }

  function AfterRelease(e: Entry, token: Token): Entry { if e == Claimed(token) then Absent else e }

  function At(rows: Rows, e: Email): Entry { if e in rows then rows[e] else Absent }

  /** What other workers make of the ledger between two statements: anything, except that 'sent' is final. */
  function Disturbed(rows: Rows, theirs: Option<Rows>): Rows {
    if theirs.None? then rows else theirs.value + map k | k in rows && rows[k].Sent? :: Sent
  }

  function Theirs(e: Entry, theirs: Option<Rows>, k: Email): Entry {
    if theirs.None? || e.Sent? then e else At(theirs.value, k)
  }

  /** The answer of a claim's three statements, disturbed before the second and the third. */
  function ClaimOf(e: Entry, now: Token, second: Option<Rows>, third: Option<Rows>, k: Email): Claim {
    if e.Absent? || Takeable(Theirs(e, second, k), now) then Fresh(now) else Inspected(Theirs(Theirs(e, second, k), third, k))
  }

  /** One of the three attempts of recordDelivered reaches the database. */
  function Succeeds(writes: seq<bool>): bool {
    exists i :: 0 <= i < |writes| && i < RECORD_DELIVERED_ATTEMPTS && writes[i]
  }

  class Ledger {
    var rows: map<Email, Entry>

    /** The row as each recipient's last inspection found it, or its last answered record left it. */
    ghost var lastSeen: map<Email, Entry>

    constructor ()
      ensures rows == map[] && lastSeen == map[]
    {
      rows, lastSeen := map[], map[];
    }

    function Get(e: Email): (r: Entry)
      reads this
    {
      At(rows, e)
    }

    /** Only the row of one recipient changed, and not if it said 'sent'. */
    twostate predicate Touches(e: Email)
      reads this
    {
      KeepsSent() && forall k | k != e :: At(rows, k) == At(old(rows), k)
    }

    twostate predicate KeepsSent()
      reads this
    {
      forall k | At(old(rows), k) == Sent :: At(rows, k) == Sent
    }

    method Put(e: Email, r: Entry)
      requires Get(e) == Sent ==> r == Sent
      modifies this`rows
      ensures Get(e) == r && Touches(e)
    {
      rows := if r.Absent? then rows - {e} else rows[e := r];
    }

    /** Other workers, at any await. */
    method Others(theirs: Option<Rows>)
      modifies this`rows
      ensures rows == Disturbed(old(rows), theirs) && KeepsSent()
      ensures forall k :: At(rows, k) == Theirs(At(old(rows), k), theirs, k)
    {
      rows := Disturbed(rows, theirs);
    }

    /**
      Three statements: insert, take over, inspect. `second` and `third` are what other workers
      make of the ledger before the second and the third. The third finds whatever they left: a
      claim, 'sent', or a row that is failed or gone.
    */
    method ClaimDelivery(e: Email, now: Token, second: Option<Rows>, third: Option<Rows>) returns (claim: Claim)
      modifies this
      ensures KeepsSent()
      ensures claim == ClaimOf(old(Get(e)), now, second, third, e)
      ensures claim.Fresh? ==> claim.token == now && Get(e) == Claimed(now)
      ensures claim == AlreadySent ==> Get(e) == Sent
      ensures claim == InFlight ==> Get(e) != Sent && !Takeable(Theirs(old(Get(e)), second, e), now) && !old(Get(e)).Absent?
      ensures claim == InFlight ==> Get(e) == Theirs(Theirs(old(Get(e)), second, e), third, e)
      ensures lastSeen == if claim.Fresh? then old(lastSeen) else old(lastSeen)[e := Get(e)]
      ensures old(Get(e)) == Sent ==> claim == AlreadySent && Get(e) == Sent
      ensures old(Get(e)) == Absent ==> claim.Fresh? && Touches(e)
      ensures second.None? && third.None? ==>
                Touches(e) && if old(Get(e)).Absent? || Takeable(old(Get(e)), now) then claim == Fresh(now)
                              else claim == Inspected(old(Get(e))) && Get(e) == old(Get(e))
    {
      if Get(e).Absent? {
        Put(e, Claimed(now));
        return Fresh(now);
      }
      Others(second);
      if Takeable(Get(e), now) {
        Put(e, Claimed(now));
        return Fresh(now);
      }
      Others(third);
      lastSeen := lastSeen[e := Get(e)];
      claim := Inspected(Get(e));
    }

    method MarkSent(e: Email)
      modifies this`rows
      ensures Get(e) == Recorded(old(Get(e))) && Touches(e)
    {
      Put(e, Recorded(Get(e)));
    }

    /** markSent with bounded retry; `writes[i]` says whether attempt i succeeds, and attempts past its end fail. */
    method RecordDelivered(e: Email, writes: seq<bool>) returns (recorded: bool)
      modifies this
      ensures recorded == Succeeds(writes)
      ensures Get(e) == (if recorded then Recorded(old(Get(e))) else old(Get(e))) && Touches(e)
      ensures lastSeen == if recorded then old(lastSeen)[e := Get(e)] else old(lastSeen)
    {
      for attempt := 0 to RECORD_DELIVERED_ATTEMPTS
        invariant rows == old(rows) && lastSeen == old(lastSeen)
        invariant forall i | 0 <= i < attempt && i < |writes| :: !writes[i]
      {
        if attempt < |writes| && writes[attempt] {
          MarkSent(e);
          lastSeen := lastSeen[e := Get(e)];
          return true;
        }
      }
      recorded := false;
    }

    method MarkFailed(e: Email, token: Token)
      modifies this`rows
      ensures Get(e) == AfterFailure(old(Get(e)), token) && Touches(e)
    {
      Put(e, AfterFailure(Get(e), token));
    }

    method ReleaseClaim(e: Email, token: Token)
      modifies this`rows
      ensures Get(e) == AfterRelease(old(Get(e)), token) && Touches(e)
    {
      Put(e, AfterRelease(Get(e), token));
    }
  }
}
