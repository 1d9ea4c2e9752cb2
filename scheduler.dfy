/** ReservationScheduler: the two hourly sweeps.  The completion sweep moves
 *  CONFIRMED reservations whose event is over to COMPLETED; the expiry sweep
 *  cancels unpaid reservations that were made more than 48 hours ago or whose
 *  event starts within 3 hours, giving their seats back. */
module Scheduling {
  import opened Base
  import R = Reservations
  import opened Store

  /** `findByStatusAndEventDateBefore(CONFIRMED, now)` */
  predicate CompletionDue(r: R.Reservation, events: map<Id, R.Event>, now: int)
  {
    r.status == R.Confirmed && r.eventId in events && events[r.eventId].eventDate < now
  }

  /** The statuses of an unpaid reservation. */
  predicate AwaitingPayment(r: R.Reservation)
  {
    r.status == R.PendingPayment || r.status == R.AwaitingTransfer
  }

  /** `findExpiredPendingPaymentReservations(pending, now - 48h)` */
  predicate ExpiredByTime(r: R.Reservation, now: int)
  {
    AwaitingPayment(r) && r.createdAt < now - 48 * MinutesPerHour
  }

  /** `findPendingByEventDateBefore(pending, now + 3h)` */
  predicate ExpiredByEvent(r: R.Reservation, events: map<Id, R.Event>, now: int)
  {
    AwaitingPayment(r) && r.eventId in events && events[r.eventId].eventDate < now + 3 * MinutesPerHour
  }

  /** A member of the merged set of both query results. */
  predicate ExpiryDue(r: R.Reservation, events: map<Id, R.Event>, now: int)
  {
    ExpiredByTime(r, now) || ExpiredByEvent(r, events, now)
  }

  /** Only an unpaid reservation ever expires: CONFIRMED and COMPLETED ones
   *  never do, and neither completes a reservation that is not CONFIRMED. */
  lemma SweepsAreStatusFiltered(r: R.Reservation, events: map<Id, R.Event>, now: int)
    ensures r.status in {R.Confirmed, R.Completed, R.Cancelled, R.PaymentFailed, R.Pending} ==> !ExpiryDue(r, events, now)
    ensures r.status != R.Confirmed ==> !CompletionDue(r, events, now)
    ensures ExpiryDue(r, events, now) ==> !CompletionDue(r, events, now)
  {
  }

  ghost function DueForCompletion(rs: seq<R.Reservation>, events: map<Id, R.Event>, now: int): set<Id>
  {
    set i | 0 <= i < |rs| && CompletionDue(rs[i], events, now)
  }

  function DueForExpiry(rs: seq<R.Reservation>, events: map<Id, R.Event>, now: int): set<Id>
  {
    set i | 0 <= i < |rs| && ExpiryDue(rs[i], events, now)
  }

  /** Seat counts change; event dates and keys do not. */
  predicate SameDates(a: map<Id, R.Event>, b: map<Id, R.Event>)
  {
    a.Keys == b.Keys && forall e :: e in a ==> a[e].eventDate == b[e].eventDate
  }

  lemma {:induction false} DueAfterSameDates(r: R.Reservation, a: map<Id, R.Event>, b: map<Id, R.Event>, now: int)
    requires SameDates(a, b)
    ensures ExpiryDue(r, a, now) <==> ExpiryDue(r, b, now)
    ensures CompletionDue(r, a, now) <==> CompletionDue(r, b, now)
  {
    if r.eventId in a {
      assert a[r.eventId].eventDate == b[r.eventId].eventDate;
    }
  }

  /** Looking at one more reservation adds it to the due set if it is due. */
  lemma DueForCompletionStep(rs: seq<R.Reservation>, events: map<Id, R.Event>, now: int, i: nat)
    requires i < |rs|
    ensures |DueForCompletion(rs[..i + 1], events, now)| ==
              |DueForCompletion(rs[..i], events, now)| + (if CompletionDue(rs[i], events, now) then 1 else 0)
  {
    var a, b := DueForCompletion(rs[..i], events, now), DueForCompletion(rs[..i + 1], events, now);
    if CompletionDue(rs[i], events, now) {
      assert b == a + {i};
    } else {
      assert b == a;
    }
  }

  /** The rows after the expiry sweep has cancelled exactly the reservations
   *  in `done` of `rs0`, giving their seats back to the events of `events0`:
   *  for each event, free slots plus held seats are what they were. */
  ghost predicate SweptFrom(rs0: seq<R.Reservation>, events0: map<Id, R.Event>, done: set<Id>,
                            rs: seq<R.Reservation>, evs: map<Id, R.Event>)
  {
    && |rs| == |rs0|
    && (forall j :: 0 <= j < |rs0| ==> rs[j] == if j in done then rs0[j].(status := R.Cancelled) else rs0[j])
    && evs.Keys == events0.Keys
    && (forall e :: e in evs ==> evs[e] == events0[e].(availableSlots := evs[e].availableSlots))
    && (forall e :: e in evs ==> evs[e].availableSlots + R.Held(rs, e) == events0[e].availableSlots + R.Held(rs0, e))
  }

  /** Cancels one more due reservation and gives its party's seats back,
   *  keeping `SweptFrom`. */
  method ExpireOne(rs0: seq<R.Reservation>, events0: map<Id, R.Event>, now: int, ghost done: set<Id>,
                   rs: seq<R.Reservation>, evs: map<Id, R.Event>, i: Id)
    returns (rs': seq<R.Reservation>, evs': map<Id, R.Event>)
    requires forall j :: 0 <= j < |rs0| ==> rs0[j].eventId in events0
    requires SweptFrom(rs0, events0, done, rs, evs)
    requires i in DueForExpiry(rs0, events0, now) && i !in done
    ensures SweptFrom(rs0, events0, done + {i}, rs', evs')
    ensures rs'[i].status == R.Cancelled
  {
    var r := rs[i];
    rs', evs' := rs[i := r.(status := R.Cancelled)], evs[r.eventId := R.Release(evs[r.eventId], r.numberOfPeople)];
    forall e | e in evs'
      ensures evs'[e].availableSlots + R.Held(rs', e) == events0[e].availableSlots + R.Held(rs0, e)
    {
      R.HeldUpdate(rs, i, r.(status := R.Cancelled), e);
    }
  }

  /** The sweep changes only statuses and free slots. */
  lemma SweptRowsKeepShape(rs0: seq<R.Reservation>, events0: map<Id, R.Event>, done: set<Id>,
                           rs: seq<R.Reservation>, evs: map<Id, R.Event>)
    requires SweptFrom(rs0, events0, done, rs, evs)
    ensures forall j :: 0 <= j < |rs| ==> rs[j] == rs0[j].(status := rs[j].status)
  {
  }

  /** Seats given back are seats no longer held, so a balanced state stays
   *  balanced. */
  lemma SweptKeepsBalance(rs0: seq<R.Reservation>, events0: map<Id, R.Event>, done: set<Id>,
                          rs: seq<R.Reservation>, evs: map<Id, R.Event>)
    requires SweptFrom(rs0, events0, done, rs, evs)
    ensures Balanced(events0, rs0) ==> Balanced(evs, rs)
  {
  }

  /** After the sweep nothing is due any more: a second run right after
   *  releases nothing. */
  lemma {:induction false} SweepIdempotent(rs0: seq<R.Reservation>, events0: map<Id, R.Event>, now: int,
                                           rs: seq<R.Reservation>, evs: map<Id, R.Event>)
    requires SweptFrom(rs0, events0, DueForExpiry(rs0, events0, now), rs, evs)
    ensures DueForExpiry(rs, evs, now) == {}
  {
    assert SameDates(evs, events0);
    forall i | 0 <= i < |rs|
      ensures !ExpiryDue(rs[i], evs, now)
    {
      if !ExpiryDue(rs0[i], events0, now) {
        DueAfterSameDates(rs0[i], evs, events0, now);
      }
    }
  }

  /** Exactly the due reservations are cancelled; paid ones (CONFIRMED,
   *  COMPLETED) are never touched. */
  lemma SweepCancelsExactlyDue(rs0: seq<R.Reservation>, events0: map<Id, R.Event>, now: int,
                               rs: seq<R.Reservation>, evs: map<Id, R.Event>)
    requires SweptFrom(rs0, events0, DueForExpiry(rs0, events0, now), rs, evs)
    ensures forall i :: 0 <= i < |rs| ==>
              (rs[i].status == R.Cancelled <==> rs0[i].status == R.Cancelled || ExpiryDue(rs0[i], events0, now))
    ensures forall i :: 0 <= i < |rs| && rs0[i].status in {R.Confirmed, R.Completed} ==> rs[i] == rs0[i]
  {
  }

  /** The loop of `cancelExpiredPendingPayments` over the loaded rows: each
   *  due reservation once, in whatever order the hash set yields them. */
  method ExpirePending(rs0: seq<R.Reservation>, events0: map<Id, R.Event>, now: int)
    returns (rs: seq<R.Reservation>, evs: map<Id, R.Event>, count: nat)
    requires forall j :: 0 <= j < |rs0| ==> rs0[j].eventId in events0
    ensures SweptFrom(rs0, events0, DueForExpiry(rs0, events0, now), rs, evs)
    ensures count == |DueForExpiry(rs0, events0, now)|
  {
    var expired := DueForExpiry(rs0, events0, now);
    rs, evs := rs0, events0;
    var todo := expired;
    ghost var done: set<Id> := {};
    count := 0;
    while todo != {}
      invariant todo <= expired && done == expired - todo && count + |todo| == |expired|
      invariant SweptFrom(rs0, events0, done, rs, evs)
      decreases |todo|
    {
      var i :| i in todo;
      rs, evs := ExpireOne(rs0, events0, now, done, rs, evs, i);
      done, todo := done + {i}, todo - {i};
      count := count + 1;
    }
  }

  /** The loop of `updateCompletedReservations` over the loaded rows, in
   *  id order.  A CONFIRMED reservation and its COMPLETED successor hold
   *  the same seats, so no event's held count moves. */
  method CompletePassed(rs0: seq<R.Reservation>, events0: map<Id, R.Event>, now: int)
    returns (rs: seq<R.Reservation>, count: nat)
    ensures |rs| == |rs0|
    ensures forall i :: 0 <= i < |rs| ==>
              rs[i] == if CompletionDue(rs0[i], events0, now) then rs0[i].(status := R.Completed) else rs0[i]
    ensures count == |DueForCompletion(rs0, events0, now)|
    ensures forall e :: R.Held(rs, e) == R.Held(rs0, e)
  {
    rs, count := rs0, 0;
    for i := 0 to |rs0|
      invariant |rs| == |rs0|
      invariant forall j :: 0 <= j < |rs0| ==>
                  rs[j] == if j < i && CompletionDue(rs0[j], events0, now) then rs0[j].(status := R.Completed) else rs0[j]
      invariant count == |DueForCompletion(rs0[..i], events0, now)|
      invariant forall e :: R.Held(rs, e) == R.Held(rs0, e)
    {
      DueForCompletionStep(rs0, events0, now, i);
      if CompletionDue(rs[i], events0, now) {
        forall e
          ensures R.Held(rs[i := rs[i].(status := R.Completed)], e) == R.Held(rs, e)
        {
          R.HeldUnchanged(rs, i, rs[i].(status := R.Completed), e);
        }
        rs := rs[i := rs[i].(status := R.Completed)];
        count := count + 1;
      }
    }
    assert rs0[..|rs0|] == rs0;
  }

  /** After the completion sweep nothing is due for completion. */
  lemma CompletionIdempotent(rs0: seq<R.Reservation>, events0: map<Id, R.Event>, now: int, rs: seq<R.Reservation>)
    requires |rs| == |rs0|
    requires forall i :: 0 <= i < |rs| ==>
               rs[i] == if CompletionDue(rs0[i], events0, now) then rs0[i].(status := R.Completed) else rs0[i]
    ensures DueForCompletion(rs, events0, now) == {}
  {
  }

  class ReservationScheduler {
    const db: Database

    constructor (db: Database)
      ensures this.db == db
    {
      this.db := db;
    }

    /** `updateCompletedReservations`: every CONFIRMED reservation whose event
     *  date has passed becomes COMPLETED; nothing else changes, seats
     *  included.  Returns the number updated.  Afterwards none is due. */
    method UpdateCompletedReservations(now: int) returns (count: nat)
      requires db.Valid()
      modifies db
      ensures db.Valid()
      ensures |db.reservations| == |old(db.reservations)|
      ensures forall i :: 0 <= i < |db.reservations| ==>
                db.reservations[i] ==
                  if CompletionDue(old(db.reservations[i]), old(db.events), now)
                  then old(db.reservations[i]).(status := R.Completed)
                  else old(db.reservations[i])
      ensures count == |DueForCompletion(old(db.reservations), old(db.events), now)|
      ensures old(db.SeatsBalanced()) ==> db.SeatsBalanced()
      ensures old(db.RosterWithinLimits()) ==> db.RosterWithinLimits()
      ensures db.events == old(db.events) && db.payments == old(db.payments)
      ensures db.vouchers == old(db.vouchers) && db.participants == old(db.participants)
      ensures db.nextParticipantId == old(db.nextParticipantId)
    {
      var rs;
      rs, count := CompletePassed(db.reservations, db.events, now);
      db.WriteBack(rs, db.events);
    }

    /** `cancelExpiredPendingPayments`: the union of both queries, each
     *  reservation once, in whatever order the hash set yields them; each
     *  gives its party's seats back to its event and becomes CANCELLED.
     *  Returns the number cancelled.  The new rows are `SweptFrom` the old
     *  ones by the due set; the lemmas below draw the consequences. */
    method CancelExpiredPendingPayments(now: int) returns (count: nat)
      requires db.Valid()
      modifies db
      ensures db.Valid()
      ensures SweptFrom(old(db.reservations), old(db.events), DueForExpiry(old(db.reservations), old(db.events), now),
                        db.reservations, db.events)
      ensures count == |DueForExpiry(old(db.reservations), old(db.events), now)|
      ensures old(db.SeatsBalanced()) ==> db.SeatsBalanced()
      ensures old(db.RosterWithinLimits()) ==> db.RosterWithinLimits()
      ensures db.payments == old(db.payments) && db.vouchers == old(db.vouchers)
      ensures db.participants == old(db.participants) && db.nextParticipantId == old(db.nextParticipantId)
    {
      var rs, evs;
      rs, evs, count := ExpirePending(db.reservations, db.events, now);
      SweptRowsKeepShape(db.reservations, db.events, DueForExpiry(db.reservations, db.events, now), rs, evs);
      SweptKeepsBalance(db.reservations, db.events, DueForExpiry(db.reservations, db.events, now), rs, evs);
      db.WriteBack(rs, evs);
    }
  }
}
