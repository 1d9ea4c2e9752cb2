/** The persistent state the services share: one table per entity.  Rows of
 *  the reservation, payment and voucher tables are numbered by their IDENTITY
 *  key, so a row's id is its index; events (maintained outside this model)
 *  and participants (which are deleted) are keyed maps. */
module Store {
  import opened Base
  import V = Vouchers
  import P = Payments
  import R = Reservations

  /** Participants of reservation `rid` in category `c`. */
  function CountIn(ps: map<Id, R.Participant>, rid: Id, c: R.Category): nat
  {
    |Members(ps, rid, c)|
  }

  function Members(ps: map<Id, R.Participant>, rid: Id, c: R.Category): set<Id>
  {
    set k | k in ps && ps[k].reservationId == rid && ps[k].category == c
  }

  /** `existsByReservationIdAndUserId` */
  predicate Joined(ps: map<Id, R.Participant>, rid: Id, user: Id)
  {
    exists k :: k in ps && ps[k].reservationId == rid && ps[k].user == user
  }

  /** Adding a participant under a fresh key adds one to its own category of
   *  its own reservation and to nothing else. */
  lemma {:induction false} CountAfterAdd(ps: map<Id, R.Participant>, k: Id, p: R.Participant, rid: Id, c: R.Category)
    requires k !in ps
    ensures CountIn(ps[k := p], rid, c) == CountIn(ps, rid, c) + (if p.reservationId == rid && p.category == c then 1 else 0)
  {
    var before := Members(ps, rid, c);
    var after := Members(ps[k := p], rid, c);
    if p.reservationId == rid && p.category == c {
      assert after == before + {k};
      assert k !in before;
    } else {
      assert after == before;
    }
  }

  /** Removing participants never raises a count. */
  lemma {:induction false} CountAfterRemove(ps: map<Id, R.Participant>, gone: set<Id>, rid: Id, c: R.Category)
    ensures CountIn(ps - gone, rid, c) <= CountIn(ps, rid, c)
  {
    var before := Members(ps, rid, c);
    var after := Members(ps - gone, rid, c);
    assert after <= before;
    SubsetCard(after, before);
  }

  lemma {:induction false} SubsetCard<T>(a: set<T>, b: set<T>)
    requires a <= b
    ensures |a| <= |b|
    decreases |b|
  {
    if b != {} {
      var x :| x in b;
      SubsetCard(a - {x}, b - {x});
    }
  }

  /** Every event's free slots and the seats held for it add up to its
   *  capacity. */
  ghost predicate Balanced(events: map<Id, R.Event>, rs: seq<R.Reservation>)
  {
    forall e :: e in events ==> events[e].availableSlots + R.Held(rs, e) == events[e].capacity
  }

  class Database {
    var events: map<Id, R.Event>
    var reservations: seq<R.Reservation>
    var payments: seq<P.Payment>
    var vouchers: seq<V.GiftVoucher>
    var participants: map<Id, R.Participant>
    var nextParticipantId: Id

    /** An empty booking system over the given events. */
    constructor (events: map<Id, R.Event>)
      ensures this.events == events && reservations == [] && payments == [] && vouchers == []
      ensures participants == map[] && nextParticipantId == 0
      ensures Valid() && RosterWithinLimits()
      ensures (forall e :: e in events ==> events[e].availableSlots == events[e].capacity) ==> SeatsBalanced()
    {
      this.events := events;
      reservations := [];
      payments := [];
      vouchers := [];
      participants := map[];
      nextParticipantId := 0;
    }

    /** A payment refers to an existing reservation and splits that
     *  reservation's total into charge and voucher portion; only a payment
     *  backed by an existing voucher has a voucher portion, and then its
     *  charge is not negative. */
    ghost predicate PaymentConsistent(p: P.Payment)
      reads this
    {
      && p.reservationId < |reservations|
      && p.amount + p.voucherAmount == reservations[p.reservationId].totalPrice
      && (p.usedVoucher.None? ==> p.voucherAmount == 0)
      && (p.usedVoucher.Some? ==> p.usedVoucher.value < |vouchers| && p.amount >= 0)
    }

    /** The referential and key constraints of the schema:
     *  - every reservation's event exists;
     *  - every payment is consistent with its reservation, and a reservation
     *    has at most one payment (the one-to-one join column is unique);
     *  - participants refer to existing reservations, their keys lie below
     *    the next identity value, and (reservation, user) is unique;
     *  - voucher codes are unique. */
    ghost predicate Valid()
      reads this
    {
      && (forall i :: 0 <= i < |reservations| ==> reservations[i].eventId in events)
      && (forall i :: 0 <= i < |payments| ==> PaymentConsistent(payments[i]))
      && (forall i, j :: 0 <= i < j < |payments| ==> payments[i].reservationId != payments[j].reservationId)
      && (forall k :: k in participants ==> k < nextParticipantId && participants[k].reservationId < |reservations|)
      && (forall k, l :: k in participants && l in participants && k != l ==>
            participants[k].reservationId != participants[l].reservationId || participants[k].user != participants[l].user)
      && (forall i, j :: 0 <= i < j < |vouchers| && vouchers[i].code.Some? ==> vouchers[i].code != vouchers[j].code)
    }

    /** Seat conservation: an event's free slots and the seats its live
     *  reservations hold add up to its capacity. */
    ghost predicate SeatsBalanced()
      reads this
    {
      Balanced(events, reservations)
    }

    /** No reservation has more participants of a category than it admits. */
    ghost predicate RosterWithinLimits()
      reads this
    {
      forall rid, c :: 0 <= rid < |reservations| ==>
        CountIn(participants, rid, c) <= Max(0, R.CategoryLimit(reservations[rid], c))
    }

    /** `paymentRepository.findByReservationId` */
    function PaymentFor(rid: Id): (r: Option<Id>)
      reads this
      ensures r.Some? ==> r.value < |payments| && payments[r.value].reservationId == rid
      ensures r.None? ==> forall j :: 0 <= j < |payments| ==> payments[j].reservationId != rid
    {
      FirstIndex(payments, (p: P.Payment) => p.reservationId == rid)
    }

    /** In a valid state the payment found is the reservation's only one. */
    lemma PaymentForUnique(rid: Id)
      requires Valid() && PaymentFor(rid).Some?
      ensures forall j :: 0 <= j < |payments| && j != PaymentFor(rid).value ==> payments[j].reservationId != rid
    {
    }

    /** `giftVoucherRepository.findByCode` */
    function VoucherWithCode(code: string): (r: Option<Id>)
      reads this
      ensures r.Some? ==> r.value < |vouchers| && vouchers[r.value].code == Some(code)
      ensures r.None? ==> forall j :: 0 <= j < |vouchers| ==> vouchers[j].code != Some(code)
    {
      FirstIndex(vouchers, (v: V.GiftVoucher) => v.code == Some(code))
    }

    predicate CodeFree(code: string)
      reads this
    {
      forall j :: 0 <= j < |vouchers| ==> vouchers[j].code != Some(code)
    }

    /** `reservation.setStatus(s)` and save.  The seats held change only when
     *  the reservation enters or leaves CANCELLED, so any other change keeps
     *  the seat balance; the sub-seat limits do not depend on the status. */
    method SetReservationStatus(rid: Id, s: R.ReservationStatus)
      requires Valid() && rid < |reservations|
      modifies this
      ensures Valid()
      ensures reservations == old(reservations)[rid := old(reservations[rid]).(status := s)]
      ensures old(SeatsBalanced()) && old(reservations[rid]).status != R.Cancelled && s != R.Cancelled ==>
                SeatsBalanced()
      ensures old(RosterWithinLimits()) ==> RosterWithinLimits()
      ensures events == old(events) && payments == old(payments)
      ensures vouchers == old(vouchers) && participants == old(participants)
      ensures nextParticipantId == old(nextParticipantId)
    {
      var before := reservations;
      reservations := reservations[rid := reservations[rid].(status := s)];
      if before[rid].status != R.Cancelled && s != R.Cancelled {
        LiveStatusChangeKeepsHeld(before, rid, s);
      }
      assert forall k, c :: 0 <= k < |before| ==>
        R.CategoryLimit(reservations[k], c) == R.CategoryLimit(before[k], c);
    }

    /** Cancel a live reservation and give its party's seats back to its
     *  event.  For every event the free slots plus the seats held stay what
     *  they were, so the seat balance is kept. */
    method CancelAndRelease(rid: Id)
      requires Valid() && rid < |reservations| && reservations[rid].status != R.Cancelled
      modifies this
      ensures Valid()
      ensures var res := old(reservations[rid]);
              && reservations == old(reservations)[rid := res.(status := R.Cancelled)]
              && events == old(events)[res.eventId := R.Release(old(events[res.eventId]), res.numberOfPeople)]
      ensures forall e :: e in events ==>
                events[e].availableSlots + R.Held(reservations, e) ==
                  old(events[e].availableSlots) + old(R.Held(reservations, e))
      ensures old(SeatsBalanced()) ==> SeatsBalanced()
      ensures old(RosterWithinLimits()) ==> RosterWithinLimits()
      ensures payments == old(payments) && vouchers == old(vouchers)
      ensures participants == old(participants) && nextParticipantId == old(nextParticipantId)
    {
      var before := reservations;
      var res := reservations[rid];
      var e := events[res.eventId];
      reservations := reservations[rid := res.(status := R.Cancelled)];
      events := events[res.eventId := R.Release(e, res.numberOfPeople)];
      forall ev | ev in events
        ensures R.Held(reservations, ev) == R.Held(before, ev) - R.Holding(res, ev)
      {
        R.HeldUpdate(before, rid, res.(status := R.Cancelled), ev);
      }
      assert forall k, c :: 0 <= k < |before| ==>
        R.CategoryLimit(reservations[k], c) == R.CategoryLimit(before[k], c);
    }

    /** `giftVoucherRepository.save(v)`: inserts `v` as row `vid` when `vid`
     *  is the next free id, else updates that row.  A voucher without a
     *  code, or keeping the code it had, keeps the codes unique. */
    method SaveVoucher(vid: Id, v: V.GiftVoucher)
      requires Valid() && vid <= |vouchers|
      requires v.code.None? || (vid < |vouchers| && v.code == vouchers[vid].code)
      modifies this
      ensures Valid()
      ensures vouchers == if vid == old(|vouchers|) then old(vouchers) + [v] else old(vouchers)[vid := v]
      ensures events == old(events) && reservations == old(reservations) && payments == old(payments)
      ensures participants == old(participants) && nextParticipantId == old(nextParticipantId)
    {
      if vid == |vouchers| {
        vouchers := vouchers + [v];
      } else {
        vouchers := vouchers[vid := v];
      }
    }

    /** Rolling back the transaction drops the voucher rows it inserted,
     *  which no payment refers to yet. */
    method RollBackVouchers(n: nat)
      requires Valid() && n <= |vouchers|
      requires forall i :: 0 <= i < |payments| && payments[i].usedVoucher.Some? ==> payments[i].usedVoucher.value < n
      modifies this
      ensures Valid()
      ensures vouchers == old(vouchers[..n])
      ensures events == old(events) && reservations == old(reservations) && payments == old(payments)
      ensures participants == old(participants) && nextParticipantId == old(nextParticipantId)
    {
      vouchers := vouchers[..n];
    }

    /** Rolling back the transaction drops the payment rows it inserted. */
    method RollBackPayments(n: nat)
      requires Valid() && n <= |payments|
      modifies this
      ensures Valid()
      ensures payments == old(payments[..n])
      ensures events == old(events) && reservations == old(reservations) && vouchers == old(vouchers)
      ensures participants == old(participants) && nextParticipantId == old(nextParticipantId)
    {
      payments := payments[..n];
    }

    /** `participantRepository.save(new ReservationParticipant(...))`: the
     *  row gets the next identity value.  A user not yet on the roster, in a
     *  category with a free sub-seat, keeps the roster within its limits. */
    method AddParticipant(p: R.Participant) returns (k: Id)
      requires Valid() && p.reservationId < |reservations| && !Joined(participants, p.reservationId, p.user)
      requires CountIn(participants, p.reservationId, p.category) < R.CategoryLimit(reservations[p.reservationId], p.category)
      modifies this
      ensures Valid()
      ensures k == old(nextParticipantId) && k !in old(participants)
      ensures participants == old(participants)[k := p] && nextParticipantId == k + 1
      ensures old(RosterWithinLimits()) ==> RosterWithinLimits()
      ensures events == old(events) && reservations == old(reservations)
      ensures payments == old(payments) && vouchers == old(vouchers)
    {
      k := nextParticipantId;
      var before := participants;
      participants := participants[k := p];
      nextParticipantId := nextParticipantId + 1;
      forall rid, c | 0 <= rid < |reservations|
        ensures CountIn(participants, rid, c) ==
                CountIn(before, rid, c) + (if rid == p.reservationId && c == p.category then 1 else 0)
      {
        CountAfterAdd(before, k, p, rid, c);
      }
    }

    /** Write back reservation rows whose only change is their status and
     *  event rows whose only change is their free slots, as a transaction
     *  that updated them one by one commits them. */
    method WriteBack(rs: seq<R.Reservation>, evs: map<Id, R.Event>)
      requires Valid() && |rs| == |reservations| && evs.Keys == events.Keys
      requires forall j :: 0 <= j < |rs| ==> rs[j] == reservations[j].(status := rs[j].status)
      requires forall e :: e in evs ==> evs[e] == events[e].(availableSlots := evs[e].availableSlots)
      modifies this
      ensures Valid() && reservations == rs && events == evs
      ensures old(RosterWithinLimits()) ==> RosterWithinLimits()
      ensures payments == old(payments) && vouchers == old(vouchers)
      ensures participants == old(participants) && nextParticipantId == old(nextParticipantId)
    {
      var before := reservations;
      reservations, events := rs, evs;
      assert forall j :: 0 <= j < |rs| ==>
        rs[j].totalPrice == before[j].totalPrice && rs[j].eventId == before[j].eventId;
      assert forall k, c :: 0 <= k < |before| ==>
        R.CategoryLimit(reservations[k], c) == R.CategoryLimit(before[k], c);
    }
  }

  /** A status change between two live statuses holds the same seats. */
  lemma LiveStatusChangeKeepsHeld(rs: seq<R.Reservation>, i: nat, s: R.ReservationStatus)
    requires i < |rs| && rs[i].status != R.Cancelled && s != R.Cancelled
    ensures forall e :: R.Held(rs[i := rs[i].(status := s)], e) == R.Held(rs, e)
  {
    forall e
      ensures R.Held(rs[i := rs[i].(status := s)], e) == R.Held(rs, e)
    {
      R.HeldUnchanged(rs, i, rs[i].(status := s), e);
    }
  }

  /** Confirming a CANCELLED reservation (as a replayed or late payment
   *  confirmation does, since none of them checks the status) puts its party
   *  back among the held seats without taking them off the event: the seat
   *  balance is lost. */
  lemma ConfirmingCancelledUnbalances(rs: seq<R.Reservation>, i: nat, slots: int, capacity: int)
    requires i < |rs| && rs[i].status == R.Cancelled && rs[i].numberOfPeople > 0
    requires slots + R.Held(rs, rs[i].eventId) == capacity
    ensures slots + R.Held(rs[i := rs[i].(status := R.Confirmed)], rs[i].eventId) > capacity
  {
    R.HeldUpdate(rs, i, rs[i].(status := R.Confirmed), rs[i].eventId);
  }
}
