/** The ExperienceEvent, Reservation and ReservationParticipant entities and
 *  the pure rules around them: the status groups, the price of a booking,
 *  the seat arithmetic of create and cancel, the per-category sub-seats of a
 *  group reservation, and the number of seats reservations hold. */
module Reservations {
  import opened Base

  datatype ReservationStatus =
    | PendingPayment
    | AwaitingTransfer
    | PaymentFailed
    | Confirmed
    | Cancelled
    | Completed
    | Pending   // legacy value kept for old rows

  /** Statuses listed as "active" and as "history" by ReservationService. */
  const ACTIVE_STATUSES: seq<ReservationStatus> := [Confirmed, PendingPayment, AwaitingTransfer]
  const HISTORY_STATUSES: seq<ReservationStatus> := [Cancelled, Completed, PaymentFailed]

  /** No status is both active and history; every status but the legacy
   *  PENDING is one of the two. */
  lemma StatusGroupsPartition(s: ReservationStatus)
    ensures !(s in ACTIVE_STATUSES && s in HISTORY_STATUSES)
    ensures s != Pending <==> s in ACTIVE_STATUSES || s in HISTORY_STATUSES
  {
  }

  /** The bookable session.  `childPrice` is absent when the event charges
   *  children the adult price. */
  datatype Event = Event(
    farmOwner: Id,
    eventDate: int,
    capacity: int,
    price: int,
    childPrice: Option<int>,
    availableSlots: int)

  datatype Reservation = Reservation(
    user: Id,
    eventId: Id,
    numberOfPeople: int,
    numberOfAdults: Option<int>,
    numberOfChildren: Option<int>,
    numberOfInfants: Option<int>,
    status: ReservationStatus,
    totalPrice: int,
    inviteCode: Option<string>,
    createdAt: int)

  /** Adults and children pay, the child price falling back to the adult
   *  price; infants are free. */
  function TotalPrice(e: Event, adults: int, children: int): int
  {
    e.price * adults + OrElse(e.childPrice, e.price) * children
  }

  /** Without a child price everyone but infants pays the adult price; with
   *  one, each child is charged it; the legacy (n, 0, 0) booking pays n adult
   *  prices. */
  lemma PriceRules(e: Event, adults: int, children: int)
    ensures e.childPrice.None? ==> TotalPrice(e, adults, children) == e.price * (adults + children)
    ensures e.childPrice.Some? ==>
              TotalPrice(e, adults, children + 1) == TotalPrice(e, adults, children) + e.childPrice.value
    ensures TotalPrice(e, adults + 1, children) == TotalPrice(e, adults, children) + e.price
    ensures TotalPrice(e, adults, 0) == e.price * adults
  {
  }

  /** The row `createReservation` saves: PENDING_PAYMENT, the three counts
   *  and their sum, the computed price. */
  function NewReservation(user: Id, eventId: Id, e: Event, adults: int, children: int, infants: int, now: int)
    : (r: Reservation)
    ensures r.status == PendingPayment && r.user == user && r.eventId == eventId
    ensures r.numberOfPeople == adults + children + infants
    ensures r.totalPrice == TotalPrice(e, adults, children)
    ensures r.inviteCode.None?
  {
    Reservation(user, eventId, adults + children + infants,
                Some(adults), Some(children), Some(infants),
                PendingPayment, TotalPrice(e, adults, children), None, now)
  }

  /** Seats taken off and given back. */
  function Reserve(e: Event, n: int): (r: Event)
    ensures r.availableSlots == e.availableSlots - n
    ensures r.(availableSlots := e.availableSlots) == e
  {
    e.(availableSlots := e.availableSlots - n)
  }

  function Release(e: Event, n: int): (r: Event)
    ensures r.availableSlots == e.availableSlots + n
    ensures r.(availableSlots := e.availableSlots) == e
  {
    e.(availableSlots := e.availableSlots + n)
  }

  /** Create-then-cancel gives every seat back. */
  lemma ReleaseUndoesReserve(e: Event, n: int)
    ensures Release(Reserve(e, n), n) == e
  {
  }

  // ---------------------------------------------------------------------
  // Group roster

  datatype Category = Adult | Child | Infant

  datatype Participant = Participant(reservationId: Id, user: Id, category: Category, joinedAt: int)

  /** How many participants of a category a reservation admits: the owner
   *  takes one adult seat. */
  function CategoryLimit(r: Reservation, c: Category): int
  {
    match c
    case Adult => OrElse(r.numberOfAdults, r.numberOfPeople) - 1
    case Child => OrElse(r.numberOfChildren, 0)
    case Infant => OrElse(r.numberOfInfants, 0)
  }

  /** For a booking made through `createReservation`, the sub-seats and the
   *  owner together are exactly the booked headcount; a legacy (n, 0, 0)
   *  booking admits n - 1 adults and no one else. */
  lemma RosterFitsHeadcount(user: Id, eventId: Id, e: Event, adults: int, children: int, infants: int, now: int)
    ensures var r := NewReservation(user, eventId, e, adults, children, infants, now);
      1 + CategoryLimit(r, Adult) + CategoryLimit(r, Child) + CategoryLimit(r, Infant) == r.numberOfPeople
    ensures var r := NewReservation(user, eventId, e, adults, 0, 0, now);
      CategoryLimit(r, Adult) == adults - 1 && CategoryLimit(r, Child) == 0 && CategoryLimit(r, Infant) == 0
  {
  }

  /** A row predating the per-category counts lets the whole party but the
   *  owner join as adults. */
  lemma LegacyRowLimits(r: Reservation)
    requires r.numberOfAdults.None? && r.numberOfChildren.None? && r.numberOfInfants.None?
    ensures CategoryLimit(r, Adult) == r.numberOfPeople - 1
    ensures CategoryLimit(r, Child) == 0 && CategoryLimit(r, Infant) == 0
  {
  }

  // ---------------------------------------------------------------------
  // Seats held by reservations

  /** Seats of event `e` that reservation `r` holds: its party, unless it is
   *  cancelled. */
  function Holding(r: Reservation, e: Id): int
  {
    if r.eventId == e && r.status != Cancelled then r.numberOfPeople else 0
  }

  /** Seats of event `e` held by all reservations in `rs`. */
  function Held(rs: seq<Reservation>, e: Id): int
  {
    if |rs| == 0 then 0 else Held(rs[..|rs| - 1], e) + Holding(rs[|rs| - 1], e)
  }

  lemma HeldAppend(rs: seq<Reservation>, r: Reservation, e: Id)
    ensures Held(rs + [r], e) == Held(rs, e) + Holding(r, e)
  {
    assert (rs + [r])[..|rs|] == rs;
  }

  /** Replacing one reservation changes the held seats by the difference of
   *  the two holdings. */
  lemma {:induction false} HeldUpdate(rs: seq<Reservation>, i: nat, r: Reservation, e: Id)
    requires i < |rs|
    ensures Held(rs[i := r], e) == Held(rs, e) - Holding(rs[i], e) + Holding(r, e)
    decreases |rs|
  {
    var last := |rs| - 1;
    if i == last {
      assert rs[i := r][..last] == rs[..last];
    } else {
      assert rs[i := r][..last] == rs[..last][i := r];
      HeldUpdate(rs[..last], i, r, e);
    }
  }

  /** Reservations of other events, or changes that keep the holding, leave
   *  the held seats alone. */
  lemma HeldUnchanged(rs: seq<Reservation>, i: nat, r: Reservation, e: Id)
    requires i < |rs| && Holding(r, e) == Holding(rs[i], e)
    ensures Held(rs[i := r], e) == Held(rs, e)
  {
    HeldUpdate(rs, i, r, e);
  }
}
