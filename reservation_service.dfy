/** ReservationService: booking and cancelling seats of an event, the invite
 *  code of a group reservation, the participant roster behind it, and the
 *  merged list of a user's reservations. */
module ReservationServices {
  import opened Base
  import P = Payments
  import R = Reservations
  import opened Store
  import opened Sorting
  import opened PaymentServices

  // ---------------------------------------------------------------------
  // Invite codes

  predicate IsHexDigit(c: char)
  {
    '0' <= c <= '9' || 'a' <= c <= 'f'
  }

  /** The canonical text of `UUID.randomUUID()`: 36 characters, hyphens at
   *  8, 13, 18 and 23, lower-case hex digits elsewhere. */
  predicate IsUuid(s: string)
  {
    && |s| == 36
    && (forall i :: 0 <= i < |s| ==> (s[i] == '-' <==> i == 8 || i == 13 || i == 18 || i == 23))
    && (forall i :: 0 <= i < |s| && s[i] != '-' ==> IsHexDigit(s[i]))
  }

  /** `replace("-", "")` */
  function RemoveHyphens(s: string): (t: string)
    ensures |t| <= |s|
    ensures forall i :: 0 <= i < |t| ==> t[i] != '-'
  {
    if |s| == 0 then []
    else if s[0] == '-' then RemoveHyphens(s[1..])
    else [s[0]] + RemoveHyphens(s[1..])
  }

  lemma {:induction false} RemoveHyphensAppend(a: string, b: string)
    ensures RemoveHyphens(a + b) == RemoveHyphens(a) + RemoveHyphens(b)
    decreases |a|
  {
    if |a| > 0 {
      assert (a + b)[0] == a[0] && (a + b)[1..] == a[1..] + b;
      RemoveHyphensAppend(a[1..], b);
      if a[0] != '-' {
        assert RemoveHyphens(a + b) == [a[0]] + (RemoveHyphens(a[1..]) + RemoveHyphens(b));
      }
    } else {
      assert a + b == b;
    }
  }

  lemma {:induction false} RemoveHyphensNone(a: string)
    requires forall i :: 0 <= i < |a| ==> a[i] != '-'
    ensures RemoveHyphens(a) == a
    decreases |a|
  {
    if |a| > 0 {
      RemoveHyphensNone(a[1..]);
    }
  }

  /** The code `generateInviteCode` derives from a UUID. */
  function InviteCodeOf(uuid: string): (code: string)
    requires |RemoveHyphens(uuid)| >= 8
  {
    RemoveHyphens(uuid)[..8]
  }

  /** A fresh invite code is the UUID's first eight hex digits. */
  lemma InviteCodeShape(uuid: string)
    requires IsUuid(uuid)
    ensures |RemoveHyphens(uuid)| >= 8
    ensures InviteCodeOf(uuid) == uuid[..8]
    ensures |InviteCodeOf(uuid)| == 8
    ensures forall i :: 0 <= i < 8 ==> IsHexDigit(InviteCodeOf(uuid)[i])
  {
    assert uuid == uuid[..8] + uuid[8..];
    RemoveHyphensAppend(uuid[..8], uuid[8..]);
    RemoveHyphensNone(uuid[..8]);
  }

  // ---------------------------------------------------------------------
  // The merged reservation list

  /** Ids of the reservations `user` made, in id order. */
  function OwnedIds(rs: seq<R.Reservation>, user: Id): (ids: seq<Id>)
    ensures forall i :: 0 <= i < |ids| ==> ids[i] < |rs| && rs[ids[i]].user == user
    ensures forall x :: 0 <= x < |rs| && rs[x].user == user ==> x in ids
    ensures forall i, j :: 0 <= i < j < |ids| ==> ids[i] < ids[j]
  {
    if |rs| == 0 then []
    else
      var init := OwnedIds(rs[..|rs| - 1], user);
      if rs[|rs| - 1].user == user then init + [|rs| - 1] else init
  }

  /** Reservations ordered by creation time. */
  function CreatedKey(rs: seq<R.Reservation>): Id -> real
  {
    (x: Id) => if x < |rs| then rs[x].createdAt as real else 0.0
  }

  predicate NoDuplicates(s: seq<Id>)
  {
    forall i, j :: 0 <= i < j < |s| ==> s[i] != s[j]
  }

  class ReservationService {
    const db: Database
    const payments: PaymentService

    constructor (db: Database, payments: PaymentService)
      requires payments.db == db && payments.Wired()
      ensures this.db == db && this.payments == payments && Wired()
    {
      this.db := db;
      this.payments := payments;
    }

    predicate Wired()
    {
      payments.db == db && payments.Wired()
    }

    /** `getReservationById`: only the booker and the farm's owner may see a
     *  reservation. */
    method GetReservationById(rid: Id, user: Id) returns (r: Result<Id>)
      requires db.Valid()
      ensures rid >= |db.reservations| ==> r == Err(NotFound)
      ensures r.Ok? <==>
                rid < |db.reservations| &&
                (user == db.reservations[rid].user || user == db.events[db.reservations[rid].eventId].farmOwner)
      ensures r.Ok? ==> r.value == rid
      ensures r.Err? && rid < |db.reservations| ==> r.error == Unauthorized
    {
      if rid >= |db.reservations| {
        return Err(NotFound);
      }
      var res := db.reservations[rid];
      if res.user != user && db.events[res.eventId].farmOwner != user {
        return Err(Unauthorized);
      }
      r := Ok(rid);
    }

    /** `createReservation(user, eventId, adults, children, infants)`: the
     *  party must fit in the free slots; the new reservation waits for
     *  payment and its party leaves the event's slots. */
    method CreateReservation(user: Id, eventId: Id, adults: int, children: int, infants: int, now: int)
      returns (r: Result<Id>)
      requires db.Valid()
      modifies db
      ensures db.Valid()
      ensures eventId !in old(db.events) ==> r == Err(NotFound)
      ensures eventId in old(db.events) && old(db.events[eventId]).availableSlots < adults + children + infants ==>
                r == Err(NotEnoughSlots)
      ensures r.Ok? <==>
                eventId in old(db.events) && old(db.events[eventId]).availableSlots >= adults + children + infants
      ensures r.Err? ==> unchanged(db)
      ensures r.Ok? ==>
                var e := old(db.events[eventId]);
                && r.value == |old(db.reservations)|
                && db.reservations == old(db.reservations) + [R.NewReservation(user, eventId, e, adults, children, infants, now)]
                && db.events == old(db.events)[eventId := R.Reserve(e, adults + children + infants)]
      ensures old(db.SeatsBalanced()) ==> db.SeatsBalanced()
      ensures old(db.RosterWithinLimits()) ==> db.RosterWithinLimits()
      ensures db.payments == old(db.payments) && db.vouchers == old(db.vouchers)
      ensures db.participants == old(db.participants) && db.nextParticipantId == old(db.nextParticipantId)
    {
      if eventId !in db.events {
        return Err(NotFound);
      }
      var e := db.events[eventId];
      var total := adults + children + infants;
      if e.availableSlots < total {
        return Err(NotEnoughSlots);
      }
      var res := R.NewReservation(user, eventId, e, adults, children, infants, now);
      var before := db.reservations;
      db.events := db.events[eventId := R.Reserve(e, total)];
      db.reservations := db.reservations + [res];
      r := Ok(|before|);
      forall ev | ev in db.events
        ensures R.Held(db.reservations, ev) == R.Held(before, ev) + R.Holding(res, ev)
      {
        R.HeldAppend(before, res, ev);
      }
      assert forall k, c :: 0 <= k < |before| ==>
        R.CategoryLimit(db.reservations[k], c) == R.CategoryLimit(before[k], c);
      assert forall c :: CountIn(db.participants, |before|, c) == 0 by {
        forall c
          ensures CountIn(db.participants, |before|, c) == 0
        {
          assert Members(db.participants, |before|, c) == {};
        }
      }
    }

    /** The older `createReservation(user, eventId, numberOfPeople)`: a party
     *  of adults only. */
    method CreateReservationLegacy(user: Id, eventId: Id, numberOfPeople: int, now: int) returns (r: Result<Id>)
      requires db.Valid()
      modifies db
      ensures db.Valid()
      ensures r.Ok? <==> eventId in old(db.events) && old(db.events[eventId]).availableSlots >= numberOfPeople
      ensures r.Err? ==> unchanged(db)
      ensures r.Ok? ==>
                var e := old(db.events[eventId]);
                && r.value == |old(db.reservations)|
                && db.reservations == old(db.reservations) + [R.NewReservation(user, eventId, e, numberOfPeople, 0, 0, now)]
                && db.events == old(db.events)[eventId := R.Reserve(e, numberOfPeople)]
      ensures old(db.SeatsBalanced()) ==> db.SeatsBalanced()
      ensures old(db.RosterWithinLimits()) ==> db.RosterWithinLimits()
      ensures db.payments == old(db.payments) && db.vouchers == old(db.vouchers)
      ensures db.participants == old(db.participants) && db.nextParticipantId == old(db.nextParticipantId)
    {
      r := CreateReservation(user, eventId, numberOfPeople, 0, 0, now);
    }

    /** `cancelReservation`: only the booker, only once.  A COMPLETED payment
     *  is refunded first and a refund failure undoes everything; then the
     *  reservation is CANCELLED and its whole party goes back to the event's
     *  slots, with no cap at the capacity. */
    method CancelReservation(rid: Id, user: Id, now: int, api: P.StripeApi) returns (r: Result<()>)
      requires db.Valid() && Wired()
      modifies db
      ensures db.Valid()
      ensures rid >= |old(db.reservations)| ==> r == Err(NotFound)
      ensures rid < |old(db.reservations)| && old(db.reservations[rid]).user != user ==> r == Err(Unauthorized)
      ensures rid < |old(db.reservations)| && old(db.reservations[rid]).user == user &&
              old(db.reservations[rid]).status == R.Cancelled ==>
                r == Err(AlreadyCancelled)
      ensures r.Ok? <==>
                && rid < |old(db.reservations)|
                && old(db.reservations[rid]).user == user && old(db.reservations[rid]).status != R.Cancelled
                && (old(db.PaymentFor(rid)).Some? && old(db.payments[db.PaymentFor(rid).value]).status == P.Completed ==>
                      old(payments.RefundGoesThrough(rid, now, api)))
      ensures r.Err? ==> unchanged(db)
      ensures r.Ok? ==>
                && rid < |old(db.reservations)|
                && old(db.reservations[rid]).user == user && old(db.reservations[rid]).status != R.Cancelled
      ensures r.Ok? ==>
                var res := old(db.reservations[rid]);
                && db.reservations == old(db.reservations)[rid := res.(status := R.Cancelled)]
                && db.events == old(db.events)[res.eventId := R.Release(old(db.events[res.eventId]), res.numberOfPeople)]
      ensures r.Ok? ==>
                var res := old(db.reservations[rid]);
                var pay := old(db.PaymentFor(rid));
                if pay.Some? && old(db.payments[pay.value]).status == P.Completed then
                  var p := old(db.payments[pay.value]);
                  db.payments == old(db.payments)[pay.value :=
                    P.RefundEffect(p, P.RefundAmount(p.amount, now, old(db.events[res.eventId]).eventDate), now)]
                else db.payments == old(db.payments)
      ensures old(db.SeatsBalanced()) ==> db.SeatsBalanced()
      ensures old(db.RosterWithinLimits()) ==> db.RosterWithinLimits()
      ensures db.vouchers == old(db.vouchers)
      ensures db.participants == old(db.participants) && db.nextParticipantId == old(db.nextParticipantId)
    {
      if rid >= |db.reservations| {
        return Err(NotFound);
      }
      var res := db.reservations[rid];
      if res.user != user {
        return Err(Unauthorized);
      }
      if res.status == R.Cancelled {
        return Err(AlreadyCancelled);
      }
      var pay := db.PaymentFor(rid);
      if pay.Some? && db.payments[pay.value].status == P.Completed {
        var refunded := payments.ProcessRefund(rid, now, api);
        if refunded.Err? {
          return Err(refunded.error);
        }
      }
      db.CancelAndRelease(rid);
      r := Ok(());
    }

    /** `generateInviteCode`: the booker's reservation keeps the first code it
     *  was given; a first call stores eight hex digits of a random UUID. */
    method GenerateInviteCode(rid: Id, user: Id, uuid: string) returns (r: Result<string>)
      requires db.Valid() && IsUuid(uuid)
      modifies db
      ensures db.Valid()
      ensures rid >= |old(db.reservations)| ==> r == Err(NotFound)
      ensures rid < |old(db.reservations)| && old(db.reservations[rid]).user != user ==> r == Err(Unauthorized)
      ensures r.Ok? <==> rid < |old(db.reservations)| && old(db.reservations[rid]).user == user
      ensures r.Ok? && old(db.reservations[rid]).inviteCode.Some? ==>
                r.value == old(db.reservations[rid]).inviteCode.value && unchanged(db)
      ensures r.Ok? && old(db.reservations[rid]).inviteCode.None? ==>
                && r.value == uuid[..8]
                && db.reservations == old(db.reservations)[rid := old(db.reservations[rid]).(inviteCode := Some(r.value))]
      ensures r.Ok? ==> db.reservations[rid].inviteCode == Some(r.value)
      ensures r.Err? ==> unchanged(db)
      ensures old(db.SeatsBalanced()) ==> db.SeatsBalanced()
      ensures old(db.RosterWithinLimits()) ==> db.RosterWithinLimits()
      ensures db.events == old(db.events) && db.payments == old(db.payments) && db.vouchers == old(db.vouchers)
      ensures db.participants == old(db.participants) && db.nextParticipantId == old(db.nextParticipantId)
    {
      if rid >= |db.reservations| {
        return Err(NotFound);
      }
      var res := db.reservations[rid];
      if res.user != user {
        return Err(Unauthorized);
      }
      if res.inviteCode.Some? {
        return Ok(res.inviteCode.value);
      }
      InviteCodeShape(uuid);
      var code := InviteCodeOf(uuid);
      var before := db.reservations;
      db.reservations := db.reservations[rid := res.(inviteCode := Some(code))];
      forall ev | ev in db.events
        ensures R.Held(db.reservations, ev) == R.Held(before, ev)
      {
        R.HeldUnchanged(before, rid, res.(inviteCode := Some(code)), ev);
      }
      assert forall k, c :: 0 <= k < |before| ==>
        R.CategoryLimit(db.reservations[k], c) == R.CategoryLimit(before[k], c);
      r := Ok(code);
    }

    /** The reservation holding an invite code, if exactly one does. */
    function CodeHolder(code: string): (l: Lookup)
      reads db
      ensures l.Unique? ==> l.index < |db.reservations| && db.reservations[l.index].inviteCode == Some(code)
      ensures l.Missing? <==> forall j :: 0 <= j < |db.reservations| ==> db.reservations[j].inviteCode != Some(code)
    {
      FindUnique(db.reservations, (res: R.Reservation) => res.inviteCode == Some(code))
    }

    /** `getReservationByInviteCode` */
    method GetReservationByInviteCode(code: string) returns (r: Result<Id>)
      ensures r == (match CodeHolder(code)
                    case Missing => Err(InvalidInviteCode)
                    case Ambiguous => Err(DuplicateKey)
                    case Unique(i) => Ok(i))
      ensures (forall j :: 0 <= j < |db.reservations| ==> db.reservations[j].inviteCode != Some(code)) <==>
                r == Err(InvalidInviteCode)
      ensures r.Ok? ==> r.value < |db.reservations| && db.reservations[r.value].inviteCode == Some(code)
      ensures r.Ok? ==>
                forall j :: 0 <= j < |db.reservations| && j != r.value ==> db.reservations[j].inviteCode != Some(code)
    {
      var found := CodeHolder(code);
      if found.Missing? {
        return Err(InvalidInviteCode);
      } else if found.Ambiguous? {
        return Err(DuplicateKey);
      }
      r := Ok(found.index);
    }

    /** `joinReservation`: refused to the booker, to someone already in, for
     *  a CANCELLED reservation, and when the category's sub-seats are taken;
     *  otherwise exactly one participant is added. */
    method JoinReservation(code: string, user: Id, category: R.Category, now: int) returns (r: Result<Id>)
      requires db.Valid()
      modifies db
      ensures db.Valid()
      ensures r.Err? ==> unchanged(db)
      ensures (forall j :: 0 <= j < |old(db.reservations)| ==> old(db.reservations[j]).inviteCode != Some(code)) ==>
                r == Err(InvalidInviteCode)
      ensures old(CodeHolder(code)).Missing? ==> r == Err(InvalidInviteCode)
      ensures old(CodeHolder(code)).Ambiguous? ==> r == Err(DuplicateKey)
      ensures old(CodeHolder(code)).Unique? ==>
                var rid := old(CodeHolder(code)).index;
                var res := old(db.reservations[rid]);
                && (res.user == user ==> r == Err(OwnerCannotJoin))
                && (res.user != user && Joined(old(db.participants), rid, user) ==> r == Err(AlreadyJoined))
                && (res.user != user && !Joined(old(db.participants), rid, user) && res.status == R.Cancelled ==>
                      r == Err(ReservationCancelled))
                && (res.user != user && !Joined(old(db.participants), rid, user) && res.status != R.Cancelled &&
                    CountIn(old(db.participants), rid, category) >= R.CategoryLimit(res, category) ==>
                      r == Err(CapacityFull))
                && (r.Ok? <==>
                      res.user != user && !Joined(old(db.participants), rid, user) && res.status != R.Cancelled &&
                      CountIn(old(db.participants), rid, category) < R.CategoryLimit(res, category))
                && (r.Ok? ==>
                      && r.value == old(db.nextParticipantId)
                      && db.participants == old(db.participants)[r.value := R.Participant(rid, user, category, now)]
                      && db.nextParticipantId == old(db.nextParticipantId) + 1)
      ensures r.Ok? ==> r.value !in old(db.participants)
      ensures old(db.RosterWithinLimits()) ==> db.RosterWithinLimits()
      ensures db.events == old(db.events) && db.reservations == old(db.reservations)
      ensures db.payments == old(db.payments) && db.vouchers == old(db.vouchers)
    {
      var found := GetReservationByInviteCode(code);
      if found.Err? {
        return Err(found.error);
      }
      var rid := found.value;
      var res := db.reservations[rid];
      if res.user == user {
        return Err(OwnerCannotJoin);
      }
      if Joined(db.participants, rid, user) {
        return Err(AlreadyJoined);
      }
      if res.status == R.Cancelled {
        return Err(ReservationCancelled);
      }
      if CountIn(db.participants, rid, category) >= R.CategoryLimit(res, category) {
        return Err(CapacityFull);
      }
      var k := db.AddParticipant(R.Participant(rid, user, category, now));
      r := Ok(k);
    }

    /** `leaveReservation`: only a participant may leave; its row for the
     *  reservation is deleted and no other. */
    method LeaveReservation(rid: Id, user: Id) returns (r: Result<()>)
      requires db.Valid()
      modifies db
      ensures db.Valid()
      ensures r.Err? <==> !Joined(old(db.participants), rid, user)
      ensures r.Err? ==> r.error == NotParticipant && unchanged(db)
      ensures r.Ok? ==>
                forall k :: k in old(db.participants) ==>
                  (k in db.participants <==>
                     !(old(db.participants[k]).reservationId == rid && old(db.participants[k]).user == user))
      ensures r.Ok? ==> db.participants.Keys <= old(db.participants).Keys && !Joined(db.participants, rid, user)
      ensures forall k :: k in db.participants ==> db.participants[k] == old(db.participants[k])
      ensures old(db.RosterWithinLimits()) ==> db.RosterWithinLimits()
      ensures db.events == old(db.events) && db.reservations == old(db.reservations)
      ensures db.payments == old(db.payments) && db.vouchers == old(db.vouchers)
      ensures db.nextParticipantId == old(db.nextParticipantId)
    {
      if !Joined(db.participants, rid, user) {
        return Err(NotParticipant);
      }
      var before := db.participants;
      var gone := set k | k in before && before[k].reservationId == rid && before[k].user == user;
      db.participants := before - gone;
      forall rid', c | 0 <= rid' < |db.reservations|
        ensures CountIn(db.participants, rid', c) <= CountIn(before, rid', c)
      {
        CountAfterRemove(before, gone, rid', c);
      }
      r := Ok(());
    }

    /** Participant rows of a reservation (`findByReservationId`). */
    function RosterOf(rid: Id): (keys: set<Id>)
      reads db
      ensures forall k :: k in keys <==> k in db.participants && db.participants[k].reservationId == rid
    {
      set k | k in db.participants && db.participants[k].reservationId == rid
    }

    /** `getParticipants`: the booker, the farm's owner and the participants
     *  may see the roster. */
    method GetParticipants(rid: Id, user: Id) returns (r: Result<set<Id>>)
      requires db.Valid()
      ensures rid >= |db.reservations| ==> r == Err(NotFound)
      ensures r.Ok? <==>
                && rid < |db.reservations|
                && (|| user == db.reservations[rid].user
                    || user == db.events[db.reservations[rid].eventId].farmOwner
                    || Joined(db.participants, rid, user))
      ensures r.Err? && rid < |db.reservations| ==> r.error == Unauthorized
      ensures r.Ok? ==> r.value == RosterOf(rid)
    {
      if rid >= |db.reservations| {
        return Err(NotFound);
      }
      var res := db.reservations[rid];
      var isOwner := res.user == user;
      var isFarmOwner := db.events[res.eventId].farmOwner == user;
      var isParticipant := Joined(db.participants, rid, user);
      if !isOwner && !isFarmOwner && !isParticipant {
        return Err(Unauthorized);
      }
      r := Ok(RosterOf(rid));
    }

    /** `removeParticipant`: the booker removes one participant of their own
     *  reservation. */
    method RemoveParticipant(rid: Id, participantId: Id, user: Id) returns (r: Result<()>)
      requires db.Valid()
      modifies db
      ensures db.Valid()
      ensures rid >= |old(db.reservations)| ==> r == Err(NotFound)
      ensures rid < |old(db.reservations)| && old(db.reservations[rid]).user != user ==> r == Err(Unauthorized)
      ensures rid < |old(db.reservations)| && old(db.reservations[rid]).user == user &&
              participantId !in old(db.participants) ==>
                r == Err(NotFound)
      ensures rid < |old(db.reservations)| && old(db.reservations[rid]).user == user &&
              participantId in old(db.participants) && old(db.participants[participantId]).reservationId != rid ==>
                r == Err(ParticipantNotInReservation)
      ensures r.Ok? <==>
                && rid < |old(db.reservations)| && old(db.reservations[rid]).user == user
                && participantId in old(db.participants) && old(db.participants[participantId]).reservationId == rid
      ensures r.Err? ==> unchanged(db)
      ensures r.Ok? ==> db.participants == old(db.participants) - {participantId}
      ensures old(db.RosterWithinLimits()) ==> db.RosterWithinLimits()
      ensures db.events == old(db.events) && db.reservations == old(db.reservations)
      ensures db.payments == old(db.payments) && db.vouchers == old(db.vouchers)
      ensures db.nextParticipantId == old(db.nextParticipantId)
    {
      if rid >= |db.reservations| {
        return Err(NotFound);
      }
      if db.reservations[rid].user != user {
        return Err(Unauthorized);
      }
      if participantId !in db.participants {
        return Err(NotFound);
      }
      if db.participants[participantId].reservationId != rid {
        return Err(ParticipantNotInReservation);
      }
      var before := db.participants;
      db.participants := before - {participantId};
      forall rid', c | 0 <= rid' < |db.reservations|
        ensures CountIn(db.participants, rid', c) <= CountIn(before, rid', c)
      {
        CountAfterRemove(before, {participantId}, rid', c);
      }
      r := Ok(());
    }

    /** `getUserReservationsAsDto`: the user's own reservations and those they
     *  joined, each once, newest first.  `joined` is what
     *  `findByUserId` returns: the reservations of the user's participant
     *  rows, in an order the repository chooses. */
    method GetUserReservationsAsDto(user: Id, joined: seq<Id>) returns (list: seq<Id>)
      requires db.Valid()
      requires forall i :: 0 <= i < |joined| ==> Joined(db.participants, joined[i], user)
      requires forall rid :: Joined(db.participants, rid, user) ==> rid in joined
      ensures NoDuplicates(list)
      ensures forall x: Id :: x in list <==>
                x < |db.reservations| && (db.reservations[x].user == user || Joined(db.participants, x, user))
      ensures SortedDesc(list, CreatedKey(db.reservations))
    {
      var own := OwnedIds(db.reservations, user);
      var seen: set<Id> := {};
      var merged: seq<Id> := [];
      for i := 0 to |own|
        invariant NoDuplicates(merged)
        invariant forall x :: x in merged <==> x in seen
        invariant forall x :: x in seen <==> x in own[..i]
      {
        if own[i] !in seen {
          seen := seen + {own[i]};
          merged := merged + [own[i]];
        }
      }
      assert own[..|own|] == own;
      for i := 0 to |joined|
        invariant NoDuplicates(merged)
        invariant forall x :: x in merged ==> x in seen && x < |db.reservations|
        invariant forall x :: x in seen ==> x in merged
        invariant forall x :: x in seen <==> x in own || x in joined[..i]
      {
        var rid := joined[i];
        if rid !in seen {
          seen := seen + {rid};
          if rid < |db.reservations| {
            merged := merged + [rid];
          }
        }
      }
      assert joined[..|joined|] == joined;
      forall x: Id
        ensures x in merged <==>
                x < |db.reservations| && (db.reservations[x].user == user || Joined(db.participants, x, user))
      {
        if x < |db.reservations| && Joined(db.participants, x, user) {
          assert x in joined;
        }
      }
      list := SortDesc(merged, CreatedKey(db.reservations));
      SortDescSameElements(merged, CreatedKey(db.reservations));
      SortedNoDuplicates(merged, CreatedKey(db.reservations));
    }
  }

  /** Sorting a list without duplicates cannot create one. */
  lemma SortedNoDuplicates(s: seq<Id>, key: Id -> real)
    requires NoDuplicates(s)
    ensures NoDuplicates(SortDesc(s, key))
  {
    var t := SortDesc(s, key);
    forall i, j | 0 <= i < j < |t|
      ensures t[i] != t[j]
    {
      if t[i] == t[j] {
        TwiceCounted(t, i, j);
        AtMostOnce(s, t[i]);
        assert false;
      }
    }
  }

  lemma TwiceCounted(t: seq<Id>, i: nat, j: nat)
    requires i < j < |t| && t[i] == t[j]
    ensures multiset(t)[t[i]] >= 2
  {
    var x := t[i];
    assert t == t[..j] + t[j..];
    assert x in t[..j];
    assert x in t[j..];
    assert multiset(t) == multiset(t[..j]) + multiset(t[j..]);
  }

  lemma {:induction false} AtMostOnce(s: seq<Id>, x: Id)
    requires NoDuplicates(s)
    ensures multiset(s)[x] <= 1
    decreases |s|
  {
    if |s| > 0 {
      var init := s[..|s| - 1];
      assert s == init + [s[|s| - 1]];
      assert NoDuplicates(init);
      AtMostOnce(init, x);
      if s[|s| - 1] == x {
        assert x !in init;
      }
    }
  }
}
