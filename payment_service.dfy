/** PaymentService: creating the payment of a reservation (with an optional
 *  gift voucher), starting it through Stripe, PayPay or a bank transfer,
 *  confirming it, and refunding it by the cancellation policy. */
module PaymentServices {
  import opened Base
  import V = Vouchers
  import P = Payments
  import R = Reservations
  import opened Store
  import opened StripeIntegration
  import opened PayPayIntegration

  /** The voucher table after `consumeVoucher(p)`: the voucher the payment
   *  used loses the payment's voucher portion, and becomes USED when that
   *  empties it; without a voucher or a positive portion nothing changes. */
  function ConsumedVouchers(vs: seq<V.GiftVoucher>, p: P.Payment): (ws: seq<V.GiftVoucher>)
    requires p.usedVoucher.Some? ==> p.usedVoucher.value < |vs|
    ensures |ws| == |vs|
    ensures forall j :: 0 <= j < |vs| && p.usedVoucher != Some(j) ==> ws[j] == vs[j]
    ensures (p.usedVoucher.None? || p.voucherAmount <= 0) ==> ws == vs
    ensures (p.usedVoucher.Some? && p.voucherAmount > 0) ==>
              var i := p.usedVoucher.value;
              && ws[i].balance == vs[i].balance - p.voucherAmount
              && (ws[i].status == V.Used <==> ws[i].balance == 0 || vs[i].status == V.Used)
    ensures forall j :: 0 <= j < |vs| ==> ws[j].code == vs[j].code
  {
    if p.usedVoucher.Some? && p.voucherAmount > 0 then
      var i := p.usedVoucher.value;
      vs[i := V.Consume(vs[i], p.voucherAmount)]
    else vs
  }

  /** Confirming a payment twice consumes its voucher twice: a voucher that
   *  paid a whole reservation ends USED below zero. */
  lemma ConsumedTwiceOverdraws(vs: seq<V.GiftVoucher>, p: P.Payment, now: int)
    requires p.usedVoucher.Some? && p.usedVoucher.value < |vs|
    requires V.IsUsable(vs[p.usedVoucher.value], now)
    requires p.voucherAmount == vs[p.usedVoucher.value].balance
    ensures ConsumedVouchers(ConsumedVouchers(vs, p), p)[p.usedVoucher.value].balance == -p.voucherAmount < 0
    ensures ConsumedVouchers(ConsumedVouchers(vs, p), p)[p.usedVoucher.value].status == V.Used
  {
    V.ReplayedConsumeOverdraws(vs[p.usedVoucher.value], now);
  }

  /** The payment steps of a reservation, over the shared tables and the two
   *  gateway services. */
  class PaymentService {
    const db: Database
    const stripe: StripeService
    const paypay: PayPayService

    constructor (db: Database, stripe: StripeService, paypay: PayPayService)
      requires stripe.db == db && paypay.db == db
      ensures this.db == db && this.stripe == stripe && this.paypay == paypay
      ensures Wired()
    {
      this.db := db;
      this.stripe := stripe;
      this.paypay := paypay;
    }

    /** The gateway services work on the same tables. */
    predicate Wired()
    {
      stripe.db == db && paypay.db == db
    }

    /** The payment `createPayment` saves when none of its checks fails: the
     *  voucher (if any) covers `min(balance, total)`, the rest is charged,
     *  and a bank transfer carries its deadline. */
    function Draft(rid: Id, m: PaymentMethod, voucherId: Option<Id>, now: int): (p: P.Payment)
      reads db
      requires rid < |db.reservations| && db.reservations[rid].eventId in db.events
      requires voucherId.Some? ==> voucherId.value < |db.vouchers|
      ensures p.reservationId == rid && p.paymentMethod == m && p.usedVoucher == voucherId
      ensures p.status == P.Pending && p.refundedAmount == 0 && p.paidAt.None?
      ensures p.amount + p.voucherAmount == db.reservations[rid].totalPrice
      ensures voucherId.None? ==> p.voucherAmount == 0
      ensures voucherId.Some? ==>
                && p.voucherAmount == Min(db.vouchers[voucherId.value].balance, db.reservations[rid].totalPrice)
                && p.amount >= 0
      ensures p.transferDeadline.Some? <==> m == BankTransfer
      ensures m == BankTransfer ==>
                p.transferDeadline == Some(P.TransferDeadline(now, db.events[db.reservations[rid].eventId].eventDate))
    {
      var total := db.reservations[rid].totalPrice;
      var share := if voucherId.Some? then P.VoucherShare(db.vouchers[voucherId.value].balance, total) else 0;
      var p := P.NewPayment(rid, m, total, voucherId, share);
      if m == BankTransfer then
        p.(transferDeadline := Some(P.TransferDeadline(now, db.events[db.reservations[rid].eventId].eventDate)))
      else p
    }

    /** The first of `createPayment`'s checks that fails, in the code's
     *  order, or none: a missing voucher, an unusable or foreign voucher, a
     *  bank transfer too close to the event, a second payment. */
    ghost function CreateRefusal(rid: Id, m: PaymentMethod, voucherId: Option<Id>, now: int): Option<Error>
      reads db
      requires db.Valid() && rid < |db.reservations|
    {
      if voucherId.Some? && voucherId.value >= |db.vouchers| then Some(NotFound)
      else if voucherId.Some? &&
              (!V.IsUsable(db.vouchers[voucherId.value], now) ||
               db.vouchers[voucherId.value].owner != Some(db.reservations[rid].user)) then Some(VoucherNotUsable)
      else if m == BankTransfer && !P.BankTransferAllowed(now, db.events[db.reservations[rid].eventId].eventDate)
      then Some(BankTransferUnavailable)
      else if db.PaymentFor(rid).Some? then Some(DuplicateKey)
      else None
    }

    /** Whether the payment step of an `initiate*` call goes through: the
     *  reservation exists and either has a payment or may get one. */
    ghost predicate Preparable(rid: Id, m: PaymentMethod, voucherId: Option<Id>, now: int)
      reads db
      requires db.Valid()
    {
      rid < |db.reservations| && (db.PaymentFor(rid).Some? || CreateRefusal(rid, m, voucherId, now).None?)
    }

    /** The payment table once `findByReservationId(..).orElseGet(createPayment)`
     *  has succeeded: the existing payment, or the draft appended. */
    ghost function Prepared(rid: Id, m: PaymentMethod, voucherId: Option<Id>, now: int): seq<P.Payment>
      reads db
      requires db.Valid() && rid < |db.reservations|
      requires db.PaymentFor(rid).None? && voucherId.Some? ==> voucherId.value < |db.vouchers|
    {
      if db.PaymentFor(rid).Some? then db.payments else db.payments + [Draft(rid, m, voucherId, now)]
    }

    /** The id of the payment `Prepared` provides. */
    ghost function PreparedId(rid: Id): Id
      reads db
    {
      if db.PaymentFor(rid).Some? then db.PaymentFor(rid).value else |db.payments|
    }

    /** `createPayment(reservation, method, voucherId)`.  The voucher must
     *  exist, be usable and belong to the reservation's user; a bank transfer
     *  must leave the payer a day; a reservation has one payment. */
    method CreatePayment(rid: Id, m: PaymentMethod, voucherId: Option<Id>, now: int) returns (r: Result<Id>)
      requires db.Valid() && rid < |db.reservations|
      modifies db
      ensures db.Valid()
      ensures voucherId.Some? && voucherId.value >= |old(db.vouchers)| ==> r == Err(NotFound)
      ensures (voucherId.Some? && voucherId.value < |old(db.vouchers)| &&
               (!V.IsUsable(old(db.vouchers[voucherId.value]), now) ||
                old(db.vouchers[voucherId.value]).owner != Some(old(db.reservations[rid]).user))) ==>
                r == Err(VoucherNotUsable)
      ensures r.Ok? <==>
                && (voucherId.Some? ==>
                      && voucherId.value < |old(db.vouchers)|
                      && V.IsUsable(old(db.vouchers[voucherId.value]), now)
                      && old(db.vouchers[voucherId.value]).owner == Some(old(db.reservations[rid]).user))
                && (m == BankTransfer ==>
                      P.BankTransferAllowed(now, old(db.events[db.reservations[rid].eventId]).eventDate))
                && old(db.PaymentFor(rid)).None?
      ensures r.Err? ==> unchanged(db)
      ensures r.Err? ==> r.error in {NotFound, VoucherNotUsable, BankTransferUnavailable, DuplicateKey}
      ensures r.Ok? <==> old(CreateRefusal(rid, m, voucherId, now)).None?
      ensures r.Err? ==> old(CreateRefusal(rid, m, voucherId, now)) == Some(r.error)
      ensures r.Ok? ==>
                && r.value == |old(db.payments)|
                && db.payments == old(db.payments) + [old(Draft(rid, m, voucherId, now))]
      ensures db.events == old(db.events) && db.reservations == old(db.reservations)
      ensures db.vouchers == old(db.vouchers) && db.participants == old(db.participants)
      ensures db.nextParticipantId == old(db.nextParticipantId)
    {
      var res := db.reservations[rid];
      if voucherId.Some? {
        if voucherId.value >= |db.vouchers| {
          return Err(NotFound);
        }
        var v := db.vouchers[voucherId.value];
        if !V.IsUsable(v, now) {
          return Err(VoucherNotUsable);
        }
        if v.owner.None? || v.owner.value != res.user {
          return Err(VoucherNotUsable);
        }
      }
      var p := Draft(rid, m, voucherId, now);
      if m == BankTransfer && !P.BankTransferAllowed(now, db.events[res.eventId].eventDate) {
        return Err(BankTransferUnavailable);
      }
      if db.PaymentFor(rid).Some? {
        return Err(DuplicateKey);
      }
      r := Ok(|db.payments|);
      db.payments := db.payments + [p];
    }

    /** `consumeVoucher`: take the payment's voucher portion off its voucher. */
    method ConsumeVoucher(pid: Id)
      requires db.Valid() && pid < |db.payments|
      modifies db
      ensures db.Valid()
      ensures db.vouchers == ConsumedVouchers(old(db.vouchers), old(db.payments[pid]))
      ensures db.events == old(db.events) && db.reservations == old(db.reservations)
      ensures db.payments == old(db.payments) && db.participants == old(db.participants)
      ensures db.nextParticipantId == old(db.nextParticipantId)
    {
      db.vouchers := ConsumedVouchers(db.vouchers, db.payments[pid]);
    }

    /** The settlement the zero-charge paths and the confirmations share:
     *  consume the voucher, mark the payment COMPLETED, confirm the
     *  reservation. */
    method Settle(pid: Id, now: int)
      requires db.Valid() && pid < |db.payments|
      modifies db
      ensures db.Valid()
      ensures db.vouchers == ConsumedVouchers(old(db.vouchers), old(db.payments[pid]))
      ensures db.payments == old(db.payments)[pid := P.MarkPaid(old(db.payments[pid]), now)]
      ensures var rid := old(db.payments[pid]).reservationId;
              db.reservations == old(db.reservations)[rid := old(db.reservations[rid]).(status := R.Confirmed)]
      ensures old(db.SeatsBalanced()) && old(db.reservations[db.payments[pid].reservationId]).status != R.Cancelled ==>
                db.SeatsBalanced()
      ensures old(db.RosterWithinLimits()) ==> db.RosterWithinLimits()
      ensures db.events == old(db.events) && db.participants == old(db.participants)
      ensures db.nextParticipantId == old(db.nextParticipantId)
    {
      ConsumeVoucher(pid);
      var p := db.payments[pid];
      db.payments := db.payments[pid := P.MarkPaid(p, now)];
      db.SetReservationStatus(p.reservationId, R.Confirmed);
    }

    /** `confirmReservationPayment`: the reservation becomes CONFIRMED,
     *  whatever its status was. */
    method ConfirmReservationPayment(rid: Id) returns (r: Result<()>)
      requires db.Valid()
      modifies db
      ensures db.Valid()
      ensures r.Err? <==> rid >= |old(db.reservations)|
      ensures r.Err? ==> r.error == NotFound && unchanged(db)
      ensures r.Ok? ==>
                db.reservations == old(db.reservations)[rid := old(db.reservations[rid]).(status := R.Confirmed)]
      ensures old(db.SeatsBalanced()) && (r.Ok? ==> old(db.reservations[rid]).status != R.Cancelled) ==>
                db.SeatsBalanced()
      ensures old(db.RosterWithinLimits()) ==> db.RosterWithinLimits()
      ensures db.events == old(db.events) && db.payments == old(db.payments)
      ensures db.vouchers == old(db.vouchers) && db.participants == old(db.participants)
      ensures db.nextParticipantId == old(db.nextParticipantId)
    {
      if rid >= |db.reservations| {
        return Err(NotFound);
      }
      db.SetReservationStatus(rid, R.Confirmed);
      r := Ok(());
    }

    /** Finds the reservation's payment or creates one; the shared first step
     *  of the three `initiate*` methods. */
    method Prepare(rid: Id, m: PaymentMethod, voucherId: Option<Id>, now: int) returns (r: Result<Id>)
      requires db.Valid() && rid < |db.reservations|
      modifies db
      ensures db.Valid()
      ensures old(db.PaymentFor(rid)).Some? ==> r == Ok(old(db.PaymentFor(rid)).value) && unchanged(db)
      ensures r.Err? ==> unchanged(db)
      ensures r.Ok? <==> old(Preparable(rid, m, voucherId, now))
      ensures r.Err? ==> old(db.PaymentFor(rid)).None? && old(CreateRefusal(rid, m, voucherId, now)) == Some(r.error)
      ensures r.Ok? ==> old(db.PaymentFor(rid)).None? && voucherId.Some? ==> voucherId.value < |old(db.vouchers)|
      ensures r.Ok? ==>
                && r.value == old(PreparedId(rid)) < |db.payments|
                && db.payments == old(Prepared(rid, m, voucherId, now))
                && db.payments[r.value].reservationId == rid
      ensures db.events == old(db.events) && db.reservations == old(db.reservations)
      ensures db.vouchers == old(db.vouchers) && db.participants == old(db.participants)
      ensures db.nextParticipantId == old(db.nextParticipantId)
    {
      var existing := db.PaymentFor(rid);
      if existing.Some? {
        return Ok(existing.value);
      }
      r := CreatePayment(rid, m, voucherId, now);
    }

    /** `initiateStripePayment`: with nothing left to charge, settle at once
     *  and return no URL; otherwise open a Checkout Session.  A missing
     *  secret key is a runtime failure and undoes the whole call, including
     *  a payment it created; a gateway failure is a checked exception and
     *  leaves that payment in place. */
    method InitiateStripePayment(rid: Id, voucherId: Option<Id>, now: int, api: P.StripeApi)
      returns (r: Result<Option<string>>)
      requires db.Valid() && Wired()
      modifies db
      ensures db.Valid()
      ensures rid >= |old(db.reservations)| ==> r == Err(NotFound)
      ensures rid < |old(db.reservations)| && old(db.PaymentFor(rid)).None? &&
              old(CreateRefusal(rid, Stripe, voucherId, now)).Some? ==>
                r == Err(old(CreateRefusal(rid, Stripe, voucherId, now)).value)
      ensures r.Ok? <==>
                && old(Preparable(rid, Stripe, voucherId, now))
                && var pays := old(Prepared(rid, Stripe, voucherId, now));
                   var pid := old(PreparedId(rid));
                   pid < |pays| &&
                   (pays[pid].amount == 0 ||
                    (stripe.IsConfigured() && api.createSession(P.PaymentCheckout(pays[pid], pid)).Replied?))
      ensures r.Err? && r.error != GatewayFailure ==>
                db.payments == old(db.payments) && db.vouchers == old(db.vouchers) && db.reservations == old(db.reservations)
      ensures r.Ok? || r == Err(GatewayFailure) ==> rid < |old(db.reservations)|
      ensures r.Ok? || r == Err(GatewayFailure) ==>
                old(db.PaymentFor(rid)).None? && voucherId.Some? ==> voucherId.value < |old(db.vouchers)|
      ensures r == Err(GatewayFailure) ==>
                && stripe.IsConfigured()
                && db.payments == old(Prepared(rid, Stripe, voucherId, now))
                && db.vouchers == old(db.vouchers) && db.reservations == old(db.reservations)
      ensures r.Ok? ==>
                var pays := old(Prepared(rid, Stripe, voucherId, now));
                var pid := old(PreparedId(rid));
                pid < |pays| && pays[pid].reservationId == rid
      ensures r.Ok? && r.value.None? ==>
                var pays := old(Prepared(rid, Stripe, voucherId, now));
                var pid := old(PreparedId(rid));
                && pays[pid].amount == 0
                && db.payments == pays[pid := P.MarkPaid(pays[pid], now)]
                && db.vouchers == ConsumedVouchers(old(db.vouchers), pays[pid])
                && db.reservations == old(db.reservations)[rid := old(db.reservations[rid]).(status := R.Confirmed)]
      ensures r.Ok? && r.value.Some? ==>
                var pays := old(Prepared(rid, Stripe, voucherId, now));
                var pid := old(PreparedId(rid));
                var session := api.createSession(P.PaymentCheckout(pays[pid], pid));
                && pays[pid].amount != 0
                && stripe.IsConfigured() && session.Replied? && r.value.value == session.reply.url
                && db.payments == pays[pid := pays[pid].(stripeCheckoutSessionId := Some(session.reply.id))]
                && db.vouchers == old(db.vouchers) && db.reservations == old(db.reservations)
      ensures db.events == old(db.events) && db.participants == old(db.participants)
      ensures db.nextParticipantId == old(db.nextParticipantId)
    {
      if rid >= |db.reservations| {
        return Err(NotFound);
      }
      var before := db.payments;
      var prepared := Prepare(rid, Stripe, voucherId, now);
      if prepared.Err? {
        return Err(prepared.error);
      }
      var pid := prepared.value;
      if db.payments[pid].amount == 0 {
        Settle(pid, now);
        return Ok(None);
      }
      var session := stripe.CreateCheckoutSession(pid, api);
      if session.Err? {
        if session.error == NotConfigured {
          assert db.payments[..|before|] == before;
          db.RollBackPayments(|before|);
        }
        return Err(session.error);
      }
      r := Ok(Some(session.value));
    }

    /** `initiatePayPayPayment`: as for Stripe, but the link is the mock
     *  PayPay page and cannot fail. */
    method InitiatePayPayPayment(rid: Id, voucherId: Option<Id>, now: int, uuid: string)
      returns (r: Result<Option<string>>)
      requires db.Valid() && Wired()
      modifies db
      ensures db.Valid()
      ensures rid >= |old(db.reservations)| ==> r == Err(NotFound)
      ensures r.Ok? <==> old(Preparable(rid, PayPay, voucherId, now))
      ensures r.Err? && rid < |old(db.reservations)| ==>
                old(db.PaymentFor(rid)).None? && old(CreateRefusal(rid, PayPay, voucherId, now)) == Some(r.error)
      ensures r.Err? ==> unchanged(db)
      ensures r.Ok? ==> rid < |old(db.reservations)|
      ensures r.Ok? ==> old(db.PaymentFor(rid)).None? && voucherId.Some? ==> voucherId.value < |old(db.vouchers)|
      ensures r.Ok? ==>
                var pays := old(Prepared(rid, PayPay, voucherId, now));
                var pid := old(PreparedId(rid));
                pid < |pays| && pays[pid].reservationId == rid
      ensures r.Ok? && r.value.None? ==>
                var pays := old(Prepared(rid, PayPay, voucherId, now));
                var pid := old(PreparedId(rid));
                && pays[pid].amount == 0
                && db.payments == pays[pid := P.MarkPaid(pays[pid], now)]
                && db.vouchers == ConsumedVouchers(old(db.vouchers), pays[pid])
                && db.reservations == old(db.reservations)[rid := old(db.reservations[rid]).(status := R.Confirmed)]
      ensures r.Ok? && r.value.Some? ==>
                var pays := old(Prepared(rid, PayPay, voucherId, now));
                var pid := old(PreparedId(rid));
                && pays[pid].amount != 0
                && r.value.value == MockPaymentUrl(paypay.frontendUrl, pid, pays[pid].amount)
                && db.payments == pays[pid := pays[pid].(paypayPaymentId := Some(PayPayId(uuid)))]
                && db.vouchers == old(db.vouchers) && db.reservations == old(db.reservations)
      ensures db.events == old(db.events) && db.participants == old(db.participants)
      ensures db.nextParticipantId == old(db.nextParticipantId)
    {
      if rid >= |db.reservations| {
        return Err(NotFound);
      }
      var prepared := Prepare(rid, PayPay, voucherId, now);
      if prepared.Err? {
        return Err(prepared.error);
      }
      var pid := prepared.value;
      if db.payments[pid].amount == 0 {
        Settle(pid, now);
        return Ok(None);
      }
      var url := paypay.CreatePaymentLink(pid, uuid);
      r := Ok(Some(url));
    }

    /** `initiateBankTransfer`: settle a zero charge at once; otherwise the
     *  reservation waits for the transfer. */
    method InitiateBankTransfer(rid: Id, voucherId: Option<Id>, now: int) returns (r: Result<Id>)
      requires db.Valid()
      modifies db
      ensures db.Valid()
      ensures rid >= |old(db.reservations)| ==> r == Err(NotFound)
      ensures r.Ok? <==> old(Preparable(rid, BankTransfer, voucherId, now))
      ensures r.Err? && rid < |old(db.reservations)| ==>
                old(db.PaymentFor(rid)).None? && old(CreateRefusal(rid, BankTransfer, voucherId, now)) == Some(r.error)
      ensures r.Err? ==> unchanged(db)
      ensures r.Ok? ==> rid < |old(db.reservations)|
      ensures r.Ok? ==> old(db.PaymentFor(rid)).None? && voucherId.Some? ==> voucherId.value < |old(db.vouchers)|
      ensures r.Ok? ==>
                var pays := old(Prepared(rid, BankTransfer, voucherId, now));
                r.value == old(PreparedId(rid)) < |pays| && pays[r.value].reservationId == rid
      ensures r.Ok? ==>
                var pays := old(Prepared(rid, BankTransfer, voucherId, now));
                pays[r.value].amount == 0 ==>
                  && db.payments == pays[r.value := P.MarkPaid(pays[r.value], now)]
                  && db.vouchers == ConsumedVouchers(old(db.vouchers), pays[r.value])
                  && db.reservations == old(db.reservations)[rid := old(db.reservations[rid]).(status := R.Confirmed)]
      ensures r.Ok? ==>
                var pays := old(Prepared(rid, BankTransfer, voucherId, now));
                pays[r.value].amount != 0 ==>
                  && db.payments == pays
                  && db.vouchers == old(db.vouchers)
                  && db.reservations == old(db.reservations)[rid := old(db.reservations[rid]).(status := R.AwaitingTransfer)]
      ensures old(db.SeatsBalanced()) && (rid < |old(db.reservations)| ==> old(db.reservations[rid]).status != R.Cancelled) ==>
                db.SeatsBalanced()
      ensures old(db.RosterWithinLimits()) ==> db.RosterWithinLimits()
      ensures db.events == old(db.events) && db.participants == old(db.participants)
      ensures db.nextParticipantId == old(db.nextParticipantId)
    {
      if rid >= |db.reservations| {
        return Err(NotFound);
      }
      var prepared := Prepare(rid, BankTransfer, voucherId, now);
      if prepared.Err? {
        return Err(prepared.error);
      }
      var pid := prepared.value;
      if db.payments[pid].amount == 0 {
        Settle(pid, now);
        return Ok(pid);
      }
      db.SetReservationStatus(rid, R.AwaitingTransfer);
      r := Ok(pid);
    }

    /** `confirmBankTransfer` and `completePayPayPayment`: only for a payment of
     *  the named method; then consume, complete and confirm, with no check
     *  that this has not happened before. */
    method ConfirmWith(pid: Id, m: PaymentMethod, now: int) returns (r: Result<Id>)
      requires db.Valid()
      modifies db
      ensures db.Valid()
      ensures pid >= |old(db.payments)| ==> r == Err(NotFound)
      ensures pid < |old(db.payments)| && old(db.payments[pid]).paymentMethod != m ==> r == Err(WrongPaymentMethod)
      ensures r.Err? ==> unchanged(db)
      ensures r.Ok? <==> pid < |old(db.payments)| && old(db.payments[pid]).paymentMethod == m
      ensures r.Ok? ==>
                var p := old(db.payments[pid]);
                && r.value == pid
                && db.vouchers == ConsumedVouchers(old(db.vouchers), p)
                && db.payments == old(db.payments)[pid := P.MarkPaid(p, now)]
                && db.reservations == old(db.reservations)[p.reservationId :=
                     old(db.reservations[p.reservationId]).(status := R.Confirmed)]
      ensures old(db.SeatsBalanced()) &&
              (r.Ok? ==> old(db.reservations[db.payments[pid].reservationId]).status != R.Cancelled) ==>
                db.SeatsBalanced()
      ensures old(db.RosterWithinLimits()) ==> db.RosterWithinLimits()
      ensures db.events == old(db.events) && db.participants == old(db.participants)
      ensures db.nextParticipantId == old(db.nextParticipantId)
    {
      if pid >= |db.payments| {
        return Err(NotFound);
      }
      if db.payments[pid].paymentMethod != m {
        return Err(WrongPaymentMethod);
      }
      Settle(pid, now);
      r := Ok(pid);
    }

    method ConfirmBankTransfer(pid: Id, now: int) returns (r: Result<Id>)
      requires db.Valid()
      modifies db
      ensures db.Valid()
      ensures r.Ok? <==> pid < |old(db.payments)| && old(db.payments[pid]).paymentMethod == BankTransfer
      ensures r.Err? ==> unchanged(db)
      ensures r.Ok? ==>
                var p := old(db.payments[pid]);
                && db.vouchers == ConsumedVouchers(old(db.vouchers), p)
                && db.payments == old(db.payments)[pid := P.MarkPaid(p, now)]
                && db.reservations == old(db.reservations)[p.reservationId :=
                     old(db.reservations[p.reservationId]).(status := R.Confirmed)]
      ensures db.events == old(db.events) && db.participants == old(db.participants)
      ensures db.nextParticipantId == old(db.nextParticipantId)
    {
      r := ConfirmWith(pid, BankTransfer, now);
    }

    method CompletePayPayPayment(pid: Id, now: int) returns (r: Result<Id>)
      requires db.Valid()
      modifies db
      ensures db.Valid()
      ensures r.Ok? <==> pid < |old(db.payments)| && old(db.payments[pid]).paymentMethod == PayPay
      ensures r.Err? ==> unchanged(db)
      ensures r.Ok? ==>
                var p := old(db.payments[pid]);
                && db.vouchers == ConsumedVouchers(old(db.vouchers), p)
                && db.payments == old(db.payments)[pid := P.MarkPaid(p, now)]
                && db.reservations == old(db.reservations)[p.reservationId :=
                     old(db.reservations[p.reservationId]).(status := R.Confirmed)]
      ensures db.events == old(db.events) && db.participants == old(db.participants)
      ensures db.nextParticipantId == old(db.nextParticipantId)
    {
      r := ConfirmWith(pid, PayPay, now);
    }

    /** Whether `processRefund` goes through: the reservation has a COMPLETED
     *  payment and, for a positive card refund, a payment intent the gateway
     *  accepts a refund on. */
    ghost predicate RefundGoesThrough(rid: Id, now: int, api: P.StripeApi)
      reads db
      requires db.Valid()
    {
      && rid < |db.reservations|
      && db.PaymentFor(rid).Some?
      && var p := db.payments[db.PaymentFor(rid).value];
         var refund := P.RefundAmount(p.amount, now, db.events[db.reservations[rid].eventId].eventDate);
         && p.status == P.Completed
         && (refund > 0 && p.paymentMethod == Stripe ==>
               && p.stripePaymentIntentId.Some?
               && api.createRefund(P.RefundRequest(p.stripePaymentIntentId.value, refund)).Replied?)
    }

    /** `processRefund`: only a COMPLETED payment is refunded, by the policy
     *  tier of the time left before the event; a zero refund changes nothing,
     *  card and PayPay refunds add to the running total, a bank-transfer
     *  refund overwrites it. */
    method ProcessRefund(rid: Id, now: int, api: P.StripeApi) returns (r: Result<()>)
      requires db.Valid() && Wired()
      modifies db
      ensures db.Valid()
      ensures rid >= |old(db.reservations)| ==> r == Err(NotFound)
      ensures rid < |old(db.reservations)| && old(db.PaymentFor(rid)).None? ==> r == Err(NotFound)
      ensures rid < |old(db.reservations)| && old(db.PaymentFor(rid)).Some? &&
              old(db.payments[db.PaymentFor(rid).value]).status != P.Completed ==>
                r == Err(PaymentNotCompleted)
      ensures r.Ok? <==> old(RefundGoesThrough(rid, now, api))
      ensures r.Err? ==> unchanged(db)
      ensures r.Ok? ==> rid < |old(db.reservations)| && old(db.PaymentFor(rid)).Some?
      ensures r.Ok? ==>
                var pid := old(db.PaymentFor(rid)).value;
                var p := old(db.payments[pid]);
                var refund := P.RefundAmount(p.amount, now, old(db.events[db.reservations[rid].eventId]).eventDate);
                && p.status == P.Completed
                && (refund > 0 && p.paymentMethod == Stripe ==>
                      && p.stripePaymentIntentId.Some?
                      && api.createRefund(P.RefundRequest(p.stripePaymentIntentId.value, refund)).Replied?)
                && db.payments == old(db.payments)[pid := P.RefundEffect(p, refund, now)]
      ensures db.events == old(db.events) && db.reservations == old(db.reservations)
      ensures db.vouchers == old(db.vouchers) && db.participants == old(db.participants)
      ensures db.nextParticipantId == old(db.nextParticipantId)
    {
      if rid >= |db.reservations| {
        return Err(NotFound);
      }
      var found := db.PaymentFor(rid);
      if found.None? {
        return Err(NotFound);
      }
      var pid := found.value;
      var p := db.payments[pid];
      if p.status != P.Completed {
        return Err(PaymentNotCompleted);
      }
      var refund := P.RefundAmount(p.amount, now, db.events[db.reservations[rid].eventId].eventDate);
      if refund <= 0 {
        return Ok(());
      }
      match p.paymentMethod {
        case Stripe =>
          r := stripe.Refund(pid, refund, api, now);
        case PayPay =>
          paypay.Refund(pid, refund, now);
          r := Ok(());
        case BankTransfer =>
          db.payments := db.payments[pid := P.RecordBankRefund(p, refund, now)];
          r := Ok(());
      }
    }

    /** `handleStripeCheckoutComplete`: after the Stripe service has handled
     *  the session, a COMPLETED payment consumes its voucher and confirms its
     *  reservation, even if it was already COMPLETED before. */
    method HandleStripeCheckoutComplete(sessionId: string, api: P.StripeApi, now: int) returns (r: Result<Id>)
      requires db.Valid() && Wired()
      modifies db
      ensures db.Valid()
      ensures api.retrieveSession(sessionId).GatewayFailed? ==> r == Err(GatewayFailure)
      ensures api.retrieveSession(sessionId).Replied? ==>
                r == (match old(stripe.SessionHolder(sessionId))
                      case Missing => Err(NotFound)
                      case Ambiguous => Err(DuplicateKey)
                      case Unique(i) => Ok(i))
      ensures r.Err? ==> unchanged(db)
      ensures r.Ok? ==> api.retrieveSession(sessionId).Replied? && r.value < |old(db.payments)|
      ensures r.Ok? ==>
                var info := api.retrieveSession(sessionId).reply;
                var p := old(db.payments[r.value]);
                var q := if P.SessionPaid(info) then P.MarkPaid(p, now).(stripePaymentIntentId := info.paymentIntent) else p;
                && p.stripeCheckoutSessionId == Some(sessionId)
                && db.payments == old(db.payments)[r.value := q]
                && (q.status == P.Completed ==>
                      && db.vouchers == ConsumedVouchers(old(db.vouchers), q)
                      && db.reservations == old(db.reservations)[p.reservationId :=
                           old(db.reservations[p.reservationId]).(status := R.Confirmed)])
                && (q.status != P.Completed ==>
                      db.vouchers == old(db.vouchers) && db.reservations == old(db.reservations))
      ensures db.events == old(db.events) && db.participants == old(db.participants)
      ensures db.nextParticipantId == old(db.nextParticipantId)
    {
      r := stripe.HandleCheckoutSessionCompleted(sessionId, api, now);
      if r.Err? {
        return;
      }
      var pid := r.value;
      if db.payments[pid].status == P.Completed {
        ConsumeVoucher(pid);
        var _ := ConfirmReservationPayment(db.payments[pid].reservationId);
      }
    }
  }
}
