/** The Payment entity and the pure rules of PaymentService: the charge /
 *  voucher split, the bank-transfer deadline, the refund tiers and the two
 *  ways a refund is recorded; plus the shapes exchanged with the Stripe
 *  gateway. */
module Payments {
  import opened Base

  datatype PaymentStatus = Pending | Completed | Failed | Refunded | PartiallyRefunded | Cancelled

  /** `amount` is what is charged through the gateway; `voucherAmount` is the
   *  part of the reservation's total covered by `usedVoucher`. */
  datatype Payment = Payment(
    reservationId: Id,
    paymentMethod: PaymentMethod,
    status: PaymentStatus,
    amount: int,
    voucherAmount: int,
    usedVoucher: Option<Id>,
    refundedAmount: int,
    stripePaymentIntentId: Option<string>,
    stripeCheckoutSessionId: Option<string>,
    paypayPaymentId: Option<string>,
    transferDeadline: Option<int>,
    paidAt: Option<int>,
    refundedAt: Option<int>)

  // ---------------------------------------------------------------------
  // Voucher application (createPayment)

  /** `balance.min(totalPrice)`: the part of the total the voucher covers. */
  function VoucherShare(balance: int, total: int): int
  {
    Min(balance, total)
  }

  /** The split adds up to the total, the charge is never negative, the voucher
   *  gives no more than its balance, and either the whole balance is used or
   *  nothing is left to charge. */
  lemma VoucherSplit(balance: int, total: int)
    ensures (total - VoucherShare(balance, total)) + VoucherShare(balance, total) == total
    ensures total - VoucherShare(balance, total) >= 0
    ensures VoucherShare(balance, total) <= balance
    ensures VoucherShare(balance, total) == balance || total - VoucherShare(balance, total) == 0
    ensures balance > 0 && total >= 0 ==> VoucherShare(balance, total) >= 0
  {
  }

  /** The payment `createPayment` builds before the bank-transfer step:
   *  PENDING, nothing refunded, the charge and voucher portion given. */
  function NewPayment(reservationId: Id, paymentMethod: PaymentMethod, total: int, voucher: Option<Id>, share: int): (p: Payment)
    ensures p.amount + p.voucherAmount == total
    ensures p.status == Pending && p.refundedAmount == 0 && p.usedVoucher == voucher
  {
    Payment(reservationId, paymentMethod, Pending, total - share, share, voucher, 0,
            None, None, None, None, None, None)
  }

  // ---------------------------------------------------------------------
  // Bank-transfer deadline

  /** The earlier of seven days from now and three days before the event. */
  function TransferDeadline(now: int, eventDate: int): (d: int)
    ensures d <= now + 7 * MinutesPerDay && d <= eventDate - 3 * MinutesPerDay
    ensures d == now + 7 * MinutesPerDay || d == eventDate - 3 * MinutesPerDay
  {
    var sevenDaysLater := now + 7 * MinutesPerDay;
    var threeDaysBefore := eventDate - 3 * MinutesPerDay;
    if sevenDaysLater < threeDaysBefore then sevenDaysLater else threeDaysBefore
  }

  /** A bank transfer is refused when its deadline falls before tomorrow. */
  predicate BankTransferAllowed(now: int, eventDate: int)
  {
    !(TransferDeadline(now, eventDate) < now + MinutesPerDay)
  }

  /** Bank transfer is offered exactly when the event is at least four days
   *  away, and then the payer has at least a day and the deadline is three
   *  days before the event at the latest. */
  lemma BankTransferAllowedIff(now: int, eventDate: int)
    ensures BankTransferAllowed(now, eventDate) <==> eventDate >= now + 4 * MinutesPerDay
    ensures BankTransferAllowed(now, eventDate) ==>
              now + MinutesPerDay <= TransferDeadline(now, eventDate) <= eventDate - 3 * MinutesPerDay
    ensures eventDate >= now + 10 * MinutesPerDay ==> TransferDeadline(now, eventDate) == now + 7 * MinutesPerDay
  {
  }

  // ---------------------------------------------------------------------
  // Refund policy

  /** `getRefundPercentage`: 100 from four whole days before the event, 50
   *  from one day, otherwise 0. */
  function RefundPercentage(now: int, eventDate: int): (pct: int)
    ensures pct == 0 || pct == 50 || pct == 100
  {
    var days := DaysBetween(now, eventDate);
    if days >= 4 then 100 else if days >= 1 then 50 else 0
  }

  /** `calculateRefundAmount`: the charged amount times the rate 1, 0.5 or 0,
   *  scaled to whole yen with RoundingMode.DOWN. */
  function RefundAmount(amount: int, now: int, eventDate: int): int
  {
    var days := DaysBetween(now, eventDate);
    if days >= 4 then amount
    else if days >= 1 then TruncDiv(amount, 2)
    else 0
  }

  /** The two tier computations agree: the refund is the percentage of the
   *  charge, rounded toward zero. */
  lemma RefundIsPercentage(amount: int, now: int, eventDate: int)
    ensures RefundAmount(amount, now, eventDate) == TruncDiv(amount * RefundPercentage(now, eventDate), 100)
  {
    var pct := RefundPercentage(now, eventDate);
    if pct == 50 {
      var h := TruncDiv(amount, 2);
      var q := TruncDiv(amount * 50, 100);
      if amount >= 0 {
        assert h * 2 <= amount < h * 2 + 2;
        assert q * 100 <= amount * 50 < q * 100 + 100;
      } else {
        assert h * 2 - 2 < amount <= h * 2;
        assert q * 100 - 100 < amount * 50 <= q * 100;
      }
    } else if pct == 100 {
      assert TruncDiv(amount * 100, 100) == amount;
    }
  }

  /** The tiers measured in minutes before the event, and the bounds of the
   *  refund: never more than the charge, never negative for a charge that is
   *  not, and so never any of the voucher portion. */
  lemma RefundTiers(amount: int, now: int, eventDate: int)
    ensures eventDate - now >= 4 * MinutesPerDay ==> RefundAmount(amount, now, eventDate) == amount
    ensures MinutesPerDay <= eventDate - now < 4 * MinutesPerDay ==>
              RefundAmount(amount, now, eventDate) == TruncDiv(amount, 2)
    ensures eventDate - now < MinutesPerDay ==> RefundAmount(amount, now, eventDate) == 0
    ensures amount >= 0 ==> 0 <= RefundAmount(amount, now, eventDate) <= amount
  {
  }

  /** Four days to the minute still earns the full refund; one minute later
   *  only half; one day to the minute still half; one minute later nothing. */
  lemma RefundBoundaries(amount: int, now: int)
    requires amount >= 2
    ensures RefundAmount(amount, now, now + 4 * MinutesPerDay) == amount
    ensures RefundAmount(amount, now, now + 4 * MinutesPerDay - 1) == TruncDiv(amount, 2) < amount
    ensures RefundAmount(amount, now, now + MinutesPerDay) == TruncDiv(amount, 2) > 0
    ensures RefundAmount(amount, now, now + MinutesPerDay - 1) == 0
  {
  }

  /** Refund recorded by the Stripe and PayPay services: added to what was
   *  refunded before, REFUNDED once the running total reaches the charge. */
  function RecordRefund(p: Payment, refund: int, now: int): (r: Payment)
    ensures r.refundedAmount == p.refundedAmount + refund
    ensures r.status == Refunded <==> r.refundedAmount >= p.amount
    ensures r.status == Refunded || r.status == PartiallyRefunded
    ensures r.refundedAt == Some(now)
    ensures r.(refundedAmount := p.refundedAmount, status := p.status, refundedAt := p.refundedAt) == p
  {
    var total := p.refundedAmount + refund;
    p.(refundedAmount := total,
       refundedAt := Some(now),
       status := if total >= p.amount then Refunded else PartiallyRefunded)
  }

  /** Refund recorded for a bank transfer: the amount overwrites any earlier
   *  refund instead of adding to it. */
  function RecordBankRefund(p: Payment, refund: int, now: int): (r: Payment)
    ensures r.refundedAmount == refund
    ensures r.status == Refunded <==> refund >= p.amount
    ensures r.status == Refunded || r.status == PartiallyRefunded
    ensures r.refundedAt == Some(now)
    ensures r.(refundedAmount := p.refundedAmount, status := p.status, refundedAt := p.refundedAt) == p
  {
    p.(refundedAmount := refund,
       refundedAt := Some(now),
       status := if refund >= p.amount then Refunded else PartiallyRefunded)
  }

  /** On a payment never refunded before, the two accountings coincide; after an
   *  earlier refund they differ, the bank transfer forgetting the earlier sum. */
  lemma RefundAccountingsCompared(p: Payment, refund: int, now: int)
    ensures p.refundedAmount == 0 ==> RecordRefund(p, refund, now) == RecordBankRefund(p, refund, now)
    ensures p.refundedAmount != 0 ==>
              RecordRefund(p, refund, now).refundedAmount != RecordBankRefund(p, refund, now).refundedAmount
  {
  }

  /** The effect `processRefund` has on a COMPLETED payment: no refund keeps it
   *  COMPLETED, otherwise the method-specific accounting applies. */
  function RefundEffect(p: Payment, refund: int, now: int): (r: Payment)
    ensures refund <= 0 ==> r == p
    ensures refund > 0 && p.paymentMethod != BankTransfer ==> r == RecordRefund(p, refund, now)
    ensures refund > 0 && p.paymentMethod == BankTransfer ==> r == RecordBankRefund(p, refund, now)
  {
    if refund <= 0 then p
    else if p.paymentMethod == BankTransfer then RecordBankRefund(p, refund, now)
    else RecordRefund(p, refund, now)
  }

  /** Cancelling a first-time refunded, positive charge: the payment ends
   *  REFUNDED exactly when the event is at least four whole days away, and is
   *  left COMPLETED within the last day. */
  lemma FullRefundIffFourDays(p: Payment, now: int, eventDate: int)
    requires p.amount > 0 && p.refundedAmount == 0 && p.status == Completed
    ensures (RefundEffect(p, RefundAmount(p.amount, now, eventDate), now).status == Refunded)
      <==> (eventDate - now >= 4 * MinutesPerDay)
    ensures eventDate - now < MinutesPerDay ==>
              RefundEffect(p, RefundAmount(p.amount, now, eventDate), now).status == Completed
    ensures RefundEffect(p, RefundAmount(p.amount, now, eventDate), now).refundedAmount <= p.amount
  {
    RefundTiers(p.amount, now, eventDate);
  }

  /** Payment received: COMPLETED and stamped. */
  function MarkPaid(p: Payment, now: int): (r: Payment)
    ensures r.status == Completed && r.paidAt == Some(now)
    ensures r.amount == p.amount && r.voucherAmount == p.voucherAmount && r.usedVoucher == p.usedVoucher
  {
    p.(status := Completed, paidAt := Some(now))
  }

  // ---------------------------------------------------------------------
  // The Stripe gateway, abstracted

  /** What `Session.create` is asked for: one line item of `unitAmount` yen
   *  and the metadata that identifies the purchase. */
  datatype CheckoutRequest = CheckoutRequest(
    unitAmount: int, currency: string, quantity: int, metadata: seq<(string, string)>)

  datatype CheckoutSession = CheckoutSession(id: string, url: string)

  /** The fields of a retrieved Checkout Session that the services read. */
  datatype SessionInfo = SessionInfo(status: string, paymentStatus: string, paymentIntent: Option<string>)

  predicate SessionPaid(s: SessionInfo)
  {
    s.status == "complete" && s.paymentStatus == "paid"
  }

  datatype RefundRequest = RefundRequest(paymentIntent: string, amount: int)

  /** Stripe's `Session.create`, `Session.retrieve` and `Refund.create`, each of
   *  which either answers or throws a StripeException. */
  datatype StripeApi = StripeApi(
    createSession: CheckoutRequest -> GatewayReply<CheckoutSession>,
    retrieveSession: string -> GatewayReply<SessionInfo>,
    createRefund: RefundRequest -> GatewayReply<()>)

  /** The checkout of a reservation payment charges exactly the payment's
   *  amount, once, in yen. */
  function PaymentCheckout(p: Payment, paymentId: Id): (r: CheckoutRequest)
    ensures r.unitAmount == p.amount && r.quantity == 1 && r.currency == "jpy"
    ensures r.metadata == [("reservation_id", IntToString(p.reservationId)), ("payment_id", IntToString(paymentId))]
  {
    CheckoutRequest(p.amount, "jpy", 1,
      [("reservation_id", IntToString(p.reservationId)), ("payment_id", IntToString(paymentId))])
  }

  /** The payment the checkout metadata designates is the one it was made for. */
  lemma PaymentCheckoutIdentifies(p: Payment, id: Id, q: Payment, id': Id)
    requires PaymentCheckout(p, id).metadata == PaymentCheckout(q, id').metadata
    ensures id == id' && p.reservationId == q.reservationId
  {
    IntToStringInjective(id, id');
    IntToStringInjective(p.reservationId, q.reservationId);
  }
}
