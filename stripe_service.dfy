/** StripeService: checkout-session creation, completion of a paid session,
 *  and card refunds.  The Stripe SDK calls are the functions of a
 *  `StripeApi` value passed in, each of which may fail. */
module StripeIntegration {
  import opened Base
  import P = Payments
  import opened Store

  class StripeService {
    const db: Database
    /** `stripe.secret-key`, empty when not configured. */
    const secretKey: string

    constructor (db: Database, secretKey: string)
      ensures this.db == db && this.secretKey == secretKey
    {
      this.db := db;
      this.secretKey := secretKey;
    }

    predicate IsConfigured()
    {
      |secretKey| > 0
    }

    /** The payment holding a Checkout Session id
     *  (`findByStripeCheckoutSessionId`). */
    function SessionHolder(sessionId: string): (l: Lookup)
      reads db
      ensures l.Unique? ==> l.index < |db.payments| && db.payments[l.index].stripeCheckoutSessionId == Some(sessionId)
      ensures l.Missing? <==>
                forall j :: 0 <= j < |db.payments| ==> db.payments[j].stripeCheckoutSessionId != Some(sessionId)
    {
      FindUnique(db.payments, (p: P.Payment) => p.stripeCheckoutSessionId == Some(sessionId))
    }

    /** `createCheckoutSession`: refuse when no secret key is set; otherwise
     *  ask the gateway for a session charging the payment's amount and, when
     *  it answers, store the session id on the payment. */
    method CreateCheckoutSession(pid: Id, api: P.StripeApi) returns (r: Result<string>)
      requires db.Valid() && pid < |db.payments|
      modifies db
      ensures db.Valid()
      ensures !IsConfigured() ==> r == Err(NotConfigured) && unchanged(db)
      ensures r.Err? ==> r.error == (if IsConfigured() then GatewayFailure else NotConfigured)
      ensures r.Ok? <==> IsConfigured() && api.createSession(P.PaymentCheckout(old(db.payments[pid]), pid)).Replied?
      ensures IsConfigured() && api.createSession(P.PaymentCheckout(old(db.payments[pid]), pid)).GatewayFailed? ==>
                r == Err(GatewayFailure) && unchanged(db)
      ensures r.Ok? ==>
                var session := api.createSession(P.PaymentCheckout(old(db.payments[pid]), pid));
                IsConfigured() && session.Replied? && r.value == session.reply.url
                && db.payments == old(db.payments)[pid := old(db.payments[pid]).(stripeCheckoutSessionId := Some(session.reply.id))]
      ensures r.Ok? || unchanged(db)
      ensures db.events == old(db.events) && db.reservations == old(db.reservations)
      ensures db.vouchers == old(db.vouchers) && db.participants == old(db.participants)
      ensures db.nextParticipantId == old(db.nextParticipantId)
    {
      if !IsConfigured() {
        return Err(NotConfigured);
      }
      var p := db.payments[pid];
      var reply := api.createSession(P.PaymentCheckout(p, pid));
      if reply.GatewayFailed? {
        return Err(GatewayFailure);
      }
      db.payments := db.payments[pid := p.(stripeCheckoutSessionId := Some(reply.reply.id))];
      r := Ok(reply.reply.url);
    }

    /** `handleCheckoutSessionCompleted`: retrieve the session first, then
     *  find the payment holding its id; a complete and paid session marks the
     *  payment COMPLETED and records the payment intent, any other session
     *  leaves it as it was. */
    method HandleCheckoutSessionCompleted(sessionId: string, api: P.StripeApi, now: int) returns (r: Result<Id>)
      requires db.Valid()
      modifies db
      ensures db.Valid()
      ensures api.retrieveSession(sessionId).GatewayFailed? ==> r == Err(GatewayFailure)
      ensures api.retrieveSession(sessionId).Replied? &&
                (forall j :: 0 <= j < |old(db.payments)| ==> old(db.payments[j]).stripeCheckoutSessionId != Some(sessionId)) ==>
                r == Err(NotFound)
      ensures api.retrieveSession(sessionId).Replied? ==>
                r == (match old(SessionHolder(sessionId))
                      case Missing => Err(NotFound)
                      case Ambiguous => Err(DuplicateKey)
                      case Unique(i) => Ok(i))
      ensures r.Err? ==> unchanged(db)
      ensures r.Ok? ==> api.retrieveSession(sessionId).Replied? && r.value < |old(db.payments)|
      ensures r.Ok? ==>
                var info := api.retrieveSession(sessionId).reply;
                var p := old(db.payments[r.value]);
                && p.stripeCheckoutSessionId == Some(sessionId)
                && (forall j :: 0 <= j < |old(db.payments)| && j != r.value ==>
                      old(db.payments[j]).stripeCheckoutSessionId != Some(sessionId))
                && db.payments == old(db.payments)[r.value :=
                     if P.SessionPaid(info)
                     then P.MarkPaid(p, now).(stripePaymentIntentId := info.paymentIntent)
                     else p]
      ensures db.events == old(db.events) && db.reservations == old(db.reservations)
      ensures db.vouchers == old(db.vouchers) && db.participants == old(db.participants)
      ensures db.nextParticipantId == old(db.nextParticipantId)
    {
      var reply := api.retrieveSession(sessionId);
      if reply.GatewayFailed? {
        return Err(GatewayFailure);
      }
      var info := reply.reply;
      var found := SessionHolder(sessionId);
      if found.Missing? {
        return Err(NotFound);
      } else if found.Ambiguous? {
        return Err(DuplicateKey);
      }
      var pid := found.index;
      if P.SessionPaid(info) {
        var p := db.payments[pid];
        db.payments := db.payments[pid := P.MarkPaid(p, now).(stripePaymentIntentId := info.paymentIntent)];
      }
      r := Ok(pid);
    }

    /** `refund`: needs the payment intent; the gateway refund is requested
     *  before any local change, so its failure leaves the payment as it was;
     *  after it, the refund is added to the running total. */
    method Refund(pid: Id, refund: int, api: P.StripeApi, now: int) returns (r: Result<()>)
      requires db.Valid() && pid < |db.payments|
      modifies db
      ensures db.Valid()
      ensures old(db.payments[pid]).stripePaymentIntentId.None? ==> r == Err(NoPaymentIntent)
      ensures old(db.payments[pid]).stripePaymentIntentId.Some? &&
                api.createRefund(P.RefundRequest(old(db.payments[pid]).stripePaymentIntentId.value, refund)).GatewayFailed? ==>
                r == Err(GatewayFailure)
      ensures r.Ok? <==>
                && old(db.payments[pid]).stripePaymentIntentId.Some?
                && api.createRefund(P.RefundRequest(old(db.payments[pid]).stripePaymentIntentId.value, refund)).Replied?
      ensures r.Err? ==> unchanged(db)
      ensures r.Ok? ==>
                && old(db.payments[pid]).stripePaymentIntentId.Some?
                && api.createRefund(P.RefundRequest(old(db.payments[pid]).stripePaymentIntentId.value, refund)).Replied?
                && db.payments == old(db.payments)[pid := P.RecordRefund(old(db.payments[pid]), refund, now)]
      ensures db.events == old(db.events) && db.reservations == old(db.reservations)
      ensures db.vouchers == old(db.vouchers) && db.participants == old(db.participants)
      ensures db.nextParticipantId == old(db.nextParticipantId)
    {
      var p := db.payments[pid];
      if p.stripePaymentIntentId.None? {
        return Err(NoPaymentIntent);
      }
      var reply := api.createRefund(P.RefundRequest(p.stripePaymentIntentId.value, refund));
      if reply.GatewayFailed? {
        return Err(GatewayFailure);
      }
      db.payments := db.payments[pid := P.RecordRefund(p, refund, now)];
      r := Ok(());
    }
  }
}
