/** GiftVoucherService: purchase of a voucher, its activation once paid (by
 *  PayPay, by Stripe, or explicitly), redemption of a code by a user and the
 *  spending of a redeemed voucher.  `SecureRandom` draws and UUIDs are
 *  inputs; the Stripe SDK is a `StripeApi` value. */
module GiftVoucherServices {
  import opened Base
  import V = Vouchers
  import P = Payments
  import opened Store
  import PP = PayPayIntegration

  // ---------------------------------------------------------------------
  // Codes

  /** One run of `generateCode`'s draws: sixteen results of `nextInt(32)`. */
  predicate IsDraw(draws: seq<nat>)
  {
    |draws| == V.CODE_LENGTH && forall i :: 0 <= i < |draws| ==> draws[i] < |V.CODE_CHARS|
  }

  /** The code a run of draws spells. */
  function CodeFrom(draws: seq<nat>): (code: string)
    requires IsDraw(draws)
    ensures V.IsVoucherCode(code)
  {
    seq(|draws|, i requires 0 <= i < |draws| => V.CODE_CHARS[draws[i]])
  }

  /** The alphabet has no repeated character, so a code determines the draws
   *  that produced it: every one of the 32^16 draws gives its own code. */
  lemma CodeFromInjective(a: seq<nat>, b: seq<nat>)
    requires IsDraw(a) && IsDraw(b) && CodeFrom(a) == CodeFrom(b)
    ensures a == b
  {
    forall i | 0 <= i < |a|
      ensures a[i] == b[i]
    {
      assert CodeFrom(a)[i] == CodeFrom(b)[i];
      AlphabetDistinct(a[i], b[i]);
    }
  }

  /** The position of an alphabet character: letters skip I and O, digits
   *  skip 0 and 1. */
  function AlphabetPosition(c: char): int
  {
    if 'A' <= c <= 'H' then c as int - 'A' as int
    else if 'J' <= c <= 'N' then c as int - 'A' as int - 1
    else if 'P' <= c <= 'Z' then c as int - 'A' as int - 2
    else c as int - '2' as int + 24
  }

  /** Each alphabet character sits at its position. */
  lemma AlphabetPositioned(k: nat)
    requires k < |V.CODE_CHARS|
    ensures AlphabetPosition(V.CODE_CHARS[k]) == k
  {
  }

  lemma AlphabetDistinct(i: nat, j: nat)
    requires i < |V.CODE_CHARS| && j < |V.CODE_CHARS| && V.CODE_CHARS[i] == V.CODE_CHARS[j]
    ensures i == j
  {
    AlphabetPositioned(i);
    AlphabetPositioned(j);
  }

  /** `generateCode`: append one alphabet character per draw. */
  method GenerateCode(draws: seq<nat>) returns (code: string)
    requires IsDraw(draws)
    ensures code == CodeFrom(draws)
    ensures V.IsVoucherCode(code)
  {
    code := [];
    for i := 0 to V.CODE_LENGTH
      invariant code == CodeFrom(draws)[..i]
    {
      code := code + [V.CODE_CHARS[draws[i]]];
    }
  }

  // ---------------------------------------------------------------------
  // Purchase

  /** The enum constant names of PaymentMethod. */
  function MethodName(m: PaymentMethod): string
  {
    match m
    case Stripe => "STRIPE"
    case PayPay => "PAYPAY"
    case BankTransfer => "BANK_TRANSFER"
  }

  /** `PaymentMethod.valueOf`: the constant of that exact name, if any. */
  function MethodNamed(name: string): (m: Option<PaymentMethod>)
    ensures m.Some? ==> MethodName(m.value) == name
    ensures m.None? ==> forall k: PaymentMethod :: MethodName(k) != name
  {
    if name == "STRIPE" then Some(Stripe)
    else if name == "PAYPAY" then Some(PayPay)
    else if name == "BANK_TRANSFER" then Some(BankTransfer)
    else None
  }

  lemma MethodNameRoundTrip(m: PaymentMethod)
    ensures MethodNamed(MethodName(m)) == Some(m)
  {
  }

  /** The voucher `purchaseGiftVoucher` saves: face value and balance both the
   *  amount paid, PENDING, bought by the caller, valid for a year, with the
   *  chosen method; persisting stamps the creation time and, the balance
   *  being set, keeps it. */
  function PurchasedVoucher(amount: int, purchaser: Id, m: PaymentMethod, now: int): (v: V.GiftVoucher)
    ensures v.amount == amount && v.balance == amount && v.status == V.Pending
    ensures v.purchaser == Some(purchaser) && v.owner.None? && v.code.None?
    ensures v.expiresAt == Some(now + MinutesPerYear) && v.createdAt == now
    ensures v.paymentMethod == Some(m) && v.activatedAt.None? && v.redeemedAt.None?
    ensures v.stripeCheckoutSessionId.None? && v.paypayPaymentId.None?
  {
    var v := V.Fresh(amount, Some(amount), now)
      .(purchaser := Some(purchaser), expiresAt := Some(now + MinutesPerYear), paymentMethod := Some(m));
    V.OnCreate(v, Some(amount), now)
  }

  /** A purchased voucher of positive value, once activated, can be spent
   *  from then on until a year after the purchase, and not after. */
  lemma PurchasedThenActivatedUsable(amount: int, purchaser: Id, m: PaymentMethod, now: int,
                                     code: string, at: int, t: int)
    requires amount > 0 && at <= t
    ensures var a := V.Activate(PurchasedVoucher(amount, purchaser, m, now), code, at);
            V.IsUsable(a, t) <==> t < now + MinutesPerYear
  {
  }

  /** The Checkout Session a voucher purchase asks for: the face value, once,
   *  in yen, tagged as a gift voucher. */
  function VoucherCheckout(v: V.GiftVoucher, vid: Id): (r: P.CheckoutRequest)
    ensures r.unitAmount == v.amount && r.quantity == 1 && r.currency == "jpy"
    ensures r.metadata == [("voucher_id", IntToString(vid)), ("type", "gift_voucher")]
  {
    P.CheckoutRequest(v.amount, "jpy", 1, [("voucher_id", IntToString(vid)), ("type", "gift_voucher")])
  }

  /** A voucher checkout never looks like the checkout of a reservation
   *  payment, so the two kinds of completed session cannot be confused. */
  lemma VoucherCheckoutDistinct(v: V.GiftVoucher, vid: Id, p: P.Payment, pid: Id)
    ensures VoucherCheckout(v, vid).metadata != P.PaymentCheckout(p, pid).metadata
  {
    assert VoucherCheckout(v, vid).metadata[0].0 == "voucher_id";
    assert P.PaymentCheckout(p, pid).metadata[0].0 == "reservation_id";
  }

  /** The mock PayPay page of a voucher purchase. */
  function VoucherMockUrl(frontendUrl: string, vid: Id, amount: int): string
  {
    PP.MockPageUrl(frontendUrl, "/gift-vouchers/paypay/mock?voucher_id=", vid, amount)
  }

  // ---------------------------------------------------------------------
  // The service

  class GiftVoucherService {
    const db: Database
    /** `stripe.secret-key`, empty when unset. */
    const stripeSecretKey: string
    /** `app.frontend-url`. */
    const frontendUrl: string

    constructor (db: Database, stripeSecretKey: string, frontendUrl: string)
      ensures this.db == db && this.stripeSecretKey == stripeSecretKey && this.frontendUrl == frontendUrl
    {
      this.db := db;
      this.stripeSecretKey := stripeSecretKey;
      this.frontendUrl := frontendUrl;
    }

    predicate StripeConfigured()
    {
      |stripeSecretKey| > 0
    }

    /** The retry loop's successive draws are well formed and one of them
     *  spells a code no voucher holds yet, so the loop ends. */
    predicate CanDrawFreeCode(attempts: seq<seq<nat>>)
      reads db
    {
      && (forall k :: 0 <= k < |attempts| ==> IsDraw(attempts[k]))
      && exists k :: 0 <= k < |attempts| && db.CodeFree(CodeFrom(attempts[k]))
    }

    /** The `do { generateCode() } while (findByCode(code).isPresent())` loop:
     *  the first attempt whose code is not taken. */
    method FreshCode(attempts: seq<seq<nat>>) returns (code: string)
      requires CanDrawFreeCode(attempts)
      ensures V.IsVoucherCode(code) && db.CodeFree(code)
      ensures exists k :: 0 <= k < |attempts| && code == CodeFrom(attempts[k]) &&
                forall j :: 0 <= j < k ==> !db.CodeFree(CodeFrom(attempts[j]))
    {
      ghost var w :| 0 <= w < |attempts| && db.CodeFree(CodeFrom(attempts[w]));
      var i := 0;
      code := GenerateCode(attempts[0]);
      while db.VoucherWithCode(code).Some?
        invariant 0 <= i <= w && code == CodeFrom(attempts[i])
        invariant forall j :: 0 <= j < i ==> !db.CodeFree(CodeFrom(attempts[j]))
        decreases w - i
      {
        assert !db.CodeFree(code);
        i := i + 1;
        code := GenerateCode(attempts[i]);
      }
    }

    /** Give voucher `vid` a fresh code and make it ACTIVE. */
    method ActivateWithFreshCode(vid: Id, attempts: seq<seq<nat>>, now: int) returns (code: string)
      requires db.Valid() && vid < |db.vouchers| && CanDrawFreeCode(attempts)
      modifies db
      ensures db.Valid()
      ensures V.IsVoucherCode(code) && old(db.CodeFree(code))
      ensures db.vouchers == old(db.vouchers)[vid := V.Activate(old(db.vouchers[vid]), code, now)]
      ensures db.events == old(db.events) && db.reservations == old(db.reservations)
      ensures db.payments == old(db.payments) && db.participants == old(db.participants)
      ensures db.nextParticipantId == old(db.nextParticipantId)
    {
      code := FreshCode(attempts);
      db.vouchers := db.vouchers[vid := V.Activate(db.vouchers[vid], code, now)];
    }

    /** `purchaseGiftVoucher`.  The method name is parsed before anything is
     *  saved; the voucher is then saved PENDING.  A Stripe purchase without a
     *  secret key and a bank-transfer purchase throw a RuntimeException and
     *  roll the voucher back; a failing `Session.create` is a checked
     *  exception, so the saved voucher stays.  Returns the voucher id and
     *  the payment URL. */
    method PurchaseGiftVoucher(amount: int, purchaser: Id, methodName: string, now: int,
                               uuid: string, api: P.StripeApi) returns (r: Result<(Id, string)>)
      requires db.Valid()
      modifies db
      ensures db.Valid()
      ensures MethodNamed(methodName).None? ==> r == Err(UnknownPaymentMethod)
      ensures MethodNamed(methodName) == Some(BankTransfer) ==> r == Err(UnsupportedPaymentMethod)
      ensures MethodNamed(methodName) == Some(Stripe) && !StripeConfigured() ==> r == Err(NotConfigured)
      ensures r.Err? && r.error != GatewayFailure ==> db.vouchers == old(db.vouchers)
      ensures MethodNamed(methodName) == Some(Stripe) && StripeConfigured() ==>
                var v := PurchasedVoucher(amount, purchaser, Stripe, now);
                var vid := |old(db.vouchers)|;
                var reply := api.createSession(VoucherCheckout(v, vid));
                && (reply.GatewayFailed? ==> r == Err(GatewayFailure) && db.vouchers == old(db.vouchers) + [v])
                && (reply.Replied? ==>
                      r == Ok((vid, reply.reply.url))
                      && db.vouchers == old(db.vouchers) + [v.(stripeCheckoutSessionId := Some(reply.reply.id))])
      ensures MethodNamed(methodName) == Some(PayPay) ==>
                var v := PurchasedVoucher(amount, purchaser, PayPay, now);
                var vid := |old(db.vouchers)|;
                && r == Ok((vid, VoucherMockUrl(frontendUrl, vid, amount)))
                && db.vouchers == old(db.vouchers) + [v.(paypayPaymentId := Some("PAYPAY_GIFT_" + uuid))]
      ensures db.events == old(db.events) && db.reservations == old(db.reservations)
      ensures db.payments == old(db.payments) && db.participants == old(db.participants)
      ensures db.nextParticipantId == old(db.nextParticipantId)
    {
      var m := MethodNamed(methodName);
      if m.None? {
        return Err(UnknownPaymentMethod);
      }
      var v := PurchasedVoucher(amount, purchaser, m.value, now);
      var vid := |db.vouchers|;
      db.SaveVoucher(vid, v);
      match m.value
      case Stripe =>
        if !StripeConfigured() {
          db.RollBackVouchers(vid);
          return Err(NotConfigured);
        }
        var reply := api.createSession(VoucherCheckout(v, vid));
        if reply.GatewayFailed? {
          return Err(GatewayFailure);
        }
        db.SaveVoucher(vid, v.(stripeCheckoutSessionId := Some(reply.reply.id)));
        r := Ok((vid, reply.reply.url));
      case PayPay =>
        db.SaveVoucher(vid, v.(paypayPaymentId := Some("PAYPAY_GIFT_" + uuid)));
        r := Ok((vid, VoucherMockUrl(frontendUrl, vid, amount)));
      case BankTransfer =>
        db.RollBackVouchers(vid);
        r := Err(UnsupportedPaymentMethod);
    }

    /** `activateGiftVoucher`: only a PENDING voucher is activated; it gets a
     *  code no other voucher holds and becomes ACTIVE.  Returns the code. */
    method ActivateGiftVoucher(vid: Id, attempts: seq<seq<nat>>, now: int) returns (r: Result<string>)
      requires db.Valid()
      requires vid < |db.vouchers| && db.vouchers[vid].status == V.Pending ==> CanDrawFreeCode(attempts)
      modifies db
      ensures db.Valid()
      ensures vid >= |old(db.vouchers)| ==> r == Err(NotFound)
      ensures vid < |old(db.vouchers)| && old(db.vouchers[vid]).status != V.Pending ==> r == Err(AlreadyProcessed)
      ensures r.Ok? <==> vid < |old(db.vouchers)| && old(db.vouchers[vid]).status == V.Pending
      ensures r.Err? ==> unchanged(db)
      ensures r.Ok? ==>
                && vid < |old(db.vouchers)| && old(db.vouchers[vid]).status == V.Pending
                && V.IsVoucherCode(r.value) && old(db.CodeFree(r.value))
                && db.vouchers == old(db.vouchers)[vid := V.Activate(old(db.vouchers[vid]), r.value, now)]
      ensures db.events == old(db.events) && db.reservations == old(db.reservations)
      ensures db.payments == old(db.payments) && db.participants == old(db.participants)
      ensures db.nextParticipantId == old(db.nextParticipantId)
    {
      if vid >= |db.vouchers| {
        return Err(NotFound);
      }
      if db.vouchers[vid].status != V.Pending {
        return Err(AlreadyProcessed);
      }
      var code := ActivateWithFreshCode(vid, attempts, now);
      r := Ok(code);
    }

    /** `handlePayPayPaymentComplete`: the same activation, answering with
     *  the voucher. */
    method HandlePayPayPaymentComplete(vid: Id, attempts: seq<seq<nat>>, now: int) returns (r: Result<Id>)
      requires db.Valid()
      requires vid < |db.vouchers| && db.vouchers[vid].status == V.Pending ==> CanDrawFreeCode(attempts)
      modifies db
      ensures db.Valid()
      ensures vid >= |old(db.vouchers)| ==> r == Err(NotFound)
      ensures vid < |old(db.vouchers)| && old(db.vouchers[vid]).status != V.Pending ==> r == Err(AlreadyProcessed)
      ensures r.Ok? <==> vid < |old(db.vouchers)| && old(db.vouchers[vid]).status == V.Pending
      ensures r.Err? ==> unchanged(db)
      ensures r.Ok? ==>
                && r.value == vid && vid < |old(db.vouchers)| == |db.vouchers|
                && old(db.vouchers[vid]).status == V.Pending
                && db.vouchers[vid].code.Some? && V.IsVoucherCode(db.vouchers[vid].code.value)
                && var code := db.vouchers[vid].code.value;
                   old(db.CodeFree(code))
                   && db.vouchers == old(db.vouchers)[vid := V.Activate(old(db.vouchers[vid]), code, now)]
      ensures db.events == old(db.events) && db.reservations == old(db.reservations)
      ensures db.payments == old(db.payments) && db.participants == old(db.participants)
      ensures db.nextParticipantId == old(db.nextParticipantId)
    {
      var a := ActivateGiftVoucher(vid, attempts, now);
      if a.Err? {
        return Err(a.error);
      }
      r := Ok(vid);
    }

    /** The voucher holding a Checkout Session id
     *  (`findByStripeCheckoutSessionId`). */
    function SessionVoucher(sessionId: string): (l: Lookup)
      reads db
      ensures l.Unique? ==> l.index < |db.vouchers| && db.vouchers[l.index].stripeCheckoutSessionId == Some(sessionId)
      ensures l.Missing? <==>
                forall j :: 0 <= j < |db.vouchers| ==> db.vouchers[j].stripeCheckoutSessionId != Some(sessionId)
    {
      FindUnique(db.vouchers, (v: V.GiftVoucher) => v.stripeCheckoutSessionId == Some(sessionId))
    }

    /** `handleStripeCheckoutComplete`: retrieve the session, find the
     *  voucher holding its id and, when the session is complete and paid,
     *  record the payment intent and activate the voucher with a fresh
     *  code.  There is no PENDING check: a repeated completion gives an
     *  already activated, even a redeemed or used, voucher a new code and
     *  makes it ACTIVE again. */
    method HandleStripeCheckoutComplete(sessionId: string, api: P.StripeApi, attempts: seq<seq<nat>>, now: int)
      returns (r: Result<Id>)
      requires db.Valid()
      requires api.retrieveSession(sessionId).Replied? && P.SessionPaid(api.retrieveSession(sessionId).reply) ==>
                 CanDrawFreeCode(attempts)
      modifies db
      ensures db.Valid()
      ensures api.retrieveSession(sessionId).GatewayFailed? ==> r == Err(GatewayFailure)
      ensures api.retrieveSession(sessionId).Replied? &&
                (forall j :: 0 <= j < |old(db.vouchers)| ==> old(db.vouchers[j]).stripeCheckoutSessionId != Some(sessionId)) ==>
                r == Err(NotFound)
      ensures api.retrieveSession(sessionId).Replied? ==>
                r == (match old(SessionVoucher(sessionId))
                      case Missing => Err(NotFound)
                      case Ambiguous => Err(DuplicateKey)
                      case Unique(i) => Ok(i))
      ensures r.Err? ==> unchanged(db)
      ensures r.Ok? ==> api.retrieveSession(sessionId).Replied? && r.value < |old(db.vouchers)|
      ensures r.Ok? ==>
                var info := api.retrieveSession(sessionId).reply;
                var v := old(db.vouchers[r.value]);
                && v.stripeCheckoutSessionId == Some(sessionId)
                && (forall j :: 0 <= j < |old(db.vouchers)| && j != r.value ==>
                      old(db.vouchers[j]).stripeCheckoutSessionId != Some(sessionId))
                && |db.vouchers| == |old(db.vouchers)|
                && (forall j :: 0 <= j < |db.vouchers| && j != r.value ==> db.vouchers[j] == old(db.vouchers[j]))
                && (!P.SessionPaid(info) ==> db.vouchers[r.value] == v)
                && (P.SessionPaid(info) ==>
                      && db.vouchers[r.value].code.Some? && V.IsVoucherCode(db.vouchers[r.value].code.value)
                      && var code := db.vouchers[r.value].code.value;
                         old(db.CodeFree(code))
                         && db.vouchers[r.value] == V.Activate(v.(stripePaymentIntentId := info.paymentIntent), code, now))
      ensures db.events == old(db.events) && db.reservations == old(db.reservations)
      ensures db.payments == old(db.payments) && db.participants == old(db.participants)
      ensures db.nextParticipantId == old(db.nextParticipantId)
    {
      var reply := api.retrieveSession(sessionId);
      if reply.GatewayFailed? {
        return Err(GatewayFailure);
      }
      var info := reply.reply;
      var found := SessionVoucher(sessionId);
      if found.Missing? {
        return Err(NotFound);
      } else if found.Ambiguous? {
        return Err(DuplicateKey);
      }
      var vid := found.index;
      if P.SessionPaid(info) {
        db.vouchers := db.vouchers[vid := db.vouchers[vid].(stripePaymentIntentId := info.paymentIntent)];
        var code := ActivateWithFreshCode(vid, attempts, now);
      }
      r := Ok(vid);
    }

    /** `redeemGiftVoucher`: look the code up upper-cased, apply the refusals
     *  in order, then bind the caller as owner.  Returns the balance. */
    method RedeemGiftVoucher(typed: string, user: Id, now: int) returns (r: Result<int>)
      requires db.Valid()
      modifies db
      ensures db.Valid()
      ensures old(db.VoucherWithCode(V.UpperAscii(typed))).None? ==> r == Err(NotFound)
      ensures var found := old(db.VoucherWithCode(V.UpperAscii(typed)));
              found.Some? && V.RedeemRefusal(old(db.vouchers[found.value]), user).Some? ==>
                r == Err(V.RedeemRefusal(old(db.vouchers[found.value]), user).value)
      ensures var found := old(db.VoucherWithCode(V.UpperAscii(typed)));
              r.Ok? <==> found.Some? && V.RedeemRefusal(old(db.vouchers[found.value]), user).None?
      ensures r.Err? ==> unchanged(db)
      ensures r.Ok? ==>
                var found := old(db.VoucherWithCode(V.UpperAscii(typed)));
                && found.Some? && V.RedeemRefusal(old(db.vouchers[found.value]), user).None?
                && r.value == old(db.vouchers[found.value]).balance
                && db.vouchers == old(db.vouchers)[found.value := V.Redeem(old(db.vouchers[found.value]), user, now)]
      ensures db.events == old(db.events) && db.reservations == old(db.reservations)
      ensures db.payments == old(db.payments) && db.participants == old(db.participants)
      ensures db.nextParticipantId == old(db.nextParticipantId)
    {
      var found := db.VoucherWithCode(V.UpperAscii(typed));
      if found.None? {
        return Err(NotFound);
      }
      var vid := found.value;
      var v := db.vouchers[vid];
      var refusal := V.RedeemRefusal(v, user);
      if refusal.Some? {
        return Err(refusal.value);
      }
      db.vouchers := db.vouchers[vid := V.Redeem(v, user, now)];
      r := Ok(v.balance);
    }

    /** `useVoucher`: only the owner may spend, and only a usable voucher;
     *  deduct `min(amount, balance)` and answer with what was deducted.  An
     *  unregistered voucher has no owner to compare and fails with a
     *  NullPointerException. */
    method UseVoucher(vid: Id, amount: int, user: Id, now: int) returns (r: Result<int>)
      requires db.Valid()
      modifies db
      ensures db.Valid()
      ensures vid >= |old(db.vouchers)| ==> r == Err(NotFound)
      ensures vid < |old(db.vouchers)| && old(db.vouchers[vid]).owner.None? ==> r == Err(NoOwner)
      ensures vid < |old(db.vouchers)| && old(db.vouchers[vid]).owner.Some? &&
                (old(db.vouchers[vid]).owner.value != user || !V.IsUsable(old(db.vouchers[vid]), now)) ==>
                r == Err(VoucherNotUsable)
      ensures r.Ok? <==>
                vid < |old(db.vouchers)| && old(db.vouchers[vid]).owner == Some(user) && V.IsUsable(old(db.vouchers[vid]), now)
      ensures r.Err? ==> unchanged(db)
      ensures r.Ok? ==>
                && vid < |old(db.vouchers)| && old(db.vouchers[vid]).owner == Some(user)
                && V.IsUsable(old(db.vouchers[vid]), now)
                && db.vouchers == old(db.vouchers)[vid := V.Deduct(old(db.vouchers[vid]), amount).0]
                && r.value == V.Deduct(old(db.vouchers[vid]), amount).1
      ensures r.Ok? ==>
                && 0 <= db.vouchers[vid].balance
                && db.vouchers[vid].balance + r.value == old(db.vouchers[vid]).balance
                && r.value <= amount
                && (db.vouchers[vid].status == V.Used <==> db.vouchers[vid].balance == 0)
      ensures db.events == old(db.events) && db.reservations == old(db.reservations)
      ensures db.payments == old(db.payments) && db.participants == old(db.participants)
      ensures db.nextParticipantId == old(db.nextParticipantId)
    {
      if vid >= |db.vouchers| {
        return Err(NotFound);
      }
      var v := db.vouchers[vid];
      if v.owner.None? {
        return Err(NoOwner);
      }
      if v.owner.value != user {
        return Err(VoucherNotUsable);
      }
      if !V.IsUsable(v, now) {
        return Err(VoucherNotUsable);
      }
      var (left, actual) := V.Deduct(v, amount);
      V.DeductKeepsBalance(v, amount, now);
      db.vouchers := db.vouchers[vid := left];
      r := Ok(actual);
    }
  }
}
