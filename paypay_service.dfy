/** PayPayService: a mock PayPay integration.  A payment link stamps the
 *  payment with a PayPay id; completion looks the payment up by that id and
 *  marks it paid; a refund is only recorded locally. */
module PayPayIntegration {
  import opened Base
  import P = Payments
  import opened Store

  /** The PayPay id a link assigns: the prefix and a random UUID. */
  function PayPayId(uuid: string): (id: string)
    ensures |id| == |uuid| + 7 && id[..7] == "PAYPAY_" && id[7..] == uuid
  {
    "PAYPAY_" + uuid
  }

  /** A mock PayPay page: the frontend URL, the page path ending in its
   *  first parameter's `=`, the id, then the amount as a second parameter. */
  function MockPageUrl(frontendUrl: string, page: string, id: Id, amount: int): (u: string)
    ensures |u| > |frontendUrl + page| && u[..|frontendUrl + page|] == frontendUrl + page
  {
    (frontendUrl + page) + (IntToString(id) + (['&'] + ("amount=" + IntToString(amount))))
  }

  /** The parameters of a mock page give back the id and the amount it was
   *  built for. */
  lemma MockPageUrlIdentifies(frontendUrl: string, page: string, id: Id, amount: int, id': Id, amount': int)
    requires MockPageUrl(frontendUrl, page, id, amount) == MockPageUrl(frontendUrl, page, id', amount')
    ensures id == id' && amount == amount'
  {
    var prefix := frontendUrl + page;
    var u := MockPageUrl(frontendUrl, page, id, amount);
    var s, t := IntToString(id), IntToString(amount);
    var s', t' := IntToString(id'), IntToString(amount');
    assert u[|prefix|..] == s + (['&'] + ("amount=" + t));
    assert u[|prefix|..] == s' + (['&'] + ("amount=" + t'));
    SplitAtSeparator(s, "amount=" + t, s', "amount=" + t', '&');
    assert t == ("amount=" + t)[7..];
    assert t' == ("amount=" + t')[7..];
    IntToStringInjective(id, id');
    IntToStringInjective(amount, amount');
  }

  /** The mock page a reservation payment link points at. */
  function MockPaymentUrl(frontendUrl: string, paymentId: Id, amount: int): string
  {
    MockPageUrl(frontendUrl, "/payment/paypay/mock?payment_id=", paymentId, amount)
  }

  /** A separator absent from both heads splits a string in one way only. */
  lemma SplitAtSeparator(a: string, x: string, b: string, y: string, sep: char)
    requires forall k :: 0 <= k < |a| ==> a[k] != sep
    requires forall k :: 0 <= k < |b| ==> b[k] != sep
    requires a + ([sep] + x) == b + ([sep] + y)
    ensures a == b && x == y
  {
    assert |a| == |b| by {
      var u := a + ([sep] + x);
      assert u[|a|] == sep && u[|b|] == sep;
    }
    assert a == (a + ([sep] + x))[..|a|];
    assert x == (a + ([sep] + x))[|a| + 1..];
  }

  class PayPayService {
    const db: Database
    /** `paypay.api-key` and `paypay.api-secret`, empty when unset. */
    const apiKey: string
    const apiSecret: string
    /** `app.frontend-url`. */
    const frontendUrl: string

    constructor (db: Database, apiKey: string, apiSecret: string, frontendUrl: string)
      ensures this.db == db && this.apiKey == apiKey && this.apiSecret == apiSecret
      ensures this.frontendUrl == frontendUrl
    {
      this.db := db;
      this.apiKey := apiKey;
      this.apiSecret := apiSecret;
      this.frontendUrl := frontendUrl;
    }

    /** `isConfigured`: both the key and the secret are set. */
    predicate IsConfigured()
    {
      |apiKey| > 0 && |apiSecret| > 0
    }

    /** The payment holding a PayPay id (`findByPaypayPaymentId`). */
    function PayPayHolder(paypayId: string): (l: Lookup)
      reads db
      ensures l.Unique? ==> l.index < |db.payments| && db.payments[l.index].paypayPaymentId == Some(paypayId)
      ensures l.Missing? <==> forall j :: 0 <= j < |db.payments| ==> db.payments[j].paypayPaymentId != Some(paypayId)
    {
      FindUnique(db.payments, (p: P.Payment) => p.paypayPaymentId == Some(paypayId))
    }

    /** `createPaymentLink`: stamp the payment with a fresh PayPay id and hand
     *  back the mock page for its id and amount. */
    method CreatePaymentLink(pid: Id, uuid: string) returns (url: string)
      requires db.Valid() && pid < |db.payments|
      modifies db
      ensures db.Valid()
      ensures db.payments == old(db.payments)[pid := old(db.payments[pid]).(paypayPaymentId := Some(PayPayId(uuid)))]
      ensures url == MockPaymentUrl(frontendUrl, pid, old(db.payments[pid]).amount)
      ensures db.events == old(db.events) && db.reservations == old(db.reservations)
      ensures db.vouchers == old(db.vouchers) && db.participants == old(db.participants)
      ensures db.nextParticipantId == old(db.nextParticipantId)
    {
      var p := db.payments[pid];
      db.payments := db.payments[pid := p.(paypayPaymentId := Some(PayPayId(uuid)))];
      url := MockPaymentUrl(frontendUrl, pid, p.amount);
    }

    /** `handlePaymentCompleted`: the payment holding the PayPay id becomes
     *  COMPLETED; neither its voucher nor its reservation is touched. */
    method HandlePaymentCompleted(paypayId: string, now: int) returns (r: Result<Id>)
      requires db.Valid()
      modifies db
      ensures db.Valid()
      ensures (forall j :: 0 <= j < |old(db.payments)| ==> old(db.payments[j]).paypayPaymentId != Some(paypayId)) <==>
                r == Err(NotFound)
      ensures r == (match old(PayPayHolder(paypayId))
                    case Missing => Err(NotFound)
                    case Ambiguous => Err(DuplicateKey)
                    case Unique(i) => Ok(i))
      ensures r.Err? ==> unchanged(db)
      ensures r.Ok? ==> r.value < |old(db.payments)|
      ensures r.Ok? ==>
                && old(db.payments[r.value]).paypayPaymentId == Some(paypayId)
                && (forall j :: 0 <= j < |old(db.payments)| && j != r.value ==>
                      old(db.payments[j]).paypayPaymentId != Some(paypayId))
                && db.payments == old(db.payments)[r.value := P.MarkPaid(old(db.payments[r.value]), now)]
      ensures db.events == old(db.events) && db.reservations == old(db.reservations)
      ensures db.vouchers == old(db.vouchers) && db.participants == old(db.participants)
      ensures db.nextParticipantId == old(db.nextParticipantId)
    {
      var found := PayPayHolder(paypayId);
      if found.Missing? {
        return Err(NotFound);
      } else if found.Ambiguous? {
        return Err(DuplicateKey);
      }
      var pid := found.index;
      db.payments := db.payments[pid := P.MarkPaid(db.payments[pid], now)];
      r := Ok(pid);
    }

    /** `refund`: no gateway call; the refund is added to the running total. */
    method Refund(pid: Id, refund: int, now: int)
      requires db.Valid() && pid < |db.payments|
      modifies db
      ensures db.Valid()
      ensures db.payments == old(db.payments)[pid := P.RecordRefund(old(db.payments[pid]), refund, now)]
      ensures db.events == old(db.events) && db.reservations == old(db.reservations)
      ensures db.vouchers == old(db.vouchers) && db.participants == old(db.participants)
      ensures db.nextParticipantId == old(db.nextParticipantId)
    {
      db.payments := db.payments[pid := P.RecordRefund(db.payments[pid], refund, now)];
    }
  }
}
