/** The GiftVoucher entity and the ledger rules applied to it: the `isUsable`
 *  test, the persist-time balance default, the deduction of `useVoucher`, the
 *  consumption performed after a payment, and the checks of redemption. */
module Vouchers {
  import opened Base

  datatype VoucherStatus = Pending | Active | Redeemed | Used | Expired | Cancelled

  datatype GiftVoucher = GiftVoucher(
    code: Option<string>,
    amount: int,
    balance: int,
    status: VoucherStatus,
    purchaser: Option<Id>,
    owner: Option<Id>,
    paymentMethod: Option<PaymentMethod>,
    stripePaymentIntentId: Option<string>,
    stripeCheckoutSessionId: Option<string>,
    paypayPaymentId: Option<string>,
    expiresAt: Option<int>,
    createdAt: int,
    activatedAt: Option<int>,
    redeemedAt: Option<int>)

  /** The alphabet of voucher codes: upper-case letters and digits without
   *  the look-alikes I, O, 0 and 1. */
  const CODE_CHARS: string := "ABCDEFGHJKLMNPQRSTUVWXYZ23456789"
  const CODE_LENGTH: nat := 16

  predicate IsVoucherCode(s: string)
  {
    |s| == CODE_LENGTH && forall i :: 0 <= i < |s| ==> s[i] in CODE_CHARS
  }

  lemma CodeAlphabetSize()
    ensures |CODE_CHARS| == 32
  {
  }

  /** A voucher as the constructor leaves it: the field initialiser makes the
   *  status PENDING and everything optional starts out absent. */
  function Fresh(amount: int, balance: Option<int>, now: int): (v: GiftVoucher)
  {
    GiftVoucher(None, amount, 0, Pending, None, None, None, None, None, None, None, now, None, None)
      .(balance := OrElse(balance, amount))
  }

  /** `@PrePersist onCreate`: stamps the creation time and fills a missing
   *  balance with the face amount; an explicit balance is kept. */
  function OnCreate(v: GiftVoucher, balance: Option<int>, now: int): (p: GiftVoucher)
    ensures p.createdAt == now
    ensures balance.None? ==> p.balance == v.amount
    ensures balance.Some? ==> p.balance == balance.value
    ensures p.(createdAt := v.createdAt, balance := v.balance) == v
  {
    v.(createdAt := now, balance := OrElse(balance, v.amount))
  }

  lemma FreshVoucherDefaults(amount: int, now: int)
    ensures Fresh(amount, None, now).status == Pending
    ensures Fresh(amount, None, now).balance == amount
    ensures Fresh(amount, None, now).owner.None? && Fresh(amount, None, now).code.None?
  {
  }

  /** `GiftVoucher.isUsable()`: active or redeemed, money left, not past expiry. */
  predicate IsUsable(v: GiftVoucher, now: int)
  {
    (v.status == Active || v.status == Redeemed)
    && v.balance > 0
    && (v.expiresAt.None? || v.expiresAt.value > now)
  }

  /** Which statuses can ever be usable, and what else usability needs. */
  lemma UsableCharacterised(v: GiftVoucher, now: int)
    ensures v.status in {Pending, Used, Expired, Cancelled} ==> !IsUsable(v, now)
    ensures v.balance <= 0 ==> !IsUsable(v, now)
    ensures v.expiresAt.Some? && v.expiresAt.value <= now ==> !IsUsable(v, now)
    ensures ((v.status == Active || v.status == Redeemed) && v.balance > 0 && v.expiresAt.None?)
      ==> forall t :: IsUsable(v, t)
  {
  }

  /** The balance change of `useVoucher`: deduct `min(amount, balance)`, mark
   *  USED when nothing is left, report what was deducted. */
  function Deduct(v: GiftVoucher, amount: int): (r: (GiftVoucher, int))
    ensures r.0.balance + r.1 == v.balance
    ensures r.1 <= amount && r.1 <= v.balance
    ensures r.1 == amount || r.0.balance == 0
    ensures r.0.balance == 0 ==> r.0.status == Used
    ensures r.0.balance != 0 ==> r.0.status == v.status
    ensures r.0.(balance := v.balance, status := v.status) == v
  {
    var actual := Min(amount, v.balance);
    var left := v.(balance := v.balance - actual);
    (if left.balance == 0 then left.(status := Used) else left, actual)
  }

  /** On a usable voucher the deduction never drives the balance below zero,
   *  and a request covering the balance empties it. */
  lemma DeductKeepsBalance(v: GiftVoucher, amount: int, now: int)
    requires IsUsable(v, now)
    ensures Deduct(v, amount).0.balance >= 0
    ensures amount >= v.balance ==> Deduct(v, amount).0.balance == 0 && Deduct(v, amount).0.status == Used
    ensures 0 <= amount < v.balance ==> Deduct(v, amount).0.status == v.status
  {
  }

  /** `PaymentService.consumeVoucher` on the voucher row: subtract the amount
   *  frozen into the payment, with no re-check of the balance. */
  function Consume(v: GiftVoucher, amount: int): (c: GiftVoucher)
    ensures c.balance == v.balance - amount
    ensures c.status == (if c.balance == 0 then Used else v.status)
    ensures c.(balance := v.balance, status := v.status) == v
  {
    var left := v.(balance := v.balance - amount);
    if left.balance == 0 then left.(status := Used) else left
  }

  /** Consumption of exactly the balance empties the voucher and marks it USED;
   *  a smaller positive amount leaves it usable if it was. */
  lemma ConsumeWithinBalance(v: GiftVoucher, amount: int, now: int)
    requires IsUsable(v, now) && 0 < amount <= v.balance
    ensures Consume(v, amount).balance >= 0
    ensures amount == v.balance ==> Consume(v, amount).status == Used && !IsUsable(Consume(v, amount), now)
    ensures amount < v.balance ==> IsUsable(Consume(v, amount), now)
  {
  }

  /** Consuming twice subtracts twice: a voucher whose whole balance backed a
   *  payment ends USED with a negative balance once the confirmation is
   *  replayed.  Neither `balance >= 0` nor `USED ==> balance == 0` survives. */
  lemma ReplayedConsumeOverdraws(v: GiftVoucher, now: int)
    requires IsUsable(v, now)
    ensures Consume(Consume(v, v.balance), v.balance).balance == -v.balance < 0
    ensures Consume(Consume(v, v.balance), v.balance).status == Used
  {
  }

  /** The refusals of `redeemGiftVoucher`, in the order the code checks them. */
  function RedeemRefusal(v: GiftVoucher, user: Id): (e: Option<Error>)
    ensures v.status == Pending ==> e == Some(NotActivated)
    ensures v.status == Used ==> e == Some(VoucherUsed)
    ensures v.status == Expired ==> e == Some(VoucherExpired)
    ensures v.status == Cancelled ==> e == Some(VoucherCancelled)
  {
    if v.status == Pending then Some(NotActivated)
    else if v.status == Used then Some(VoucherUsed)
    else if v.status == Expired then Some(VoucherExpired)
    else if v.status == Cancelled then Some(VoucherCancelled)
    else if v.owner.Some? then
      if v.owner.value == user then Some(AlreadyRegistered) else Some(RegisteredToOther)
    else None
  }

  /** Redemption binds the owner and marks REDEEMED; the balance is untouched. */
  function Redeem(v: GiftVoucher, user: Id, now: int): (r: GiftVoucher)
    ensures r.owner == Some(user) && r.status == Redeemed && r.redeemedAt == Some(now)
    ensures r.balance == v.balance && r.amount == v.amount && r.code == v.code
  {
    v.(owner := Some(user), status := Redeemed, redeemedAt := Some(now))
  }

  /** Redemption succeeds exactly for an unowned ACTIVE or REDEEMED voucher.
   *  Expiry is judged by the status alone: an ACTIVE voucher past its
   *  `expiresAt` is still accepted. */
  lemma RedeemAcceptedIff(v: GiftVoucher, user: Id)
    ensures RedeemRefusal(v, user).None? <==> (v.status == Active || v.status == Redeemed) && v.owner.None?
    ensures v.owner == Some(user) && v.status in {Active, Redeemed} ==> RedeemRefusal(v, user) == Some(AlreadyRegistered)
    ensures (v.owner.Some? && v.owner.value != user && v.status in {Active, Redeemed})
      ==> RedeemRefusal(v, user) == Some(RegisteredToOther)
  {
  }

  /** Redeeming a usable voucher keeps it usable, now for its new owner. */
  lemma RedeemKeepsUsable(v: GiftVoucher, user: Id, now: int, later: int)
    requires IsUsable(v, later)
    ensures IsUsable(Redeem(v, user, now), later)
  {
  }

  /** Activation: the fresh code, ACTIVE, and the activation time. */
  function Activate(v: GiftVoucher, code: string, now: int): (a: GiftVoucher)
    ensures a.code == Some(code) && a.status == Active && a.activatedAt == Some(now)
    ensures a.balance == v.balance && a.owner == v.owner && a.expiresAt == v.expiresAt
  {
    v.(code := Some(code), status := Active, activatedAt := Some(now))
  }

  /** A purchased voucher that is activated before its expiry is usable. */
  lemma ActivatedPurchaseUsable(v: GiftVoucher, code: string, now: int)
    requires v.balance > 0 && v.expiresAt == Some(now + MinutesPerYear)
    ensures IsUsable(Activate(v, code, now), now)
    ensures !IsUsable(Activate(v, code, now), now + MinutesPerYear)
  {
  }

  /** `String.toUpperCase` restricted to ASCII letters. */
  function UpperAscii(s: string): (u: string)
    ensures |u| == |s|
    ensures forall i :: 0 <= i < |s| ==> ('a' <= s[i] <= 'z' <==> u[i] != s[i])
    ensures forall i :: 0 <= i < |s| ==> !('a' <= u[i] <= 'z')
  {
    if |s| == 0 then []
    else
      var c := s[0];
      var d := if 'a' <= c <= 'z' then (c as int - 32) as char else c;
      [d] + UpperAscii(s[1..])
  }

  /** Codes are found whatever the case the user types them in. */
  lemma {:induction false} UpperAsciiFindsCode(code: string, typed: string)
    requires IsVoucherCode(code) && |typed| == |code|
    requires forall i :: 0 <= i < |code| ==>
               typed[i] == code[i] || ('A' <= code[i] <= 'Z' && typed[i] as int == code[i] as int + 32)
    ensures UpperAscii(typed) == code
  {
    var u := UpperAscii(typed);
    forall i | 0 <= i < |code|
      ensures u[i] == code[i]
    {
      CodeCharNotLower(code[i]);
      UpperAt(typed, i);
    }
  }

  lemma CodeCharNotLower(c: char)
    requires c in CODE_CHARS
    ensures !('a' <= c <= 'z')
  {
  }

  lemma {:induction false} UpperAt(s: string, i: nat)
    requires i < |s|
    ensures UpperAscii(s)[i] == if 'a' <= s[i] <= 'z' then (s[i] as int - 32) as char else s[i]
    decreases i
  {
    if i > 0 {
      UpperAt(s[1..], i - 1);
    }
  }
}
