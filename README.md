# FarMeet reservation lifecycle, in Dafny

FarMeet lets users book places at farm experience events. They pay by Stripe
card checkout, by PayPay or by bank transfer, and may apply a gift voucher.
A booker can invite companions with an invite code. This project models the
core of the Spring backend, and a few helpers of the Next.js frontend, and
proves properties of that model.

The backend part models these pieces of state:

- **Event seats and reservations.** `ExperienceEvent.availableSlots` goes down
  when a reservation is created. It goes back up when the reservation is
  cancelled or expires.
- **The reservation status machine.** The statuses are PENDING_PAYMENT,
  AWAITING_TRANSFER, CONFIRMED, COMPLETED, CANCELLED, PAYMENT_FAILED and the
  legacy PENDING.
- **The payment of a reservation.** It holds the charge/voucher split, the
  bank-transfer deadline and the tiered refunds.
- **The gift-voucher ledger.** A voucher goes PENDING → ACTIVE → REDEEMED →
  USED, and has a balance and the `isUsable` rule.
- **The invite-code roster.** Each participant takes a sub-seat of one
  category.
- **The hourly scheduler.** It runs a completion sweep and an expiry sweep.

How the backend is shaped:

- The tables live in one `Store.Database` object. Reservations, payments and
  vouchers are sequences indexed by their identity id. Events and participants
  are maps.
- Each Spring service is a class holding that database. Each service method is
  a Dafny method with a `modifies db` frame. Its `ensures` gives the new tables,
  the error it answers with, and the invariants it keeps.
- The invariants are:
  - `Valid`: keys, references, one payment per reservation, and each
    payment's charge plus voucher part equal to the reservation total.
  - `SeatsBalanced`: free slots plus the seats of live reservations equal
    capacity.
  - `RosterWithinLimits`: no category holds more participants than it admits.

How the outside world is represented:

- Money is integer yen and time is integer minutes (a day is 1440).
- A `@Transactional` method that throws a RuntimeException leaves the tables
  as they were. A checked `StripeException` keeps the writes made before it.
- The Stripe SDK (`Session.create`, `Session.retrieve`, `Refund.create`) is a
  `StripeApi` value of functions whose reply may be a failure.
- `SecureRandom` draws and `UUID.randomUUID()` are inputs.
- The clock is a `now` parameter.

The frontend part models these helpers:

- the recently viewed farms list (`lib/recentlyViewed.ts`);
- recommendation scoring and ranking (`lib/recommendation.ts`);
- the seasonal produce calendar (`lib/seasonData.ts`);
- the prefecture-to-region grouping of the area filter
  (`components/LocationFilter.tsx`);
- the chat window's small Markdown renderer (`components/ChatWidget.tsx`).

In these places the code behaves in ways that look unintended, and the model
follows the code:

- Releasing seats on cancel or expiry is not capped at the event's capacity.
- Confirming a payment (`confirmBankTransfer`, `completePayPayPayment`, a
  repeated Stripe completion) is not idempotent. A replayed confirmation
  consumes the voucher again, and `PaymentServices.ConsumedTwiceOverdraws`
  shows the balance then falls below zero.
- A confirmation sets CONFIRMED even on a reservation that was cancelled
  meanwhile. `Store.ConfirmingCancelledUnbalances` shows that this breaks seat
  conservation.
- `leaveReservation` fails for a user who is not a participant rather than
  doing nothing.
- The voucher's Stripe completion has no PENDING guard, so a repeated
  completion gives the voucher a new code and makes it ACTIVE again.

## Model

| member | source | states |
|---|---|---|
| Base.FindUnique | farmeet-backend/src/main/java/com/farmeet/repository/PaymentRepository.java:17-21 | A lookup by a non-key column answers the one matching row, Missing exactly when no row matches, and Ambiguous (Spring Data's IncorrectResultSize) only when two distinct rows match |
| Base.FindUniqueOfKey | farmeet-backend/src/main/java/com/farmeet/entity/GiftVoucher.java:26-27 | When at most one row can match, the lookup is never ambiguous: it finds that row or reports it missing |
| Base.TruncDiv | farmeet-backend/src/main/java/com/farmeet/service/PaymentService.java:357 | Division rounding toward zero (RoundingMode.DOWN): for a non-negative numerator the largest multiple not above it, for a negative one the smallest multiple not below it |
| Base.DaysBetween | farmeet-backend/src/main/java/com/farmeet/service/PaymentService.java:346 | `ChronoUnit.DAYS.between`: whole days truncated toward zero, so a forward span of d days holds d whole days but not d + 1, and a backward span mirrors it |
| Base.IntToString | farmeet-backend/src/main/java/com/farmeet/service/StripeService.java:75-76 | `Long.toString`: a non-empty text of digits, with a leading minus exactly for negative numbers |
| Base.IntToStringRoundTrip | farmeet-backend/src/main/java/com/farmeet/service/StripeService.java:75-76 | The rendered id reads back as itself, sign included |
| Base.IntToStringInjective | farmeet-backend/src/main/java/com/farmeet/service/StripeService.java:75-76 | Distinct ids render to distinct texts, so an id in checkout metadata or a URL designates one row |
| Base.NatToStringRoundTrip | farmeet-backend/src/main/java/com/farmeet/service/PayPayService.java:53-54 | Reading the digits of a rendered natural number gives the number back |
| Reservations.StatusGroupsPartition | farmeet-backend/src/main/java/com/farmeet/service/ReservationService.java:23-31 | ACTIVE_STATUSES and HISTORY_STATUSES are disjoint, and together cover every status but the legacy PENDING |
| Reservations.PriceRules | farmeet-backend/src/main/java/com/farmeet/service/ReservationService.java:86-89 | Without a child price a child costs the adult price. Each further child adds the child price when there is one, each adult adds the adult price, and with no children the total is adult price × adults. Infants are not charged |
| Reservations.NewReservation | farmeet-backend/src/main/java/com/farmeet/service/ReservationService.java:91-100 | The saved reservation is PENDING_PAYMENT for the caller and the event, with headcount adults + children + infants, the computed total and no invite code |
| Reservations.Reserve | farmeet-backend/src/main/java/com/farmeet/service/ReservationService.java:101-102 | Creating takes exactly the headcount off the free slots and changes no other field of the event |
| Reservations.Release | farmeet-backend/src/main/java/com/farmeet/service/ReservationService.java:140-145 | Cancelling adds exactly the headcount back, uncapped, and changes no other field of the event |
| Reservations.ReleaseUndoesReserve | farmeet-backend/src/main/java/com/farmeet/service/ReservationService.java:101-143 | Create then cancel restores the event exactly |
| Reservations.RosterFitsHeadcount | restored_service.java:232-264 | For a booking made by createReservation, the owner's seat plus the three category limits add up to the headcount. The legacy (n, 0, 0) booking admits n − 1 adults and no children or infants |
| Reservations.LegacyRowLimits | restored_service.java:238-246 | A row without per-category counts lets numberOfPeople − 1 adults join and no children or infants |
| Reservations.HeldAppend | farmeet-backend/src/main/java/com/farmeet/service/ReservationService.java:103 | Saving one more reservation adds its own holding to the seats held for each event |
| Reservations.HeldUpdate | farmeet-backend/src/main/java/com/farmeet/service/ReservationService.java:140-147 | Replacing one reservation row changes the seats held by the difference of the old and new holdings |
| Reservations.HeldUnchanged | farmeet-backend/src/main/java/com/farmeet/service/PaymentService.java:286-295 | A row change that keeps the row's holding keeps every event's held seats |
| Store.CountAfterAdd | restored_service.java:266-271 | Saving a participant under a fresh key adds one to its own reservation and category count and leaves every other count alone |
| Store.CountAfterRemove | restored_service.java:279-283 | Deleting participant rows never raises any category count |
| Store.Database.constructor | farmeet-backend/src/main/java/com/farmeet/entity/ExperienceEvent.java:36-52 | A database with only events is valid and within roster limits, and it is seat-balanced when every event's slots equal its capacity |
| Store.Database.PaymentFor | farmeet-backend/src/main/java/com/farmeet/service/PaymentService.java:380-387 | `findByReservationId` answers a payment of that reservation, or none when no payment refers to it |
| Store.Database.PaymentForUnique | farmeet-backend/src/main/java/com/farmeet/entity/Payment.java:25-26 | In a valid database the payment found is the reservation's only payment (the one-to-one join) |
| Store.Database.VoucherWithCode | farmeet-backend/src/main/java/com/farmeet/service/GiftVoucherService.java:262 | `findByCode` answers a voucher holding the code, or none when no voucher holds it |
| Store.Database.SetReservationStatus | farmeet-backend/src/main/java/com/farmeet/service/PaymentService.java:286-295 | Only the status of that reservation changes. Validity and roster limits are kept, and so is seat balance when neither status is CANCELLED |
| Store.Database.CancelAndRelease | farmeet-backend/src/main/java/com/farmeet/service/ReservationService.java:140-145 | The reservation becomes CANCELLED and its event gets exactly its headcount back, no other event changes, and seat balance and roster limits are kept |
| Store.Database.SaveVoucher | farmeet-backend/src/main/java/com/farmeet/service/GiftVoucherService.java:59-95 | `save` appends a new voucher or replaces that row only, and keeps the database valid |
| Store.Database.RollBackVouchers | farmeet-backend/src/main/java/com/farmeet/service/GiftVoucherService.java:53-100 | Rolling back drops exactly the voucher rows inserted since the given count |
| Store.Database.RollBackPayments | farmeet-backend/src/main/java/com/farmeet/service/PaymentService.java:122-158 | Rolling back drops exactly the payment rows inserted since the given count |
| Store.Database.AddParticipant | restored_service.java:266-271 | Exactly one participant row is added under a fresh key, and roster limits and validity are kept |
| Store.Database.WriteBack | farmeet-backend/src/main/java/com/farmeet/scheduler/ReservationScheduler.java:44-93 | Writing back rows that differ only in status and events that differ only in slots keeps the database valid and within roster limits |
| Store.LiveStatusChangeKeepsHeld | farmeet-backend/src/main/java/com/farmeet/service/PaymentService.java:223-226 | Moving a reservation between two non-cancelled statuses keeps every event's held seats |
| Store.ConfirmingCancelledUnbalances | farmeet-backend/src/main/java/com/farmeet/service/PaymentService.java:286-295 | Confirming a CANCELLED reservation of a balanced event counts its party again, so slots plus held seats exceed capacity |
| Payments.VoucherSplit | farmeet-backend/src/main/java/com/farmeet/service/PaymentService.java:66-72 | With voucher part min(balance, total), charge plus voucher part is the total, the charge is never negative, the voucher part never exceeds the balance, and either the balance is used up or nothing is left to charge |
| Payments.NewPayment | farmeet-backend/src/main/java/com/farmeet/service/PaymentService.java:44-79 | The new payment is PENDING, not refunded, records the voucher, and its charge and voucher part add up to the total |
| Payments.TransferDeadline | farmeet-backend/src/main/java/com/farmeet/service/PaymentService.java:81-90 | The deadline is the earlier of seven days from now and three days before the event: no later than either, and equal to one of them |
| Payments.BankTransferAllowedIff | farmeet-backend/src/main/java/com/farmeet/service/PaymentService.java:91-97 | A bank transfer is accepted exactly when the event is at least four days away. Its deadline is then at least a day off, and from ten days out it is seven days from now |
| Payments.RefundPercentage | farmeet-backend/src/main/java/com/farmeet/service/PaymentService.java:363-375 | `getRefundPercentage` is always 0, 50 or 100 |
| Payments.RefundIsPercentage | farmeet-backend/src/main/java/com/farmeet/service/PaymentService.java:343-375 | `calculateRefundAmount` equals the charge times `getRefundPercentage` / 100 rounded toward zero: the two tier computations agree |
| Payments.RefundTiers | farmeet-backend/src/main/java/com/farmeet/service/PaymentService.java:343-358 | Four or more whole days before the event refunds the whole charge, one to four days half of it (rounded down), less than a day nothing, and a refund never exceeds a non-negative charge |
| Payments.RefundBoundaries | farmeet-backend/src/main/java/com/farmeet/service/PaymentService.java:346-355 | Exactly four days before still refunds in full and one minute later only half. Exactly one day before refunds half and one minute later nothing |
| Payments.RecordRefund | farmeet-backend/src/main/java/com/farmeet/service/StripeService.java:125-133 | The refund adds to the running total and stamps the time. The status is REFUNDED exactly when the total reaches the charge, PARTIALLY_REFUNDED otherwise, and no other field changes |
| Payments.RecordBankRefund | farmeet-backend/src/main/java/com/farmeet/service/PaymentService.java:318-328 | A bank refund overwrites the refunded amount. REFUNDED exactly when it reaches the charge, PARTIALLY_REFUNDED otherwise, and no other field changes |
| Payments.RefundAccountingsCompared | farmeet-backend/src/main/java/com/farmeet/service/PaymentService.java:302-330 | On a payment never refunded both accountings agree. After an earlier refund the bank accounting forgets it and the cumulative one does not |
| Payments.RefundEffect | farmeet-backend/src/main/java/com/farmeet/service/PaymentService.java:302-330 | A refund of zero or less leaves the payment unchanged. Otherwise cards and PayPay accumulate (RecordRefund) and a bank transfer overwrites (RecordBankRefund) |
| Payments.FullRefundIffFourDays | farmeet-backend/src/main/java/com/farmeet/service/PaymentService.java:302-358 | Cancelling a completed, never refunded, positive payment ends REFUNDED exactly when four whole days remain. Less than a day before it stays COMPLETED, and the refund never exceeds the charge |
| Payments.MarkPaid | farmeet-backend/src/main/java/com/farmeet/service/PaymentService.java:240-242 | Payment received: COMPLETED and stamped, with the charge, voucher part and voucher kept |
| Payments.PaymentCheckout | farmeet-backend/src/main/java/com/farmeet/service/StripeService.java:55-78 | The checkout charges exactly the payment's charge, once, in yen, and is tagged with the reservation and payment ids |
| Payments.PaymentCheckoutIdentifies | farmeet-backend/src/main/java/com/farmeet/service/StripeService.java:75-76 | Equal checkout metadata means the same payment of the same reservation |
| Vouchers.CodeAlphabetSize | farmeet-backend/src/main/java/com/farmeet/service/GiftVoucherService.java:31 | The code alphabet has 32 characters |
| Vouchers.OnCreate | farmeet-backend/src/main/java/com/farmeet/entity/GiftVoucher.java:110-116 | Persisting stamps the creation time and fills a missing balance with the face value. A balance already set is kept, and nothing else changes |
| Vouchers.FreshVoucherDefaults | farmeet-backend/src/main/java/com/farmeet/entity/GiftVoucher.java:40 | A new voucher is PENDING with no owner and no code, and once persisted its balance is its face value |
| Vouchers.UsableCharacterised | farmeet-backend/src/main/java/com/farmeet/entity/GiftVoucher.java:121-125 | PENDING, USED, EXPIRED and CANCELLED vouchers are never usable, nor are ones with no balance or past expiry. An ACTIVE or REDEEMED voucher with money left and no expiry is usable |
| Vouchers.Deduct | farmeet-backend/src/main/java/com/farmeet/service/GiftVoucherService.java:344-351 | The deduction is min(amount, balance): new balance plus deduction is the old balance, and it is USED exactly when the balance reaches zero |
| Vouchers.DeductKeepsBalance | farmeet-backend/src/main/java/com/farmeet/service/GiftVoucherService.java:344-351 | On a usable voucher the balance never goes below zero. Spending at least the balance empties it and marks it USED, and spending less keeps its status |
| Vouchers.Consume | farmeet-backend/src/main/java/com/farmeet/service/PaymentService.java:109-117 | `consumeVoucher` subtracts the amount unchecked, and the voucher is USED exactly when the balance lands on zero |
| Vouchers.ConsumeWithinBalance | farmeet-backend/src/main/java/com/farmeet/service/PaymentService.java:109-117 | Consuming at most the balance of a usable voucher keeps it non-negative. The whole balance leaves it USED and unusable, less keeps it usable |
| Vouchers.ReplayedConsumeOverdraws | farmeet-backend/src/main/java/com/farmeet/service/PaymentService.java:105-120 | Consuming the whole balance twice leaves a USED voucher with a negative balance |
| Vouchers.RedeemRefusal | farmeet-backend/src/main/java/com/farmeet/service/GiftVoucherService.java:265-287 | PENDING, USED, EXPIRED and CANCELLED vouchers are refused with their own error, in the code's order |
| Vouchers.Redeem | farmeet-backend/src/main/java/com/farmeet/service/GiftVoucherService.java:289-293 | Redemption binds the owner, marks REDEEMED and stamps the time, with balance, amount and code unchanged |
| Vouchers.RedeemAcceptedIff | farmeet-backend/src/main/java/com/farmeet/service/GiftVoucherService.java:265-287 | Redemption is accepted exactly for an unowned ACTIVE or REDEEMED voucher. An owned one is refused as already registered to the same user, or as registered to someone else |
| Vouchers.RedeemKeepsUsable | farmeet-backend/src/main/java/com/farmeet/service/GiftVoucherService.java:289-293 | A usable voucher stays usable after redemption |
| Vouchers.Activate | farmeet-backend/src/main/java/com/farmeet/service/GiftVoucherService.java:195-198 | Activation sets the code, ACTIVE and the activation time, and keeps balance, owner and expiry |
| Vouchers.ActivatedPurchaseUsable | farmeet-backend/src/main/java/com/farmeet/entity/GiftVoucher.java:121-125 | A purchased voucher with a balance, activated before its one-year expiry, is usable then and not at expiry |
| Vouchers.UpperAscii | farmeet-backend/src/main/java/com/farmeet/service/GiftVoucherService.java:262 | Upper-casing keeps the length, changes exactly the lower-case letters, and leaves none |
| Vouchers.UpperAsciiFindsCode | farmeet-backend/src/main/java/com/farmeet/service/GiftVoucherService.java:262 | A code typed in any mix of cases upper-cases to the stored code |
| Vouchers.CodeCharNotLower | farmeet-backend/src/main/java/com/farmeet/service/GiftVoucherService.java:31 | No alphabet character is a lower-case letter |
| Vouchers.UpperAt | farmeet-backend/src/main/java/com/farmeet/service/GiftVoucherService.java:262 | Each character upper-cases on its own: a lower-case letter moves 32 code points down, anything else stays |
| PaymentServices.ConsumedVouchers | farmeet-backend/src/main/java/com/farmeet/service/PaymentService.java:105-120 | Only the payment's voucher changes, by its voucher part, becoming USED at zero. No voucher or a zero part changes nothing, and no code changes |
| PaymentServices.ConsumedTwiceOverdraws | farmeet-backend/src/main/java/com/farmeet/service/PaymentService.java:232-254 | Confirming twice a payment whose voucher covered its whole balance leaves that voucher USED with a negative balance |
| PaymentServices.PaymentService.constructor | farmeet-backend/src/main/java/com/farmeet/service/PaymentService.java:25 | The service works on the same tables as its Stripe and PayPay services |
| PaymentServices.PaymentService.Draft | farmeet-backend/src/main/java/com/farmeet/service/PaymentService.java:44-99 | The payment to save is PENDING for that reservation. Charge plus voucher part is the reservation total, the voucher part is min(balance, total) (zero without a voucher), and only a bank transfer has a deadline, the earlier of now + 7 days and event − 3 days |
| PaymentServices.PaymentService.CreatePayment | farmeet-backend/src/main/java/com/farmeet/service/PaymentService.java:40-104 | Refused when the voucher is missing, unusable or another user's, when a bank transfer is asked for less than four days before the event, or when a payment exists, with the first failing check's error; a refusal changes nothing. It succeeds exactly when no check fails, and then exactly the draft is appended and voucher balances are untouched |
| PaymentServices.PaymentService.ConsumeVoucher | farmeet-backend/src/main/java/com/farmeet/service/PaymentService.java:105-120 | The voucher table becomes the consumed table, and nothing else changes |
| PaymentServices.PaymentService.Settle | farmeet-backend/src/main/java/com/farmeet/service/PaymentService.java:134-151 | Consume the voucher, mark the payment COMPLETED, confirm the reservation. Seat balance is kept unless the reservation was cancelled |
| PaymentServices.PaymentService.ConfirmReservationPayment | farmeet-backend/src/main/java/com/farmeet/service/PaymentService.java:286-295 | NotFound for an unknown reservation. Otherwise it is CONFIRMED whatever its status was, and nothing else changes |
| PaymentServices.PaymentService.Prepare | farmeet-backend/src/main/java/com/farmeet/service/PaymentService.java:128-131 | Succeeds exactly when the reservation has a payment or createPayment's checks all pass. An existing payment is reused unchanged; otherwise the draft is appended, and a refusal answers the first failing check's error with nothing changed |
| PaymentServices.PaymentService.InitiateStripePayment | farmeet-backend/src/main/java/com/farmeet/service/PaymentService.java:122-158 | Succeeds exactly when the payment can be found or created and either its charge is zero or the secret key is set and the gateway opens the session. A zero charge settles at once with no gateway call; otherwise the session URL is answered. A refused creation answers its error; no secret key undoes the whole call, and a gateway failure keeps the payment just created |
| PaymentServices.PaymentService.InitiatePayPayPayment | farmeet-backend/src/main/java/com/farmeet/service/PaymentService.java:159-193 | Succeeds exactly when the payment can be found or created; otherwise the first failing check's error is answered with nothing changed. A zero charge settles at once. Otherwise the payment gets a PAYPAY_ id and the mock page of that payment and charge is answered |
| PaymentServices.PaymentService.InitiateBankTransfer | farmeet-backend/src/main/java/com/farmeet/service/PaymentService.java:194-231 | Succeeds exactly when the payment can be found or created; otherwise the first failing check's error is answered with nothing changed. A zero charge settles at once. Otherwise the reservation becomes AWAITING_TRANSFER with its payment pending, and seats stay balanced |
| PaymentServices.PaymentService.ConfirmWith | farmeet-backend/src/main/java/com/farmeet/service/PaymentService.java:237-251 | Refused for an unknown payment or another method. Otherwise it consumes the voucher, completes the payment and confirms the reservation, with no guard against doing so again |
| PaymentServices.PaymentService.ConfirmBankTransfer | farmeet-backend/src/main/java/com/farmeet/service/PaymentService.java:232-258 | Succeeds exactly for a bank-transfer payment, then settles it |
| PaymentServices.PaymentService.CompletePayPayPayment | farmeet-backend/src/main/java/com/farmeet/service/PaymentService.java:259-285 | Succeeds exactly for a PayPay payment, then settles it |
| PaymentServices.PaymentService.ProcessRefund | farmeet-backend/src/main/java/com/farmeet/service/PaymentService.java:296-342 | Succeeds exactly when the reservation has a COMPLETED payment and, for a positive card refund, a payment intent the gateway accepts the refund on. Missing reservations or payments and other statuses are refused. A Stripe refund goes through the gateway first and a failure changes nothing. The payment ends as RefundEffect says |
| PaymentServices.PaymentService.HandleStripeCheckoutComplete | farmeet-backend/src/main/java/com/farmeet/service/PaymentService.java:388-397 | A gateway failure, no payment holding the session id, or two holding it are refused, changing nothing; a retrieved session with one holder succeeds. After the Stripe service's update, a COMPLETED payment consumes its voucher and confirms its reservation, also when it was COMPLETED before |
| StripeIntegration.StripeService.constructor | farmeet-backend/src/main/java/com/farmeet/service/StripeService.java:35 | The service holds the tables and the configured secret key |
| StripeIntegration.StripeService.SessionHolder | farmeet-backend/src/main/java/com/farmeet/repository/PaymentRepository.java:19 | The unique payment holding the session id, Missing exactly when none holds it |
| StripeIntegration.StripeService.CreateCheckoutSession | farmeet-backend/src/main/java/com/farmeet/service/StripeService.java:49-91 | Succeeds exactly when a secret key is set and the gateway opens the session. Without a key it is refused with nothing changed, and a gateway failure changes nothing. On success the session charges the payment's amount and its id is stored on that payment only |
| StripeIntegration.StripeService.HandleCheckoutSessionCompleted | farmeet-backend/src/main/java/com/farmeet/service/StripeService.java:92-111 | The session is retrieved first; a gateway failure, no payment holding its id, or two holding it are refused, and a single holder succeeds. The payment becomes COMPLETED with the intent and time only when the session is complete and paid, else it is answered unchanged |
| StripeIntegration.StripeService.Refund | farmeet-backend/src/main/java/com/farmeet/service/StripeService.java:112-137 | Succeeds exactly when the payment has an intent and the gateway accepts the refund. Without an intent it is refused; the gateway refund comes first and a failure changes nothing; on success the refund accumulates as RecordRefund says |
| PayPayIntegration.PayPayId | farmeet-backend/src/main/java/com/farmeet/service/PayPayService.java:47 | The PayPay id is PAYPAY_ followed by the UUID |
| PayPayIntegration.MockPageUrl | farmeet-backend/src/main/java/com/farmeet/service/PayPayService.java:53-54 | A mock page URL (the same shape for payments and for voucher purchases) starts with the frontend URL and the page path, followed by the parameters |
| PayPayIntegration.MockPageUrlIdentifies | farmeet-backend/src/main/java/com/farmeet/service/PayPayService.java:53-54 | The URL determines the id and the amount it was built from, for payments and voucher purchases alike |
| PayPayIntegration.SplitAtSeparator | farmeet-backend/src/main/java/com/farmeet/service/PayPayService.java:53-54 | A separator absent from both heads splits a text one way only |
| PayPayIntegration.PayPayService.constructor | farmeet-backend/src/main/java/com/farmeet/service/PayPayService.java:37 | The service holds the tables, the key, the secret and the frontend URL |
| PayPayIntegration.PayPayService.PayPayHolder | farmeet-backend/src/main/java/com/farmeet/repository/PaymentRepository.java:21 | The unique payment holding the PayPay id, Missing exactly when none holds it |
| PayPayIntegration.PayPayService.CreatePaymentLink | farmeet-backend/src/main/java/com/farmeet/service/PayPayService.java:45-58 | Only that payment gets the PAYPAY_ id, and the answer is the mock page of that payment and amount |
| PayPayIntegration.PayPayService.HandlePaymentCompleted | farmeet-backend/src/main/java/com/farmeet/service/PayPayService.java:60-73 | Fails with NotFound exactly when no payment holds the id, with a duplicate error when two do, and succeeds on a single holder. That payment becomes COMPLETED and stamped, with vouchers and reservations untouched |
| PayPayIntegration.PayPayService.Refund | farmeet-backend/src/main/java/com/farmeet/service/PayPayService.java:75-93 | The refund accumulates with REFUNDED exactly when the total reaches the charge, and only that payment changes |
| GiftVoucherServices.CodeFrom | farmeet-backend/src/main/java/com/farmeet/service/GiftVoucherService.java:42-52 | A run of sixteen draws below 32 spells a code of sixteen alphabet characters |
| GiftVoucherServices.CodeFromInjective | farmeet-backend/src/main/java/com/farmeet/service/GiftVoucherService.java:42-52 | Different draws spell different codes |
| GiftVoucherServices.AlphabetPositioned | farmeet-backend/src/main/java/com/farmeet/service/GiftVoucherService.java:31 | Each alphabet character sits at the position its letter or digit gives |
| GiftVoucherServices.AlphabetDistinct | farmeet-backend/src/main/java/com/farmeet/service/GiftVoucherService.java:31 | No character occurs twice in the alphabet |
| GiftVoucherServices.GenerateCode | farmeet-backend/src/main/java/com/farmeet/service/GiftVoucherService.java:42-52 | The loop builds exactly the code of the draws, sixteen alphabet characters |
| GiftVoucherServices.MethodNamed | farmeet-backend/src/main/java/com/farmeet/service/GiftVoucherService.java:70 | `PaymentMethod.valueOf` answers the constant of exactly that name, and none when no constant has it |
| GiftVoucherServices.MethodNameRoundTrip | farmeet-backend/src/main/java/com/farmeet/service/GiftVoucherService.java:70 | Every method's name parses back to it |
| GiftVoucherServices.PurchasedVoucher | farmeet-backend/src/main/java/com/farmeet/service/GiftVoucherService.java:59-69 | The purchased voucher has face value and balance equal to the amount, is PENDING, bought by the caller, has no owner or code, expires in a year and records the method |
| GiftVoucherServices.PurchasedThenActivatedUsable | farmeet-backend/src/main/java/com/farmeet/service/GiftVoucherService.java:59-198 | A purchased voucher of positive value, once activated, is usable from activation until a year after purchase, and not after |
| GiftVoucherServices.VoucherCheckout | farmeet-backend/src/main/java/com/farmeet/service/GiftVoucherService.java:101-140 | The voucher checkout charges the face value, once, in yen, tagged with the voucher id and the gift-voucher type |
| GiftVoucherServices.VoucherCheckoutDistinct | farmeet-backend/src/main/java/com/farmeet/service/GiftVoucherService.java:124-125 | A voucher checkout's metadata never equals a reservation payment's |
| GiftVoucherServices.GiftVoucherService.constructor | farmeet-backend/src/main/java/com/farmeet/service/GiftVoucherService.java:35 | The service holds the tables, the Stripe key and the frontend URL |
| GiftVoucherServices.GiftVoucherService.FreshCode | farmeet-backend/src/main/java/com/farmeet/service/GiftVoucherService.java:164-168 | The retry loop ends with the first attempt's code that no voucher holds, a well-formed code |
| GiftVoucherServices.GiftVoucherService.ActivateWithFreshCode | farmeet-backend/src/main/java/com/farmeet/service/GiftVoucherService.java:186-199 | The voucher gets a code no other voucher held and becomes ACTIVE, and nothing else changes |
| GiftVoucherServices.GiftVoucherService.PurchaseGiftVoucher | farmeet-backend/src/main/java/com/farmeet/service/GiftVoucherService.java:53-100 | Unknown and bank-transfer methods are refused, and so is Stripe without a key, with no voucher kept. Stripe saves the PENDING voucher and the session id, or keeps the voucher alone when the gateway fails; PayPay saves it with a PAYPAY_GIFT_ id and answers its mock page |
| GiftVoucherServices.GiftVoucherService.ActivateGiftVoucher | farmeet-backend/src/main/java/com/farmeet/service/GiftVoucherService.java:181-211 | Succeeds exactly on an existing PENDING voucher. Unknown vouchers and vouchers not PENDING are refused with nothing changed. Otherwise it is activated with a fresh code, which is answered |
| GiftVoucherServices.GiftVoucherService.HandlePayPayPaymentComplete | farmeet-backend/src/main/java/com/farmeet/service/GiftVoucherService.java:155-180 | Succeeds exactly on an existing PENDING voucher, with the same refusals and activation as activateGiftVoucher, answering the voucher |
| GiftVoucherServices.GiftVoucherService.SessionVoucher | farmeet-backend/src/main/java/com/farmeet/repository/GiftVoucherRepository.java:48 | The unique voucher holding the session id, Missing exactly when none holds it |
| GiftVoucherServices.GiftVoucherService.HandleStripeCheckoutComplete | farmeet-backend/src/main/java/com/farmeet/service/GiftVoucherService.java:212-239 | A gateway failure, no voucher with the session's id, or two with it are refused; a single holder succeeds. Only a complete and paid session stores the intent and activates with a fresh code, whatever the voucher's status; otherwise it is answered unchanged |
| GiftVoucherServices.GiftVoucherService.RedeemGiftVoucher | farmeet-backend/src/main/java/com/farmeet/service/GiftVoucherService.java:260-302 | The code is looked up upper-cased and the refusals apply in order, changing nothing; it succeeds exactly when the code is found and no refusal applies. Then that voucher alone is redeemed by the caller and its balance answered |
| GiftVoucherServices.GiftVoucherService.UseVoucher | farmeet-backend/src/main/java/com/farmeet/service/GiftVoucherService.java:329-356 | Succeeds exactly when the caller owns the voucher and it is usable. Unknown, unowned, another user's and unusable vouchers are refused, changing nothing. Otherwise min(amount, balance) is deducted from that voucher only and answered |
| ReservationServices.RemoveHyphens | restored_service.java:193 | `replace("-", "")` leaves no hyphen and is never longer |
| ReservationServices.RemoveHyphensAppend | restored_service.java:193 | Removing hyphens distributes over concatenation |
| ReservationServices.RemoveHyphensNone | restored_service.java:193 | A text without hyphens is unchanged |
| ReservationServices.InviteCodeShape | restored_service.java:193 | A fresh invite code is the UUID's first eight characters: eight hex digits |
| ReservationServices.OwnedIds | restored_service.java:41-45 | The user's own reservations: exactly the ids they booked, in increasing order |
| ReservationServices.SortedNoDuplicates | restored_service.java:67 | Sorting a list without duplicates keeps it without duplicates |
| ReservationServices.ReservationService.constructor | restored_service.java:22-35 | The service works on the payment service's tables |
| ReservationServices.ReservationService.GetReservationById | restored_service.java:80-91 | NotFound for an unknown id. The reservation is answered exactly to its booker or its farm's owner, and anyone else is Unauthorized |
| ReservationServices.ReservationService.CreateReservation | farmeet-backend/src/main/java/com/farmeet/service/ReservationService.java:74-108 | Unknown events and parties larger than the free slots are refused with nothing changed. Otherwise the new reservation is appended and the event loses exactly the headcount; validity, seat balance and roster limits are kept |
| ReservationServices.ReservationService.CreateReservationLegacy | farmeet-backend/src/main/java/com/farmeet/service/ReservationService.java:109-112 | Behaves as creating with n adults, no children and no infants |
| ReservationServices.ReservationService.CancelReservation | farmeet-backend/src/main/java/com/farmeet/service/ReservationService.java:114-148 | Succeeds exactly for the booker's reservation that is not cancelled, when it has no COMPLETED payment or processRefund would go through. Unknown, others' and already cancelled reservations are refused. A refund failure changes nothing. Then CANCELLED, the headcount goes back to the event uncapped, and seat balance is kept |
| ReservationServices.ReservationService.GenerateInviteCode | restored_service.java:177-201 | Only the booker gets a code. An existing code is answered unchanged, and otherwise the UUID's first eight hex digits are stored and answered; the code stored is the code answered |
| ReservationServices.ReservationService.CodeHolder | restored_service.java:205 | The unique reservation holding the code, Missing exactly when none holds it |
| ReservationServices.ReservationService.GetReservationByInviteCode | restored_service.java:203-209 | Invalid exactly when no reservation holds the code. Otherwise it answers the one holding it |
| ReservationServices.ReservationService.JoinReservation | restored_service.java:211-275 | Refused, in order: invalid code, the booker, already joined, CANCELLED, the category full; a refusal changes nothing. Otherwise exactly one participant of that category is added under a new key, within the limits |
| ReservationServices.ReservationService.LeaveReservation | restored_service.java:277-287 | Fails exactly when the user is not a participant, changing nothing. Otherwise their rows for that reservation go and every other row stays |
| ReservationServices.ReservationService.RosterOf | restored_service.java:297 | Exactly the participant rows of the reservation |
| ReservationServices.ReservationService.GetParticipants | restored_service.java:289-306 | NotFound for an unknown id. The roster is answered exactly to the booker, the farm's owner and participants, and is that reservation's rows |
| ReservationServices.ReservationService.RemoveParticipant | restored_service.java:308-327 | Only the booker may remove, and only a participant of that reservation; a refusal changes nothing. Otherwise exactly that row is deleted |
| ReservationServices.ReservationService.GetUserReservationsAsDto | restored_service.java:37-70 | The list holds exactly the reservations the user booked or joined, each once, sorted newest first |
| Scheduling.SweepsAreStatusFiltered | farmeet-backend/src/main/java/com/farmeet/scheduler/ReservationScheduler.java:38-78 | Only PENDING_PAYMENT or AWAITING_TRANSFER reservations expire, only CONFIRMED ones complete, and no reservation is due for both |
| Scheduling.DueAfterSameDates | farmeet-backend/src/main/java/com/farmeet/scheduler/ReservationScheduler.java:64-78 | Which reservations are due depends on the event dates, not on the free slots |
| Scheduling.DueForCompletionStep | farmeet-backend/src/main/java/com/farmeet/scheduler/ReservationScheduler.java:42-48 | Looking at one more reservation adds one to the due count exactly when it is due |
| Scheduling.ExpireOne | farmeet-backend/src/main/java/com/farmeet/scheduler/ReservationScheduler.java:84-95 | One more due reservation is CANCELLED and its event gets its headcount back, keeping slots plus held seats |
| Scheduling.SweptRowsKeepShape | farmeet-backend/src/main/java/com/farmeet/scheduler/ReservationScheduler.java:84-95 | The expiry sweep changes only statuses and free slots |
| Scheduling.SweptKeepsBalance | farmeet-backend/src/main/java/com/farmeet/scheduler/ReservationScheduler.java:84-95 | Seats given back are seats no longer held, so a balanced state stays balanced |
| Scheduling.SweepIdempotent | farmeet-backend/src/main/java/com/farmeet/scheduler/ReservationScheduler.java:68-92 | After the expiry sweep nothing is due, so a second run right after releases nothing |
| Scheduling.SweepCancelsExactlyDue | farmeet-backend/src/main/java/com/farmeet/scheduler/ReservationScheduler.java:64-95 | Exactly the due reservations end CANCELLED and all others are unchanged. CONFIRMED and COMPLETED reservations are never touched |
| Scheduling.ExpirePending | farmeet-backend/src/main/java/com/farmeet/scheduler/ReservationScheduler.java:81-97 | The loop over the merged set cancels each due reservation once and counts the set's size |
| Scheduling.CompletePassed | farmeet-backend/src/main/java/com/farmeet/scheduler/ReservationScheduler.java:38-50 | Exactly the due CONFIRMED reservations become COMPLETED and the rest are unchanged. The count is the number due, and held seats are unchanged |
| Scheduling.CompletionIdempotent | farmeet-backend/src/main/java/com/farmeet/scheduler/ReservationScheduler.java:38-48 | After the completion sweep nothing is due for completion |
| Scheduling.ReservationScheduler.constructor | farmeet-backend/src/main/java/com/farmeet/scheduler/ReservationScheduler.java:25 | The scheduler holds the tables |
| Scheduling.ReservationScheduler.UpdateCompletedReservations | farmeet-backend/src/main/java/com/farmeet/scheduler/ReservationScheduler.java:35-59 | Exactly the CONFIRMED reservations whose event has passed become COMPLETED, with no slot change. The count is how many, and seat balance and the other tables are kept |
| Scheduling.ReservationScheduler.CancelExpiredPendingPayments | farmeet-backend/src/main/java/com/farmeet/scheduler/ReservationScheduler.java:61-100 | Exactly the unpaid reservations older than 48 hours or less than 3 hours before their event are cancelled once each with their seats returned. The count is how many, and seat balance is kept |
| Sorting.Insert | farmeet-frontend/lib/recommendation.ts:120 | Inserting into a descending list keeps it descending and adds exactly that element |
| Sorting.SortDesc | farmeet-frontend/lib/recommendation.ts:95-120 | `sort` with a descending comparator gives a descending permutation of its input |
| Sorting.SortDescSameElements | farmeet-frontend/lib/recommendation.ts:120 | The sorted list holds exactly the input's elements |
| Sorting.SortDescOfSorted | restored_service.java:67 | A list already in descending order comes back unchanged |
| Sorting.InsertAtEnd | restored_service.java:67 | An element whose key is not above any other goes last |
| RecentlyViewed.Without | farmeet-frontend/lib/recentlyViewed.ts:40 | The filter removes every entry of that farm, keeps the others in order, and changes nothing when the farm is absent |
| RecentlyViewed.AddedProperties | farmeet-frontend/lib/recentlyViewed.ts:40-50 | After an add the farm heads the list with the new time and occurs nowhere else. The list has one to ten entries, and after the head come the leading old entries of other farms in their old order |
| RecentlyViewed.AddedAgainRefreshes | farmeet-frontend/lib/recentlyViewed.ts:40-50 | Viewing the same farm again only refreshes its time |
| RecentlyViewed.RecentlyViewedStore.constructor | farmeet-frontend/lib/recentlyViewed.ts:18-28 | The store starts with the given slot contents |
| RecentlyViewed.RecentlyViewedStore.Get | farmeet-frontend/lib/recentlyViewed.ts:18-28 | In a browser with a stored list, that list; a non-empty answer always comes from the stored list, otherwise the answer is empty |
| RecentlyViewed.RecentlyViewedStore.Add | farmeet-frontend/lib/recentlyViewed.ts:33-56 | In a browser the slot holds the added list, and on the server nothing changes |
| RecentlyViewed.RecentlyViewedStore.Clear | farmeet-frontend/lib/recentlyViewed.ts:61-64 | In a browser the slot is emptied, so a read afterwards is empty |
| Recommendation.PrefectureFrom | farmeet-frontend/lib/recommendation.ts:37 | The lazy search answers the shortest matching prefix from the given length on, and none when none matches |
| Recommendation.ExtractPrefecture | farmeet-frontend/lib/recommendation.ts:36-39 | The shortest prefix of two or more characters, free of line breaks, ending in 都, 道, 府 or 県, and none when there is none |
| Recommendation.ExtractPrefectureIff | farmeet-frontend/lib/recommendation.ts:36-39 | A prefecture is found exactly when some prefix matches the pattern, and what is found has at least two characters and ends in 都, 道, 府 or 県 |
| Recommendation.PrefecturesOf | farmeet-frontend/lib/recommendation.ts:23-24 | One extracted prefecture per viewed item, in order |
| Recommendation.Tally | farmeet-frontend/lib/recommendation.ts:19-31 | Its keys are exactly the prefectures that occur |
| Recommendation.OccurrencesZero | farmeet-frontend/lib/recommendation.ts:19-31 | A prefecture that is never extracted counts zero |
| Recommendation.OccurrencesPositive | farmeet-frontend/lib/recommendation.ts:19-31 | A prefecture extracted somewhere counts at least one |
| Recommendation.PreferenceCountsMeaning | farmeet-frontend/lib/recommendation.ts:19-31 | The map holds exactly the prefectures of viewed items, each with its count, and items without a prefecture count nowhere |
| Recommendation.TallyStep | farmeet-frontend/lib/recommendation.ts:25-28 | One more item adds one to its own prefecture and nothing else |
| Recommendation.ExtractLocationPreferences | farmeet-frontend/lib/recommendation.ts:19-31 | The `forEach` fills exactly the preference map of the history |
| Recommendation.CalculateScore | farmeet-frontend/lib/recommendation.ts:44-79 | The accumulated score is the sum of the location, rating, unviewed and non-favourite bonuses |
| Recommendation.ScoreBounds | farmeet-frontend/lib/recommendation.ts:53-78 | The location bonus lies in 0 to 90. The rating bonus is zero or at least 15, and at most 35 for ratings up to five. The score is never negative, and an unviewed non-favourite scores at least 15 |
| Recommendation.Filter | farmeet-frontend/lib/recommendation.ts:94-112 | `filter` keeps exactly the elements that pass the test, and is never longer than its input |
| Recommendation.Slice | farmeet-frontend/lib/recommendation.ts:100-121 | `slice(0, limit)` is the longest prefix of at most `limit` elements (a negative limit counting from the back) |
| Recommendation.Scored | farmeet-frontend/lib/recommendation.ts:113-119 | Each candidate paired with its score, in order |
| Recommendation.RecommendedWithoutHistory | farmeet-frontend/lib/recommendation.ts:92-101 | Without history: no favourites, all from the farm list, best rated first; for a non-negative `limit`, exactly `min(limit, n)` farms of the n non-favourites, and no farm left out rated above one kept |
| Recommendation.RecommendedWithHistory | farmeet-frontend/lib/recommendation.ts:104-122 | With history: farms from the list, viewed ones only from five views on, highest score first; for a non-negative `limit`, exactly `min(limit, n)` of the n candidates, and no candidate left out scored above one kept |
| Recommendation.RankedByScore | farmeet-frontend/lib/recommendation.ts:114-122 | Scoring, sorting by score and `slice(0, limit)` keep only candidates, best first, `min(limit, n)` of them, and leave out none scored above one kept |
| Recommendation.ReasonPriority | farmeet-frontend/lib/recommendation.ts:128-152 | The reason is the prefecture when one viewed matches, else the rating from 4.5, else the review count from five, else the default |
| Recommendation.RoundedTenths | farmeet-frontend/lib/recommendation.ts:144 | `toFixed(1)` rounds the magnitude of the number to the nearest tenth, a tie going up |
| Recommendation.ToFixed1Shape | farmeet-frontend/lib/recommendation.ts:144 | The rendered number has exactly one digit after the point, and a minus sign exactly when it is negative, followed by the rendering of its magnitude |
| SeasonData.RowOfId | farmeet-frontend/lib/seasonData.ts:19-241 | Each produce id is found in its own row |
| SeasonData.IdsDistinct | farmeet-frontend/lib/seasonData.ts:19-241 | No two rows of the table share an id |
| SeasonData.MonthsInRange | farmeet-frontend/lib/seasonData.ts:19-241 | Every month in the table lies in 1 to 12 |
| SeasonData.MonthNamesNumbered | farmeet-frontend/lib/seasonData.ts:246 | There are twelve month names and entry i is i + 1 followed by 月 |
| SeasonData.InSeason | farmeet-frontend/lib/seasonData.ts:254 | Holds exactly the items whose months include the month, and is no longer than the table |
| SeasonData.InSeasonPositions | farmeet-frontend/lib/seasonData.ts:254 | The filter's items sit at strictly increasing positions of the input, and every in-season position is among them: exactly the in-season items, in input order |
| SeasonData.ProduceByMonth | farmeet-frontend/lib/seasonData.ts:253-255 | `getProduceByMonth` holds exactly the table's items in season that month |
| SeasonData.ProduceByMonthInTableOrder | farmeet-frontend/lib/seasonData.ts:253-255 | `getProduceByMonth` lists the in-season rows of the table at strictly increasing row numbers, every in-season row included |
| SeasonData.InSeasonOfIsFiltered | farmeet-frontend/lib/seasonData.ts:264 | Filtering by month and category in one pass equals filtering the month's items by category |
| SeasonData.ProduceByMonthAndCategoryIsFiltered | farmeet-frontend/lib/seasonData.ts:263-265 | `getProduceByMonthAndCategory(m, c)` is `getProduceByMonth(m)` filtered to category c |
| SeasonData.NoProduceOutsideCalendar | farmeet-frontend/lib/seasonData.ts:253-255 | Outside 1 to 12 nothing is in season |
| SeasonData.CurrentMonth | farmeet-frontend/lib/seasonData.ts:270-272 | `getCurrentMonth` lies in 1 to 12 |
| LocationFilter.DropLast | farmeet-frontend/components/LocationFilter.tsx:26 | `slice(0, -1)` drops exactly the last character |
| LocationFilter.Keys | farmeet-frontend/components/LocationFilter.tsx:25 | The region names of the groups, in declaration order |
| LocationFilter.FirstRegionIsFirstMatch | farmeet-frontend/components/LocationFilter.tsx:24-31 | The region is the other-region name exactly when no group names the location, and otherwise that of the first group that does |
| LocationFilter.RegionOrderIsKeysThenOther | farmeet-frontend/components/LocationFilter.tsx:12-49 | `regionOrder` is the region keys in order followed by その他 |
| LocationFilter.OtherIsNoKey | farmeet-frontend/components/LocationFilter.tsx:12-21 | No region key is その他 |
| LocationFilter.RegionIsListed | farmeet-frontend/components/LocationFilter.tsx:24-49 | `getRegion` always answers a region that `regionOrder` lists |
| LocationFilter.FirstRegionIsKeyOrOther | farmeet-frontend/components/LocationFilter.tsx:24-31 | The answer is a group's key or その他 |
| LocationFilter.GetRegion | farmeet-frontend/components/LocationFilter.tsx:24-31 | The search loop answers the region of the first group, in order, with a prefecture the location contains or starts with less its last character, else その他 |
| LocationFilter.InRegion | farmeet-frontend/components/LocationFilter.tsx:37-43 | Holds exactly the input locations whose region is the given one |
| LocationFilter.InRegionEmpty | farmeet-frontend/components/LocationFilter.tsx:38-42 | A region no location falls in has an empty group |
| LocationFilter.InRegionKeepsOrder | farmeet-frontend/components/LocationFilter.tsx:37-43 | A group is a subsequence of the input: input order is kept |
| LocationFilter.InRegionAppend | farmeet-frontend/components/LocationFilter.tsx:41 | A new location is appended to its own region's group and changes no other |
| LocationFilter.GroupingStep | farmeet-frontend/components/LocationFilter.tsx:38-42 | Pushing a location onto its region's list, created when missing, keeps the map a grouping of the longer input |
| LocationFilter.GroupingStepKey | farmeet-frontend/components/LocationFilter.tsx:39-41 | After the push the map's regions are the old ones plus the new location's |
| LocationFilter.GroupsPartition | farmeet-frontend/components/LocationFilter.tsx:34-46 | No group is empty, and each location is in the group of its region and no other |
| LocationFilter.GroupLocationsByRegion | farmeet-frontend/components/LocationFilter.tsx:34-46 | The map has one entry per region some location falls in, holding that region's locations in input order |
| LocationFilter.PushLocation | farmeet-frontend/components/LocationFilter.tsx:38-42 | One turn of the loop extends the grouping by that location |
| LocationFilter.RegionOrderNoDuplicates | farmeet-frontend/components/LocationFilter.tsx:49 | `regionOrder` names each region once |
| LocationFilter.ListedIsGathered | farmeet-frontend/components/LocationFilter.tsx:81-94 | The drop-down's options built from the grouping equal the groups recomputed from the locations |
| LocationFilter.GatherAppend | farmeet-frontend/components/LocationFilter.tsx:81-94 | One more location adds one copy to the options when its region is listed, nothing otherwise |
| LocationFilter.GatherAll | farmeet-frontend/components/LocationFilter.tsx:81-94 | With each location's region listed once, the options hold every location as often as the input |
| LocationFilter.GatherEmpty | farmeet-frontend/components/LocationFilter.tsx:81-94 | No locations give no options |
| LocationFilter.EveryLocationListedOnce | farmeet-frontend/components/LocationFilter.tsx:34-94 | The drop-down shows every location exactly as often as it was given: none lost, none shown twice |
| ChatMarkdown.NewlineIndex | farmeet-frontend/components/ChatWidget.tsx:10 | The first newline's index, and none when there is no newline |
| ChatMarkdown.Lines | farmeet-frontend/components/ChatWidget.tsx:10 | `split('\n')`: at least one piece and no piece holds a newline |
| ChatMarkdown.LinesJoin | farmeet-frontend/components/ChatWidget.tsx:10 | Joining the pieces with newlines gives the text back |
| ChatMarkdown.SpaceRun | farmeet-frontend/components/ChatWidget.tsx:76-85 | The length of the leading white space: all white, followed by non-white or the end |
| ChatMarkdown.SpacedTailMeaning | farmeet-frontend/components/ChatWidget.tsx:76-85 | `\s+(.+)$` matches exactly when some split into white space and a non-empty rest free of line breaks exists, and the group is the rest of the split with the longest white space |
| ChatMarkdown.BulletBody | farmeet-frontend/components/ChatWidget.tsx:76 | The bullet pattern matches only lines that start with `-` or `*` |
| ChatMarkdown.DigitRun | farmeet-frontend/components/ChatWidget.tsx:85 | The leading ASCII digits: all digits, followed by a non-digit or the end |
| ChatMarkdown.NumberedBody | farmeet-frontend/components/ChatWidget.tsx:85 | The numbered pattern needs at least one digit and the dot right after all of them |
| ChatMarkdown.NumberedBodyMeaning | farmeet-frontend/components/ChatWidget.tsx:85 | The numbered pattern matches exactly when some digits-and-dot prefix is followed by a spaced tail, and answers that tail |
| ChatMarkdown.DigitsThenDotAtRun | farmeet-frontend/components/ChatWidget.tsx:85 | The dot can only follow all of the leading digits |
| ChatMarkdown.ClassifyMeaning | farmeet-frontend/components/ChatWidget.tsx:74-101 | A line is a bullet item exactly when the bullet pattern matches, numbered exactly when only the numbered one does, blank when neither does and it trims to nothing, and text otherwise |
| ChatMarkdown.LazyClose | farmeet-frontend/components/ChatWidget.tsx:36-47 | The lazy group's length is the shortest that reaches the closing literal without a line break, and none when none does |
| ChatMarkdown.LabelFrom | farmeet-frontend/components/ChatWidget.tsx:47 | The shortest label that can be completed, then the shortest address |
| ChatMarkdown.MatchAt | farmeet-frontend/components/ChatWidget.tsx:36-47 | A match at an index starts there, is at least four characters long and fits in the line |
| ChatMarkdown.BoldMatchMeaning | farmeet-frontend/components/ChatWidget.tsx:36 | A bold match is a doubled delimiter, the shortest text the same delimiter closes, and the delimiter; none means no delimited text starts there |
| ChatMarkdown.LinkMatchMeaning | farmeet-frontend/components/ChatWidget.tsx:47 | A link match has the shortest completable label then the shortest address; none means no label and address fit there |
| ChatMarkdown.FirstHit | farmeet-frontend/components/ChatWidget.tsx:36-47 | The first index in range with a match, and none when there is none |
| ChatMarkdown.FindFrom | farmeet-frontend/components/ChatWidget.tsx:36-47 | `match` answers a match at an index at or after the start |
| ChatMarkdown.FindFromLeftmost | farmeet-frontend/components/ChatWidget.tsx:36-47 | The answer is the leftmost match, and none exactly when no index matches |
| ChatMarkdown.Leading | farmeet-frontend/components/ChatWidget.tsx:38-51 | The text before a match is pushed exactly when it is not empty |
| ChatMarkdown.Step | farmeet-frontend/components/ChatWidget.tsx:34-68 | One turn on a non-empty rest leaves a strictly shorter rest, so the loop ends |
| ChatMarkdown.InlineTurn | farmeet-frontend/components/ChatWidget.tsx:35-68 | One turn of the loop pushes what Step says and leaves what Step leaves |
| ChatMarkdown.ParseInline | farmeet-frontend/components/ChatWidget.tsx:28-72 | The loop produces exactly the pieces of the line |
| ChatMarkdown.PlainLineIsOnePiece | farmeet-frontend/components/ChatWidget.tsx:34-71 | A non-empty line renders as itself in one piece exactly when it holds neither bold nor link markup |
| ChatMarkdown.NoEmptyPlain | farmeet-frontend/components/ChatWidget.tsx:38-67 | No piece is empty text |
| ChatMarkdown.StepPlainNotEmpty | farmeet-frontend/components/ChatWidget.tsx:38-67 | One turn pushes plain text only when there is some |
| ChatMarkdown.BoldInPrefix | farmeet-frontend/components/ChatWidget.tsx:36 | Bold markup found in a prefix is found at the same place in the whole |
| ChatMarkdown.NoBoldBefore | farmeet-frontend/components/ChatWidget.tsx:36-39 | The text before the leftmost bold match holds no bold markup |
| ChatMarkdown.StepPlainIsCut | farmeet-frontend/components/ChatWidget.tsx:36-67 | The only text a turn leaves plain is the text before the leftmost bold, else the leftmost link, else the end |
| ChatMarkdown.CutHasNoBold | farmeet-frontend/components/ChatWidget.tsx:36-50 | The text before that cut holds no bold markup |
| ChatMarkdown.StepPlainHasNoBold | farmeet-frontend/components/ChatWidget.tsx:36-67 | The text one turn leaves plain holds no bold markup |
| ChatMarkdown.PlainHasNoBold | farmeet-frontend/components/ChatWidget.tsx:34-69 | Bold is matched before links: no text left plain holds bold markup |
| ChatMarkdown.RenderAll | farmeet-frontend/components/ChatWidget.tsx:20 | `items.map(parseInline)`: one rendering per item, in order |
| ChatMarkdown.RenderAllAppend | farmeet-frontend/components/ChatWidget.tsx:20 | Rendering distributes over concatenation |
| ChatMarkdown.LinesAppend | farmeet-frontend/components/ChatWidget.tsx:74-101 | Item bodies and paragraph lines distribute over concatenation |
| ChatMarkdown.TrailingRunBodies | farmeet-frontend/components/ChatWidget.tsx:80-89 | The final run of items gives one body per line |
| ChatMarkdown.TrailingRunTexts | farmeet-frontend/components/ChatWidget.tsx:101 | The final run of items gives no paragraph |
| ChatMarkdown.EveryItemListed | farmeet-frontend/components/ChatWidget.tsx:74-104 | Every item line ends up, in order, as an item of some list: none lost, none reordered |
| ChatMarkdown.EveryTextParagraph | farmeet-frontend/components/ChatWidget.tsx:93-101 | Every non-blank non-item line ends up, in order, as a paragraph, and blank lines as nothing |
| ChatMarkdown.NoEmptyList | farmeet-frontend/components/ChatWidget.tsx:16 | No list is rendered without items |
| ChatMarkdown.RunIsOneList | farmeet-frontend/components/ChatWidget.tsx:15-87 | A run of items of one kind that no item of that kind precedes renders as one list of all their bodies |
| ChatMarkdown.RunLength | farmeet-frontend/components/ChatWidget.tsx:78-87 | The trailing run of such a run is the whole run |
| ChatMarkdown.ClassifyAll | farmeet-frontend/components/ChatWidget.tsx:74 | One classification per line, in order |
| ChatMarkdown.FlushList | farmeet-frontend/components/ChatWidget.tsx:15-26 | A list of the set kind with the waiting items is pushed and the state reset; nothing happens when nothing waits or no kind is set |
| ChatMarkdown.FlushedState | farmeet-frontend/components/ChatWidget.tsx:104 | Flushing the final loop state gives the rendering of all lines |
| ChatMarkdown.OtherLineStep | farmeet-frontend/components/ChatWidget.tsx:93-101 | A non-item line flushes the waiting list, then a blank line adds nothing and any other line one paragraph |
| ChatMarkdown.SameKindStep | farmeet-frontend/components/ChatWidget.tsx:78-89 | An item of the kind being collected joins the waiting list |
| ChatMarkdown.NewListStep | farmeet-frontend/components/ChatWidget.tsx:78-89 | An item of another kind flushes the waiting list and starts a new one |
| ChatMarkdown.HandleLine | farmeet-frontend/components/ChatWidget.tsx:74-102 | Each line moves the loop state from the lines before it to the lines including it |
| ChatMarkdown.HandleItem | farmeet-frontend/components/ChatWidget.tsx:76-91 | An item line carries the loop invariant from the lines before it to the lines including it |
| ChatMarkdown.HandleOther | farmeet-frontend/components/ChatWidget.tsx:93-101 | A blank or paragraph line carries the loop invariant from the lines before it to the lines including it |
| ChatMarkdown.ScanLines | farmeet-frontend/components/ChatWidget.tsx:74-102 | After all lines the state is the rendering of those lines, bar the list still waiting |
| ChatMarkdown.ParseSimpleMarkdown | farmeet-frontend/components/ChatWidget.tsx:9-107 | The blocks are exactly the reference rendering: blank lines vanish, other non-items are paragraphs, and each maximal run of one kind is one list |

## Left out

- Controllers, authentication, admin, seeding, migrations, the AI chat, notifications, uploads and the plain data-access services are not part of this model. They only map HTTP requests and exceptions or query the database.
- `checkGiftVoucher`, `getMyVouchers`, `getUsableVouchers`, `toDto` and the DTO mapping in `getUserReservationsAsDto` are field-to-field copies. The model answers ids instead of DTOs.
- `getPaymentByReservationId` is the repository lookup `Store.Database.PaymentFor`. It adds no behaviour of its own.
- The reservation listings by user, by farmer, active and history are queries by status list. Only the two status lists are modelled.
- `StripeService.init` sets the SDK's global API key. The model keeps the key as a field and asks `IsConfigured` instead.
- `PayPayService.isConfigured` is the predicate `PayPayIntegration.PayPayService.IsConfigured`. The service never calls it.
- The Stripe and PayPay network calls are function values whose replies the methods receive. Real HTTP, webhooks and signatures are out of scope.
- `SecureRandom` and `UUID.randomUUID()` are inputs.
- GiftVoucherServices.GiftVoucherService.FreshCode: the do-while loop that repeats until a code is free is modelled over a given finite list of attempts. One attempt is required to be free, so a loop that never ends is not modelled.
- The repository queries `findExpiredPendingPaymentReservations` and `findPendingByEventDateBefore` do not appear in `ReservationRepository.java`, so their queries are not part of this model. Scheduling.ExpiredByTime (created before the deadline) and Scheduling.ExpiredByEvent (event date before the deadline) take their meaning from their names and from the deadlines the scheduler passes, and compare strictly.
- Transactions run one at a time. Concurrency, locking and lost updates are not modelled.
- Time is whole minutes. `plusYears(1)` is taken as 525600 minutes, so leap years are not modelled.
- ReservationServices.ReservationService.CreateReservation: headcounts, free slots and participant counts are Java `int` in the source, and `adults + children + infants` or `availableSlots - totalPeople` can wrap around. The model uses unbounded integers, so a party whose sum overflows is refused for lack of slots instead of passing the check.
- Money is unbounded integer yen. `BigDecimal` scale and `longValue()` truncation of fractional yen are not modelled.
- Recommendation scores and ratings are Dafny `real`, not IEEE doubles. Recommendation.RoundedTenths rounds the exact value, while JavaScript's `toFixed` rounds the nearest double.
- Characters are Dafny `char`s, not UTF-16 code units. `split`, `slice`, `trim` and `toUpperCase` are modelled on that basis, and `toUpperCase` only on ASCII letters.
- ChatMarkdown.ParseSimpleMarkdown: React elements are rendered as `Block` and `Inline` values. The `key` props, class names and the single-piece fragment of `parts.length === 1` are dropped.
- ChatMarkdown.RunIsOneList: that a blank or text line between two runs of one kind gives two lists is part of the reference rendering's definition. It has no lemma of its own.
- The React component of the area filter, its loading state and the API call are left out. Only the grouping and the option order are modelled.
- `getCurrentMonth` takes the zero-based month as an input instead of reading the clock.
