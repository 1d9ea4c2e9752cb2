/** Shared vocabulary of the FarMeet model: optional values, service results,
 *  the error conditions the Spring services raise, repository-style lookups,
 *  time arithmetic in minutes and decimal rendering of integers. */
module Base {

  datatype Option<T> = None | Some(value: T)

  /** `x != null ? x : fallback` */
  function OrElse<T>(o: Option<T>, fallback: T): T
  {
    if o.Some? then o.value else fallback
  }

  /** Every failure a service raises; the Spring code throws a RuntimeException
   *  carrying a message, which the controllers turn into an HTTP status.  One
   *  constructor per distinct message. */
  datatype Error =
    | NotFound                     // "... not found"
    | Unauthorized                 // "Unauthorized"
    | AlreadyCancelled             // "Reservation is already cancelled"
    | NotEnoughSlots               // "Not enough available slots"
    | VoucherNotUsable             // "Gift voucher is not usable"
    | BankTransferUnavailable      // transfer deadline earlier than one day from now
    | WrongPaymentMethod           // "This payment is not a bank transfer" / "... not a PayPay payment"
    | PaymentNotCompleted          // "Payment is not completed, cannot refund"
    | NotConfigured                // "Stripe is not configured"
    | GatewayFailure               // a checked exception from the payment gateway
    | NoPaymentIntent              // "No payment intent ID found"
    | DuplicateKey                 // a unique-key violation or an ambiguous single-row query
    | OwnerCannotJoin              // "Owner cannot join their own reservation"
    | AlreadyJoined                // "Already joined this reservation"
    | ReservationCancelled         // "Reservation is cancelled"
    | CapacityFull                 // "... capacity is full"
    | NotParticipant               // "Not a participant"
    | ParticipantNotInReservation  // "Participant does not belong to this reservation"
    | InvalidInviteCode            // "Invalid invite code"
    | UnknownPaymentMethod         // PaymentMethod.valueOf on an unknown name
    | UnsupportedPaymentMethod     // "Unsupported payment method"
    | AlreadyProcessed             // "Voucher is not in PENDING status"
    | NotActivated                 // "Voucher is not activated yet"
    | VoucherUsed                  // "Voucher has already been used"
    | VoucherExpired               // "Voucher has expired"
    | VoucherCancelled             // "Voucher has been cancelled"
    | AlreadyRegistered            // "You have already registered this voucher"
    | RegisteredToOther            // "This voucher has already been registered by another user"
    | NoOwner                      // the NullPointerException of reading the owner of an unregistered voucher

  datatype Result<T> = Ok(value: T) | Err(error: Error)

  /** Database identities: users, events, reservations, payments, vouchers. */
  type Id = nat

  /** The three payment methods of the Payment entity. */
  datatype PaymentMethod = Stripe | PayPay | BankTransfer

  /** The answer of an external payment gateway call, which may throw. */
  datatype GatewayReply<T> = Replied(reply: T) | GatewayFailed

  // ---------------------------------------------------------------------
  // Repository lookups

  /** Outcome of a Spring Data query that returns an Optional: no row, the one
   *  row, or more than one row (IncorrectResultSizeDataAccessException). */
  datatype Lookup = Missing | Unique(index: nat) | Ambiguous

  function FirstIndex<T>(s: seq<T>, p: T -> bool): (r: Option<nat>)
    ensures r.Some? ==> r.value < |s| && p(s[r.value])
    ensures r.Some? ==> forall j :: 0 <= j < r.value ==> !p(s[j])
    ensures r.None? ==> forall j :: 0 <= j < |s| ==> !p(s[j])
  {
    if |s| == 0 then None
    else if p(s[0]) then Some(0)
    else
      var rest := FirstIndex(s[1..], p);
      if rest.Some? then Some(rest.value + 1) else None
  }

  function FindUnique<T>(s: seq<T>, p: T -> bool): (r: Lookup)
    ensures r.Missing? <==> forall j :: 0 <= j < |s| ==> !p(s[j])
    ensures r.Unique? ==> r.index < |s| && p(s[r.index])
    ensures r.Unique? ==> forall j :: 0 <= j < |s| && j != r.index ==> !p(s[j])
    ensures r.Ambiguous? ==> exists i, j :: 0 <= i < j < |s| && p(s[i]) && p(s[j])
  {
    var first := FirstIndex(s, p);
    if first.None? then Missing
    else
      var i := first.value;
      var later := FirstIndex(s[i + 1..], p);
      if later.None? then
        assert forall j :: i < j < |s| ==> s[j] == s[i + 1..][j - i - 1];
        Unique(i)
      else
        assert s[i + 1 + later.value] == s[i + 1..][later.value];
        Ambiguous
  }

  /** When at most one row matches, the lookup finds it or reports it missing. */
  lemma FindUniqueOfKey<T>(s: seq<T>, p: T -> bool)
    requires forall i, j :: 0 <= i < j < |s| && p(s[i]) && p(s[j]) ==> false
    ensures !FindUnique(s, p).Ambiguous?
  {
  }

  // ---------------------------------------------------------------------
  // Time, in whole minutes

  const MinutesPerHour: int := 60
  const MinutesPerDay: int := 24 * MinutesPerHour
  /** `plusYears(1)` measured over a non-leap year. */
  const MinutesPerYear: int := 365 * MinutesPerDay

  /** Integer division rounding toward zero (Java's `/`, RoundingMode.DOWN). */
  function TruncDiv(a: int, b: int): (q: int)
    requires b > 0
    ensures a >= 0 ==> 0 <= q && q * b <= a < q * b + b
    ensures a < 0 ==> q <= 0 && q * b - b < a <= q * b
  {
    if a >= 0 then a / b else -((-a) / b)
  }

  /** `ChronoUnit.DAYS.between(from, to)`: the whole days between two instants,
   *  counted toward zero. */
  function DaysBetween(from: int, to: int): (d: int)
    ensures to >= from ==> d >= 0 && d * MinutesPerDay <= to - from < (d + 1) * MinutesPerDay
    ensures to < from ==> d <= 0 && (d - 1) * MinutesPerDay < to - from <= d * MinutesPerDay
  {
    TruncDiv(to - from, MinutesPerDay)
  }

  // ---------------------------------------------------------------------
  // Decimal rendering (`String.valueOf(long)`, template-literal numbers)

  predicate IsDigit(c: char)
  {
    '0' <= c <= '9'
  }

  function DigitChar(d: nat): (c: char)
    requires d < 10
    ensures IsDigit(c) && c as int - '0' as int == d
  {
    ['0', '1', '2', '3', '4', '5', '6', '7', '8', '9'][d]
  }

  function NatToString(n: nat): (s: string)
    ensures |s| >= 1
    ensures forall i :: 0 <= i < |s| ==> IsDigit(s[i])
    ensures |s| > 1 ==> s[0] != '0'
    decreases n
  {
    if n < 10 then [DigitChar(n)] else NatToString(n / 10) + [DigitChar(n % 10)]
  }

  function IntToString(i: int): (s: string)
    ensures |s| >= 1
    ensures i < 0 <==> s[0] == '-'
    ensures forall k :: 0 <= k < |s| ==> IsDigit(s[k]) || s[k] == '-'
  {
    if i < 0 then "-" + NatToString(-i) else NatToString(i)
  }

  /** Reads a run of decimal digits (the inverse of NatToString). */
  function DigitsValue(s: string): nat
    requires forall i :: 0 <= i < |s| ==> IsDigit(s[i])
  {
    if |s| == 0 then 0
    else
      assert IsDigit(s[|s| - 1]);
      DigitsValue(s[..|s| - 1]) * 10 + (s[|s| - 1] as int - '0' as int)
  }

  function ParseInt(s: string): int
    requires |s| >= 1
    requires s[0] == '-' ==> forall i :: 1 <= i < |s| ==> IsDigit(s[i])
    requires s[0] != '-' ==> forall i :: 0 <= i < |s| ==> IsDigit(s[i])
  {
    if s[0] == '-' then -(DigitsValue(s[1..]) as int) else DigitsValue(s)
  }

  lemma {:induction false} NatToStringRoundTrip(n: nat)
    ensures DigitsValue(NatToString(n)) == n
    decreases n
  {
    var s := NatToString(n);
    if n >= 10 {
      assert s[..|s| - 1] == NatToString(n / 10);
      NatToStringRoundTrip(n / 10);
    }
  }

  /** The rendered number reads back as itself, sign included. */
  lemma IntToStringRoundTrip(i: int)
    ensures ParseInt(IntToString(i)) == i
  {
    var s := IntToString(i);
    if i < 0 {
      var digits := NatToString(-i);
      assert s == "-" + digits;
      assert s[1..] == digits;
      NatToStringRoundTrip(-i);
    } else {
      assert s == NatToString(i);
      NatToStringRoundTrip(i);
    }
  }

  /** Distinct numbers render differently. */
  lemma IntToStringInjective(i: int, j: int)
    requires IntToString(i) == IntToString(j)
    ensures i == j
  {
    IntToStringRoundTrip(i);
    IntToStringRoundTrip(j);
  }

  function Min(a: int, b: int): (m: int)
    ensures m <= a && m <= b && (m == a || m == b)
  {
    if a <= b then a else b
  }

  function Max(a: int, b: int): (m: int)
    ensures m >= a && m >= b && (m == a || m == b)
  {
    if a >= b then a else b
  }

  /** `r` is `s` with some entries dropped and the rest in their order. */
  predicate SubsequenceOf<T(==)>(r: seq<T>, s: seq<T>)
  {
    if |r| == 0 then true
    else if |s| == 0 then false
    else if r[0] == s[0] then SubsequenceOf(r[1..], s[1..])
    else SubsequenceOf(r, s[1..])
  }

  /** A prefix of a subsequence is a subsequence. */
  lemma {:induction false} PrefixOfSubsequence<T>(r: seq<T>, s: seq<T>, n: nat)
    requires SubsequenceOf(r, s) && n <= |r|
    ensures SubsequenceOf(r[..n], s)
  {
    if n > 0 && |s| > 0 {
      if r[0] == s[0] {
        PrefixOfSubsequence(r[1..], s[1..], n - 1);
        assert r[..n][1..] == r[1..][..n - 1];
      } else {
        PrefixOfSubsequence(r, s[1..], n);
      }
    }
  }

  /** Appending the same element to both sides keeps a subsequence. */
  lemma {:induction false} SubsequenceAppend<T>(r: seq<T>, s: seq<T>, x: T)
    requires SubsequenceOf(r, s)
    ensures SubsequenceOf(r + [x], s + [x])
  {
    if |r| == 0 {
      SubsequenceOfSelf(s + [x], [x]);
      assert r + [x] == [x];
    } else if r[0] == s[0] {
      SubsequenceAppend(r[1..], s[1..], x);
      assert (r + [x])[1..] == r[1..] + [x];
      assert (s + [x])[1..] == s[1..] + [x];
    } else {
      SubsequenceAppend(r, s[1..], x);
      assert (s + [x])[1..] == s[1..] + [x];
    }
  }

  /** A sequence ending in `x` has `[x]` as a subsequence. */
  lemma {:induction false} SubsequenceOfSelf<T>(s: seq<T>, t: seq<T>)
    requires |t| == 1 && |s| >= 1 && s[|s| - 1] == t[0]
    ensures SubsequenceOf(t, s)
  {
    if s[0] != t[0] {
      SubsequenceOfSelf(s[1..], t);
    } else {
      assert t[1..] == [];
    }
  }

  /** Appending to the longer side only keeps a subsequence. */
  lemma {:induction false} SubsequenceWiden<T>(r: seq<T>, s: seq<T>, x: T)
    requires SubsequenceOf(r, s)
    ensures SubsequenceOf(r, s + [x])
  {
    if |r| > 0 {
      assert (s + [x])[1..] == s[1..] + [x];
      if r[0] == s[0] {
        SubsequenceWiden(r[1..], s[1..], x);
      } else {
        SubsequenceWiden(r, s[1..], x);
      }
    }
  }

  /** A JavaScript line terminator: what `.` in a regular expression does not
   *  match. */
  predicate LineTerminator(c: char)
  {
    c == '\n' || c == '\r' || c == '\U{2028}' || c == '\U{2029}'
  }
}
