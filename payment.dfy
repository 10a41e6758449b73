/**
 * The upstream event envelope and the normaliser that turns a
 * `payment_intent.payment_failed` event into the record both sinks consume.
 */
module Payment {
  import opened Common
  import opened Text

  /** The one event type the pipeline acts on. */
  const PaymentFailedType := "payment_intent.payment_failed"

  const UnknownEmail := "Unknown"
  const UnknownCode := "unknown"
  const DefaultFailureMessage := "Payment failed"

  /** `last_payment_error`: both of its fields may be absent. */
  datatype PaymentError = PaymentError(code: Option<string>, message: Option<string>)

  /**
   * `event.data.object` of a payment-intent event. The processor always sends
   * `id`, `amount` (minor units) and `currency`; `receipt_email` and
   * `last_payment_error` may be absent or null.
   */
  datatype PaymentIntent = PaymentIntent(
    id: string,
    amount: nat,
    currency: string,
    receiptEmail: Option<string>,
    lastPaymentError: Option<PaymentError>)

  /** A verified event envelope: its type, its creation time in Unix seconds and its object. */
  datatype Event = Event(eventType: string, created: int, intent: PaymentIntent)

  /** `paymentData`: what both sinks receive. */
  datatype FailedPayment = FailedPayment(
    paymentId: string,
    customerEmail: string,
    amount: nat,
    currency: string,
    failureCode: string,
    failureMessage: string,
    failedAt: string)

  predicate IsPaymentFailed(e: Event) {
    e.eventType == PaymentFailedType
  }

  /** `pi.last_payment_error?.code`. */
  function ErrorCode(pi: PaymentIntent): Option<string> {
    if pi.lastPaymentError.Some? then pi.lastPaymentError.value.code else None
  }

  /** `pi.last_payment_error?.message`. */
  function ErrorMessage(pi: PaymentIntent): Option<string> {
    if pi.lastPaymentError.Some? then pi.lastPaymentError.value.message else None
  }

  /**
   * The normaliser. `isoString` stands for `new Date(ms).toISOString()`.
   * Identifier, amount and currency are copied; each optional field that is
   * absent, null or empty (falsy, since the source uses `||`) becomes its
   * default, and otherwise is copied; the failure time is the ISO text of the
   * creation time in milliseconds. It never fails (`isoString` is total here;
   * the source's `toISOString` can throw on out-of-range times).
   */
  function Normalize(e: Event, isoString: int -> string): (p: FailedPayment)
    ensures p.paymentId == e.intent.id && p.amount == e.intent.amount && p.currency == e.intent.currency
    ensures Truthy(e.intent.receiptEmail) ==> p.customerEmail == e.intent.receiptEmail.value
    ensures !Truthy(e.intent.receiptEmail) ==> p.customerEmail == UnknownEmail
    ensures Truthy(ErrorCode(e.intent)) ==> p.failureCode == ErrorCode(e.intent).value
    ensures !Truthy(ErrorCode(e.intent)) ==> p.failureCode == UnknownCode
    ensures Truthy(ErrorMessage(e.intent)) ==> p.failureMessage == ErrorMessage(e.intent).value
    ensures !Truthy(ErrorMessage(e.intent)) ==> p.failureMessage == DefaultFailureMessage
    ensures p.failedAt == isoString(e.created * 1000)
  {
    var pi := e.intent;
    FailedPayment(
      pi.id,
      OrElse(pi.receiptEmail, UnknownEmail),
      pi.amount,
      pi.currency,
      OrElse(ErrorCode(pi), UnknownCode),
      OrElse(ErrorMessage(pi), DefaultFailureMessage),
      isoString(e.created * 1000))
  }

  /**
   * Whatever the envelope omits, the three defaulted fields of the normalised
   * record are never empty: the sinks always have an email, a code and a
   * reason to show.
   */
  lemma NormalizeDefaultsNonEmpty(e: Event, isoString: int -> string)
    ensures Normalize(e, isoString).customerEmail != ""
    ensures Normalize(e, isoString).failureCode != ""
    ensures Normalize(e, isoString).failureMessage != ""
  {
  }

  /**
   * An email that is absent and one that is the empty string normalise
   * alike: the source's `||` treats both as missing.
   */
  lemma NormalizeEmptyEmailIsAbsent(e: Event, isoString: int -> string)
    requires e.intent.receiptEmail == Some("")
    ensures Normalize(e, isoString) == Normalize(e.(intent := e.intent.(receiptEmail := None)), isoString)
  {
  }
}
