/**
 * The Gmail alert: subject, three-line body and header block joined with
 * newlines, then UTF-8 and base64url encoded into the `raw` request field.
 */
module Alert {
  import opened Common
  import opened Text
  import opened Payment
  import Utf8
  import opened Base64Url

  const DefaultRecipient := "admin@example.com"
  const ContentTypeHeader := "Content-Type: text/plain; charset=\"UTF-8\""
  const MimeVersionHeader := "MIME-Version: 1.0"

  /** `process.env.ALERT_EMAIL || 'admin@example.com'`. */
  function Recipient(alertEmail: Option<string>): (to: string)
    ensures Truthy(alertEmail) ==> to == alertEmail.value
    ensures !Truthy(alertEmail) ==> to == DefaultRecipient
  {
    OrElse(alertEmail, DefaultRecipient)
  }

  /**
   * `(amount / 100).toFixed(2)` for an amount in minor units: the major
   * units in decimal, a point, and exactly two digits of minor units,
   * together denoting the amount.
   */
  function RenderAmount(amount: nat): (s: string)
    ensures 4 <= |s| && s[|s| - 3] == '.'
    ensures AllDigits(s[..|s| - 3]) && AllDigits(s[|s| - 2..])
    ensures DecimalValue(s[..|s| - 3]) * 100 + DecimalValue(s[|s| - 2..]) == amount
    ensures s[0] == '0' ==> |s| == 4
    ensures '\n' !in s
  {
    var whole := Decimal(amount / 100);
    var cents := TwoDigits(amount % 100);
    var s := whole + "." + cents;
    assert s[..|s| - 3] == whole && s[|s| - 2..] == cents;
    assert forall i :: 0 <= i < |s| && i != |s| - 3 ==> IsDigit(s[i]);
    s
  }

  /** `Payment Failed: <email>`. */
  function Subject(p: FailedPayment): string {
    "Payment Failed: " + p.customerEmail
  }

  /** The three body lines: payment id, amount in major units, reason. */
  function BodyLines(p: FailedPayment): seq<string> {
    ["Payment ID: " + p.paymentId, "Amount: $" + RenderAmount(p.amount), "Reason: " + p.failureMessage]
  }

  /** The body: its three lines separated by newlines. */
  function Body(p: FailedPayment): string {
    JoinLines(BodyLines(p))
  }

  /** The header block and the empty line that ends it. */
  function HeaderLines(p: FailedPayment, alertEmail: Option<string>): seq<string> {
    [ContentTypeHeader, MimeVersionHeader, "To: " + Recipient(alertEmail), "Subject: " + Subject(p), ""]
  }

  /** The header block, an empty line and the body, joined with newlines. */
  function Message(p: FailedPayment, alertEmail: Option<string>): string {
    JoinLines(HeaderLines(p, alertEmail) + [Body(p)])
  }

  /** A newline in `a + b` is a newline in `a` or in `b`. */
  lemma NoNewlineConcat(a: string, b: string)
    requires '\n' !in a && '\n' !in b
    ensures '\n' !in a + b
  {
  }

  /** The two fixed header lines hold no newline. */
  lemma FixedHeadersHaveNoBreaks()
    ensures '\n' !in ContentTypeHeader && '\n' !in MimeVersionHeader
  {
  }

  /** The header lines hold no newline when the recipient and the email hold none. */
  lemma HeaderLinesHaveNoBreaks(p: FailedPayment, alertEmail: Option<string>)
    requires '\n' !in Recipient(alertEmail) && '\n' !in p.customerEmail
    ensures NoLineBreaks(HeaderLines(p, alertEmail))
  {
    FixedHeadersHaveNoBreaks();
    NoNewlineConcat("To: ", Recipient(alertEmail));
    NoNewlineConcat("Payment Failed: ", p.customerEmail);
    NoNewlineConcat("Subject: ", Subject(p));
  }

  /** The body lines hold no newline when the id and the reason hold none. */
  lemma BodyLinesHaveNoBreaks(p: FailedPayment)
    requires '\n' !in p.paymentId && '\n' !in p.failureMessage
    ensures NoLineBreaks(BodyLines(p))
  {
    NoNewlineConcat("Payment ID: ", p.paymentId);
    NoNewlineConcat("Amount: $", RenderAmount(p.amount));
    NoNewlineConcat("Reason: ", p.failureMessage);
  }

  /**
   * The message reads, line by line: the content type, the MIME version, the
   * recipient, the subject, an empty line, then payment id, amount and
   * reason, provided the recipient, email, id and reason hold no newline.
   */
  lemma MessageHasLines(p: FailedPayment, alertEmail: Option<string>)
    requires '\n' !in Recipient(alertEmail)
    requires '\n' !in p.customerEmail && '\n' !in p.paymentId && '\n' !in p.failureMessage
    ensures SplitLines(Message(p, alertEmail)) == HeaderLines(p, alertEmail) + BodyLines(p)
  {
    var head, body := HeaderLines(p, alertEmail), BodyLines(p);
    JoinNested(head, body);
    HeaderLinesHaveNoBreaks(p, alertEmail);
    BodyLinesHaveNoBreaks(p);
    assert NoLineBreaks(head + body) by {
      forall i | 0 <= i < |head + body| ensures '\n' !in (head + body)[i] {
        if i >= |head| {
          assert (head + body)[i] == body[i - |head|];
        }
      }
    }
    SplitJoin(head + body);
  }

  /**
   * The `raw` field sent to Gmail: the message's UTF-8 bytes in unpadded
   * base64url. It uses only the URL-safe alphabet, and decoding it as
   * base64url and then as UTF-8 gives the message back.
   */
  function EncodedMessage(p: FailedPayment, alertEmail: Option<string>): (raw: string)
    ensures forall i :: 0 <= i < |raw| ==> IsUrlChar(raw[i])
    ensures UrlDecode(raw).Some? && Utf8.Decode(UrlDecode(raw).value) == Some(Message(p, alertEmail))
  {
    Utf8.DecodeEncode(Message(p, alertEmail));
    GmailRaw(Utf8.Encode(Message(p, alertEmail)))
  }

  /** The amount of the synthetic test payment renders as in its example. */
  lemma RenderAmountExample()
    ensures RenderAmount(5000) == "50.00"
    ensures RenderAmount(5) == "0.05"
  {
  }
}
