# Stripe payment-failure monitor: a Dafny model of its intake pipeline

The service takes `payment_intent.payment_failed` webhooks from Stripe and
verifies them. It turns each one into a `paymentData` record and sends that
record to two sinks, one after the other. The first is a Gmail alert, whose
message is built as text and sent base64url-encoded in the `raw` field. The
second is a new row in the Airtable table "Failed Payments". Every sink
outcome goes into an in-memory diagnostic log that keeps the last 50 entries,
and `GET /logs` shows the last 20 of them. `POST /test` sends a fixed test
payment through the same two sinks.

This project models that pipeline in `index.js`:

- `common.dfy` (`Common`): `Option` for fields that a loosely typed payload may omit, and `Byte`.
- `text.dfy` (`Text`):
  - JavaScript's `||` fallback on an optional string.
  - Decimal rendering of non-negative integers.
  - `join('\n')`, with `split('\n')` as its inverse.
- `utf8.dfy` (`Utf8`): the UTF-8 encoding that `Buffer.from(message)` applies, plus a strict decoder as its partner.
- `base64url.dfy` (`Base64Url`):
  - The source's chain: standard base64 (section 4 of RFC 4648), then `+`→`-` and `/`→`_`, then trailing `=` removed.
  - This chain is proved equal to unpadded base64url (section 5 of RFC 4648).
  - It is also proved to decode back to the input bytes.
- `ring_log.dfy` (`RingLog`): class `Log`, which holds the log as a `seq` field. `Add` is `addLog`. `Recent` is the `slice(-k)` view used by `/logs`.
- `payment.dfy` (`Payment`): the event envelope, and `Normalize`, the mapping that builds `paymentData`.
- `alert.dfy` (`Alert`): the recipient, the amount rendering, the subject, the body, the message and the encoded `raw` field. The body template's three lines are written as a `'\n'`-join of those lines, which gives the same text.
- `record.dfy` (`Record`): the eight-field Airtable row, with a reader that inverts it.
- `intake.dfy` (`Intake`):
  - The two sinks.
  - `processFailedPayment`.
  - The `/webhook/stripe`, `/test` and `/logs` handlers, as methods over the shared `Log`.

External answers are inputs to these methods:

- The signature check is a `Verification` value.
- Each Gmail or Airtable answer is a `SinkResult`.
- Every clock reading is a string, or a number for `Date.now()`.

Each sink-driving handler returns the `SinkCall`s it would send. The contracts therefore
state, for every possible answer, which requests go out, in what order, and
what ends up in the log.

In `index.js`:

- The Gmail sink's success line holds the payment id (`Alert sent for <id>`); nothing from Gmail's answer is logged. The Airtable sink's success line holds the created row's id (`Added to Airtable: <id>`).
- A rejected webhook writes no log entry.
- Each `addLog` call contains no `await`, so on Node's single thread it runs to completion and no entry is lost or duplicated; there is no lock.

## Model

| member | source | states |
|---|---|---|
| `RingLog.Log.constructor` | index.js:29 | the log starts empty and within capacity |
| `RingLog.Log.Add` | index.js:31-36 | after `addLog` the log is the last min(50, n+1) entries of the old log followed by the new entry, and stays within 50 |
| `RingLog.Log.Recent` | index.js:141 | returns exactly the last min(k, n) entries in chronological order, without changing the log |
| `RingLog.Last` | index.js:35 | `slice(-k)` is the suffix of length min(k, n), so it keeps order |
| `RingLog.AppendedEvictsOldest` | index.js:31-36 | one append keeps the bound and puts the new entry last; below capacity nothing is lost, and at capacity exactly the oldest entry goes |
| `RingLog.AppendedAllIsLast` | index.js:31-36 | any series of appends leaves exactly the last 50 of everything logged, in logging order: only the oldest entries are ever evicted |
| `RingLog.RecentAfterAppends` | index.js:141 | after any series of appends, `/logs` shows the last 20 of everything logged, in order (e.g. the last 20 of 60 appends) |
| `Payment.Normalize` | index.js:90-100 | copies id, amount and currency; an absent or empty email, code or message (falsy for the `or` fallback) becomes `Unknown`, `unknown` or `Payment failed`, and a present one is copied; `failed_at` is the ISO text of `created * 1000` |
| `Payment.NormalizeDefaultsNonEmpty` | index.js:94-98 | the email, code and message of a normalised payment are never empty |
| `Payment.NormalizeEmptyEmailIsAbsent` | index.js:94 | an empty `receipt_email` normalises exactly like an absent one |
| `Text.Decimal` | index.js:41 | decimal text of a natural number: only digits, at least one, no leading zero, and it denotes the number |
| `Text.TwoDigits` | index.js:41 | exactly two digits that denote a value below 100 |
| `Text.SplitJoin` | index.js:43-50 | joining newline-free lines with `'\n'` and splitting on `'\n'` gives the lines back |
| `Text.JoinSplit` | index.js:50 | splitting any string on `'\n'` and re-joining gives the string back |
| `Text.JoinNested` | index.js:41-50 | a body of lines joined with `'\n'` and joined again as the last element reads as all the lines joined |
| `Utf8.EncodeChar` | index.js:52 | each character takes one to four bytes, and exactly one byte when it is ASCII |
| `Utf8.Encode` | index.js:52 | the UTF-8 bytes of a string number between n and 4n |
| `Utf8.DecodeFirstEncodeChar` | index.js:52 | the decoder reads one encoded character back off the front of any byte string |
| `Utf8.DecodeEncode` | index.js:52 | decoding the UTF-8 encoding of any string gives the string back |
| `Utf8.EncodeAscii` | index.js:52 | on ASCII text the encoding is one byte per character, equal to its code |
| `Base64Url.UrlChar` | index.js:52 | each 6-bit value gets a character of the URL-safe alphabet, never `+`, `/` or `=`, and that character decodes back to the value |
| `Base64Url.Group` | index.js:52 | one to three bytes give one more 6-bit group than bytes |
| `Base64Url.Sextets` | index.js:52 | n bytes give 4⌊n/3⌋ + (0, 2 or 3) six-bit groups |
| `Base64Url.StdCharSpecial` | index.js:52 | in the standard alphabet `+` and `/` stand for 62 and 63 only, and `=` is never a digit |
| `Base64Url.ReplacedIsUrl` | index.js:52 | the two `replace` calls turn standard base64 into the URL-safe text followed by the untouched padding |
| `Base64Url.StripOneMore` | index.js:52 | removing a trailing run of `=` also removes one more `=` appended to it |
| `Base64Url.StripPadding` | index.js:52 | `replace(/=+$/, '')` removes exactly the padding |
| `Base64Url.UngroupGroup` | index.js:52 | the 6-bit groups of one to three bytes carry exactly those bytes |
| `Base64Url.BytesOfSextets` | index.js:52 | the six-bit groups decode back to the bytes they were cut from |
| `Base64Url.UrlDecodeEncode` | index.js:52 | unpadded base64url decoding inverts unpadded base64url encoding |
| `Base64Url.GmailRaw` | index.js:52 | the source's encoding chain equals unpadded base64url: only URL-safe characters (no `+`, `/`, `=`), length 4⌊n/3⌋ + (0, 2, 3), and it decodes to the input bytes |
| `Base64Url.GmailRawInjective` | index.js:52 | different messages never give the same `raw` text |
| `Alert.Recipient` | index.js:46 | `ALERT_EMAIL` when it is set and non-empty, otherwise `admin@example.com` |
| `Alert.RenderAmount` | index.js:41 | `(amount/100).toFixed(2)`: major-unit digits without a leading zero (just `0` below 100), a point, then two digits, which together denote the amount; no newline |
| `Alert.MessageHasLines` | index.js:40-50 | the message lines are, in order: content type, `MIME-Version: 1.0`, `To: `+recipient, `Subject: Payment Failed: `+email, an empty line, `Payment ID: …`, `Amount: $X.YY`, `Reason: …` |
| `Alert.EncodedMessage` | index.js:52-56 | the `raw` field uses only the URL-safe alphabet, and decoding it as base64url and then UTF-8 gives the message back |
| `Alert.RenderAmountExample` | index.js:41 | 5000 renders as `50.00` and 5 as `0.05` |
| `Record.MajorUnits` | index.js:72 | the stored amount times 100 is the amount in minor units |
| `Record.Fields` | index.js:69-78 | exactly the eight named fields; `Status` is always `New`; every other field is the matching payment field (`Amount` is `amount`/100) |
| `Record.FieldsRoundTrip` | index.js:69-78 | reading the row back gives the payment: nothing is lost |
| `Record.FieldsAmountExample` | index.js:72 | 5000 minor units are stored as 50 |
| `Intake.LogAfterSinksEndsWithBoth` | index.js:103-104 | after both sinks the log holds the Gmail line and then the Airtable line at its end, stays within 50, and keeps its surviving older entries in place |
| `Intake.SendGmailAlert` | index.js:38-63 | one Gmail send of the encoded message; either outcome is caught, and exactly one line is logged (`Alert sent for <id>` or `Gmail error: <message>`) |
| `Intake.AddToAirtable` | index.js:65-85 | one create of the eight-field row in `Failed Payments`; either outcome is caught, and exactly one line is logged (`Added to Airtable: <id>` or `Airtable error: <message>`) |
| `Intake.RunSinks` | index.js:103-104 | Gmail is attempted and then Airtable, each exactly once, whatever Gmail answered |
| `Intake.ProcessFailedPayment` | index.js:87-105 | normalises the event, then runs both sinks on the result |
| `Intake.HandleWebhook` | index.js:107-122 | on failed verification: 400 `Webhook Error: <message>`, no sink, no log line. When verified, always `{received: true}`. For a payment-failed event, exactly the two sink requests in order; for any other type, none |
| `Intake.TestPayment` | index.js:146-154 | the test payment's id is exactly `test_` followed by the decimal millisecond time, without leading zeros; the other fields are the fixed sentinels (`test@example.com`, 5000, `usd`, `card_declined`, `Test failure`) |
| `Intake.HandleTest` | index.js:144-163 | `/test` drives both sinks on the test payment like the webhook does, and always answers with the test data (given that every sink failure carries a message) |
| `Intake.HandleLogs` | index.js:140-142 | `/logs` returns the last min(20, n) entries in chronological order |

## Left out

- Express routing and middleware (index.js:26-27). Because `express.json()` is mounted before `express.raw` (index.js:26-27), an `application/json` delivery reaches `constructEvent` (index.js:112) already parsed, and Stripe's verifier rejects a parsed body; the unconstrained `Verification` input covers this, so `Rejected` may be the usual outcome as the code is written.
- `app.listen` with its start-up log line (index.js:165-167) and the static `/` and `/health` endpoints: HTTP plumbing.
- `stripe.webhooks.constructEvent` (index.js:112) is a library call. Its result is a `Verification` input.
- The Gmail and Airtable network calls (index.js:54-57, 67-68) are not made. The request each would send is returned as a `SinkCall`. Its answer is a `SinkResult` input.
- The clock: `new Date().toISOString()` and `Date.now()` (index.js:32, 147, 153) are parameters. `new Date(ms).toISOString()` (index.js:99) is the function parameter `isoString`.
- Floating point:
  - `amount / 100` (index.js:72) is an exact rational (`real`), not an IEEE double.
  - `toFixed(2)` (index.js:41) is integer division and remainder.
  - The exponent notation that `toFixed` uses from 10^21 upwards is not modelled.
- Lone UTF-16 surrogates, which `Buffer.from` turns into U+FFFD (index.js:52), cannot occur: Dafny strings hold Unicode scalar values only.
- `console.log` (index.js:34), configuration loading (index.js:7-24) and the Airtable base id.
  - `ALERT_EMAIL` is the `alertEmail` parameter.
- Concurrency across requests is not modelled: the model runs one request at a time. In the source every `await` yields to the event loop (the Gmail send and Airtable create at index.js:54 and 68, and the awaits at index.js:103-104, 118 and 156-157). At each of these, another delivery's handler can run, append its own log lines and send its own sink requests.
- `Payment.Normalize` takes `id`, `amount` and `currency` as always present in a payment-intent object. It does not model `undefined` flowing into the sinks.
- `Intake.ProcessFailedPayment` requires a payment-failed event. It does not model the branch that sends an empty `paymentData` (`{}`) through both sinks (index.js:88, 101-104). That branch cannot be reached: the webhook makes the same type test before calling (index.js:117).
- `RingLog.Log.Recent` returns nothing for k = 0, whereas JavaScript's `slice(-0)` returns the whole array. The source only asks for 20.
- `Alert.MessageHasLines` states the line structure only when the recipient, email, id and reason contain no newline. A newline inside one of them would split it across message lines.
- `Intake.SendGmailAlert`, `Intake.AddToAirtable`, `Intake.RunSinks`, `Intake.HandleTest`: every sink failure is assumed to be an Error carrying a message (`SinkResult.Failed(message)`). In the source a call that rejects with `null` or `undefined` makes `error.message` in the catch block throw (index.js:60-61, 82-83); `sendGmailAlert` then rejects, `addToAirtable` is never reached (index.js:104), `/test` answers 500 (index.js:160-161) and the webhook handler rejects without a response. The model does not capture that path, so "Airtable runs whatever Gmail answered" and "`/test` never answers 500" hold only under this assumption.
- `Payment.Normalize`: `new Date(event.created * 1000).toISOString()` (index.js:99) throws a RangeError when |created| exceeds 8.64e12 seconds; `isoString` is total, so that exception, which would escape the webhook handler, is not modelled.
- `Intake.LogAfterSinksEndsWithBoth`: its statements that the Gmail line and the Airtable line are adjacent and end the log hold only when no other request overlaps. The same goes for the log `ensures` of `Intake.RunSinks`, `Intake.ProcessFailedPayment`, `Intake.HandleWebhook` and `Intake.HandleTest`. With overlapping deliveries, other requests' lines can fall between the two lines or after both.
