/**
 * The request handlers that drive the pipeline: the Stripe webhook, the
 * synthetic `/test` trigger and `/logs`, with the two sinks they share.
 *
 * External calls are not made here: each sink records the request it would
 * send as a `SinkCall`, and what the service answers is passed in as a
 * `SinkResult`, so every contract holds whatever the services do.
 */
module Intake {
  import opened Common
  import opened Text
  import opened Payment
  import opened RingLog
  import Alert
  import Record

  /** What an external call gave back: an identifier, or the message of the error it threw. */
  datatype SinkResult = Succeeded(id: string) | Failed(message: string)

  /** A request sent to an external service. */
  datatype SinkCall =
    | GmailSend(userId: string, raw: string)
    | AirtableCreate(table: string, fields: map<string, Record.FieldValue>)

  /**
   * What the two sink calls of one request give back, and the clock readings
   * taken when each sink writes its log line.
   */
  datatype SinkOutcomes = SinkOutcomes(
    gmail: SinkResult, gmailLoggedAt: string,
    airtable: SinkResult, airtableLoggedAt: string)

  /** The outcome of `stripe.webhooks.constructEvent`: the event, or the message of the error it threw. */
  datatype Verification = Verified(event: Event) | Rejected(message: string)

  /** `200 {received: true}` or `400 "Webhook Error: <message>"`. */
  datatype WebhookResponse = Received | BadRequest(body: string)

  /** `200 {success: true, testData}` or `500 {error}`. */
  datatype TestResponse = TestOk(testData: FailedPayment) | TestError(message: string)

  /** The log line the Gmail sink writes for an outcome. */
  function AlertLogEntry(p: FailedPayment, o: SinkOutcomes): LogEntry {
    LogEntry(o.gmailLoggedAt,
      if o.gmail.Succeeded? then "Alert sent for " + p.paymentId else "Gmail error: " + o.gmail.message)
  }

  /** The log line the Airtable sink writes for an outcome. */
  function RecordLogEntry(o: SinkOutcomes): LogEntry {
    LogEntry(o.airtableLoggedAt,
      if o.airtable.Succeeded? then "Added to Airtable: " + o.airtable.id else "Airtable error: " + o.airtable.message)
  }

  /**
   * The requests one run of both sinks sends: one Gmail send, then one
   * Airtable create. They depend on the payment and the configuration only,
   * never on what either service answers.
   */
  function SinkCalls(p: FailedPayment, alertEmail: Option<string>): seq<SinkCall> {
    [GmailSend("me", Alert.EncodedMessage(p, alertEmail)), AirtableCreate(Record.TableName, Record.Fields(p))]
  }

  /** The log after both sinks have run, each adding its one line. */
  function LogAfterSinks(log: seq<LogEntry>, p: FailedPayment, o: SinkOutcomes): seq<LogEntry> {
    Appended(Appended(log, AlertLogEntry(p, o)), RecordLogEntry(o))
  }

  /**
   * Running both sinks on a log within capacity leaves the last `Capacity`
   * entries of the old log followed by the Gmail line and then the Airtable
   * line: those two lines end the log, and only the oldest entries are
   * evicted.
   */
  lemma LogAfterSinksEndsWithBoth(log: seq<LogEntry>, p: FailedPayment, o: SinkOutcomes)
    requires |log| <= Capacity
    ensures LogAfterSinks(log, p, o) == Last(log + [AlertLogEntry(p, o), RecordLogEntry(o)], Capacity)
    ensures var r := LogAfterSinks(log, p, o);
      2 <= |r| <= Capacity && r[|r| - 2] == AlertLogEntry(p, o) && r[|r| - 1] == RecordLogEntry(o)
  {
    var es := [AlertLogEntry(p, o), RecordLogEntry(o)];
    AppendedAllIsLast(log, es);
    assert es[1..][1..] == [];
    assert AppendedAll(log, es) == LogAfterSinks(log, p, o);
  }

  /** `sendGmailAlert`: one send attempt, whose outcome is caught and logged. */
  method SendGmailAlert(log: Log, p: FailedPayment, alertEmail: Option<string>, o: SinkOutcomes)
    returns (call: SinkCall)
    requires log.Valid()
    modifies log
    ensures log.Valid()
    ensures call == GmailSend("me", Alert.EncodedMessage(p, alertEmail))
    ensures log.entries == Appended(old(log.entries), AlertLogEntry(p, o))
  {
    var raw := Alert.EncodedMessage(p, alertEmail);
    call := GmailSend("me", raw);
    match o.gmail
    case Succeeded(_) =>
      log.Add(o.gmailLoggedAt, "Alert sent for " + p.paymentId);
    case Failed(message) =>
      log.Add(o.gmailLoggedAt, "Gmail error: " + message);
  }

  /** `addToAirtable`: one create attempt, whose outcome is caught and logged. */
  method AddToAirtable(log: Log, p: FailedPayment, o: SinkOutcomes) returns (call: SinkCall)
    requires log.Valid()
    modifies log
    ensures log.Valid()
    ensures call == AirtableCreate(Record.TableName, Record.Fields(p))
    ensures log.entries == Appended(old(log.entries), RecordLogEntry(o))
  {
    call := AirtableCreate(Record.TableName, Record.Fields(p));
    match o.airtable
    case Succeeded(id) =>
      log.Add(o.airtableLoggedAt, "Added to Airtable: " + id);
    case Failed(message) =>
      log.Add(o.airtableLoggedAt, "Airtable error: " + message);
  }

  /** Both sinks, one after the other; the second runs whatever the first gave back. */
  method RunSinks(log: Log, p: FailedPayment, alertEmail: Option<string>, o: SinkOutcomes)
    returns (calls: seq<SinkCall>)
    requires log.Valid()
    modifies log
    ensures log.Valid()
    ensures calls == SinkCalls(p, alertEmail)
    ensures log.entries == LogAfterSinks(old(log.entries), p, o)
  {
    var first := SendGmailAlert(log, p, alertEmail, o);
    var second := AddToAirtable(log, p, o);
    calls := [first, second];
  }

  /**
   * `processFailedPayment` on a payment-failed event: normalise it, then run
   * both sinks on the result.
   */
  method ProcessFailedPayment(log: Log, e: Event, isoString: int -> string, alertEmail: Option<string>, o: SinkOutcomes)
    returns (calls: seq<SinkCall>)
    requires IsPaymentFailed(e)
    requires log.Valid()
    modifies log
    ensures log.Valid()
    ensures calls == SinkCalls(Normalize(e, isoString), alertEmail)
    ensures log.entries == LogAfterSinks(old(log.entries), Normalize(e, isoString), o)
  {
    var p := Normalize(e, isoString);
    calls := RunSinks(log, p, alertEmail, o);
  }

  /**
   * `POST /webhook/stripe`. A delivery that fails verification gets 400 with
   * the verifier's message, and no sink runs and nothing is logged. A
   * verified delivery always gets `{received: true}`; if it is a
   * payment-failed event each sink is attempted exactly once, Gmail first,
   * whatever either answers; any other event type runs no sink.
   */
  method HandleWebhook(log: Log, v: Verification, isoString: int -> string, alertEmail: Option<string>, o: SinkOutcomes)
    returns (response: WebhookResponse, calls: seq<SinkCall>)
    requires log.Valid()
    modifies log
    ensures log.Valid()
    ensures v.Rejected? ==> response == BadRequest("Webhook Error: " + v.message)
    ensures v.Verified? ==> response == Received
    ensures v.Rejected? || !IsPaymentFailed(v.event) ==> calls == [] && log.entries == old(log.entries)
    ensures v.Verified? && IsPaymentFailed(v.event) ==>
      calls == SinkCalls(Normalize(v.event, isoString), alertEmail) &&
      log.entries == LogAfterSinks(old(log.entries), Normalize(v.event, isoString), o)
  {
    calls := [];
    match v
    case Rejected(message) =>
      response := BadRequest("Webhook Error: " + message);
      return;
    case Verified(event) =>
      if event.eventType == PaymentFailedType {
        calls := ProcessFailedPayment(log, event, isoString, alertEmail, o);
      }
      response := Received;
  }

  /**
   * The fixed payment `POST /test` sends through the sinks: its id is
   * "test_" followed by the current time in milliseconds, and the other
   * fields are the sentinels below.
   */
  function TestPayment(nowMs: nat, nowIso: string): (p: FailedPayment)
    ensures p.paymentId == "test_" + Decimal(nowMs)
    ensures |p.paymentId| > 5 && p.paymentId[..5] == "test_"
    ensures AllDigits(p.paymentId[5..]) && DecimalValue(p.paymentId[5..]) == nowMs
    ensures p.customerEmail == "test@example.com" && p.amount == 5000 && p.currency == "usd"
    ensures p.failureCode == "card_declined" && p.failureMessage == "Test failure" && p.failedAt == nowIso
  {
    var id := "test_" + Decimal(nowMs);
    assert id[5..] == Decimal(nowMs);
    FailedPayment(id, "test@example.com", 5000, "usd", "card_declined", "Test failure", nowIso)
  }

  /**
   * `POST /test`: both sinks run on the test payment exactly as on the
   * webhook path. Since each sink catches its own errors, the 500 answer is
   * never produced, under the assumption that every sink failure is an
   * error carrying a message (`SinkResult.Failed`).
   */
  method HandleTest(log: Log, nowMs: nat, nowIso: string, alertEmail: Option<string>, o: SinkOutcomes)
    returns (response: TestResponse, calls: seq<SinkCall>)
    requires log.Valid()
    modifies log
    ensures log.Valid()
    ensures response == TestOk(TestPayment(nowMs, nowIso))
    ensures calls == SinkCalls(TestPayment(nowMs, nowIso), alertEmail)
    ensures log.entries == LogAfterSinks(old(log.entries), TestPayment(nowMs, nowIso), o)
  {
    var testData := TestPayment(nowMs, nowIso);
    calls := RunSinks(log, testData, alertEmail, o);
    response := TestOk(testData);
  }

  /** `GET /logs`: the last `RecentWindow` entries, oldest first; the log is not changed. */
  method HandleLogs(log: Log) returns (shown: seq<LogEntry>)
    ensures |shown| == Min(RecentWindow, |log.entries|)
    ensures forall i :: 0 <= i < |shown| ==> shown[i] == log.entries[|log.entries| - |shown| + i]
  {
    shown := log.Recent(RecentWindow);
  }
}
