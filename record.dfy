/**
 * The Airtable row: the eight named fields created in the
 * "Failed Payments" table for one failed payment.
 */
module Record {
  import opened Common
  import opened Payment

  const TableName := "Failed Payments"

  /** The workflow status every new row starts in. */
  const NewStatus := "New"

  /** A cell value: text, or a number (kept as an exact rational). */
  datatype FieldValue = TextValue(text: string) | NumberValue(number: real)

  const FieldNames: set<string> :=
    {"Payment ID", "Customer Email", "Amount", "Currency", "Failure Code", "Failure Message", "Failed At", "Status"}

  /** `amount / 100`: minor units converted to major units. */
  function MajorUnits(amount: nat): (x: real)
    ensures 0.0 <= x && x * 100.0 == amount as real
  {
    amount as real / 100.0
  }

  /**
   * The `fields` object of the create request. It has exactly the eight
   * named fields; Status is always "New" and each other field comes from
   * the matching field of the payment (the amount in major units).
   */
  function Fields(p: FailedPayment): (m: map<string, FieldValue>)
    ensures m.Keys == FieldNames
    ensures m["Status"] == TextValue(NewStatus)
    ensures m["Payment ID"] == TextValue(p.paymentId) && m["Customer Email"] == TextValue(p.customerEmail)
    ensures m["Amount"] == NumberValue(MajorUnits(p.amount)) && m["Currency"] == TextValue(p.currency)
    ensures m["Failure Code"] == TextValue(p.failureCode) && m["Failure Message"] == TextValue(p.failureMessage)
    ensures m["Failed At"] == TextValue(p.failedAt)
  {
    map[
      "Payment ID" := TextValue(p.paymentId),
      "Customer Email" := TextValue(p.customerEmail),
      "Amount" := NumberValue(MajorUnits(p.amount)),
      "Currency" := TextValue(p.currency),
      "Failure Code" := TextValue(p.failureCode),
      "Failure Message" := TextValue(p.failureMessage),
      "Failed At" := TextValue(p.failedAt),
      "Status" := TextValue(NewStatus)]
  }

  function TextField(m: map<string, FieldValue>, name: string): Option<string> {
    if name in m && m[name].TextValue? then Some(m[name].text) else None
  }

  /** A non-negative number of major units back in minor units, when it is a whole number of them. */
  function MinorUnits(x: real): Option<nat> {
    if 0.0 <= x && ((x * 100.0).Floor) as real == x * 100.0 then Some((x * 100.0).Floor) else None
  }

  /** Reading a row back into a payment; None when a field is missing or has the wrong kind of value. */
  function FromFields(m: map<string, FieldValue>): Option<FailedPayment> {
    var id := TextField(m, "Payment ID");
    var email := TextField(m, "Customer Email");
    var currency := TextField(m, "Currency");
    var code := TextField(m, "Failure Code");
    var message := TextField(m, "Failure Message");
    var at := TextField(m, "Failed At");
    var amount := if "Amount" in m && m["Amount"].NumberValue? then MinorUnits(m["Amount"].number) else None;
    if id.Some? && email.Some? && currency.Some? && code.Some? && message.Some? && at.Some? && amount.Some? then
      Some(FailedPayment(id.value, email.value, amount.value, currency.value, code.value, message.value, at.value))
    else None
  }

  /** Nothing about a payment is lost in its row: reading the row back gives the payment. */
  lemma FieldsRoundTrip(p: FailedPayment)
    ensures FromFields(Fields(p)) == Some(p)
  {
    var x := MajorUnits(p.amount);
    assert x * 100.0 == p.amount as real;
    assert MinorUnits(x) == Some(p.amount);
  }

  /** The test payment's 5000 minor units are stored as 50 major units. */
  lemma FieldsAmountExample(p: FailedPayment)
    requires p.amount == 5000
    ensures Fields(p)["Amount"] == NumberValue(50.0)
  {
  }
}
