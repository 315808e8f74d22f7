/** The M-Pesa C2B callback (rentals/views.py, c2b_callback): a payment notification is matched
    to a hire by its bill reference, a transaction id already on record is acknowledged without
    writing anything, and otherwise one successful payment is recorded and the hire is saved as
    paid, which assigns its asset. */
module Views {
  import opened Wrappers
  import opened Models
  import opened Persistence

  /** TransAmount as the parser sees it: a missing key defaults to 0, a number or numeric string
      is converted, and a value float() cannot convert (null, a non-numeric string, a list)
      fails. Amounts are in cents. */
  datatype AmountField = AmountAbsent | AmountGiven(cents: int) | AmountUnparseable

  /** The request body after decoding: bytes that are not UTF-8, text that is not JSON, JSON
      that is not an object (it has no fields to read), or an object with the fields consumed.
      A field that is missing or null is None. */
  datatype Body =
    | NotUtf8
    | InvalidJson
    | NotAnObject
    | Payload(transId: Option<string>, msisdn: Option<string>, transAmount: AmountField, billRefNumber: Option<string>)

  datatype Request = Request(httpMethod: string, body: Body)

  /** The JSON acknowledgment: ResultCode 0 accepts, 1 rejects. */
  datatype Response = Response(resultCode: int, resultDesc: string)

  /** A response together with the database it leaves behind. */
  datatype Outcome = Outcome(response: Response, db: Db)

  const InvalidMethod := Response(1, "Invalid request method")
  const MissingBillRef := Response(1, "Missing BillRefNumber")
  const HireNotFound := Response(1, "Hire not found")
  const DuplicateIgnored := Response(0, "Duplicate transaction ignored")
  const Received := Response(0, "Payment received successfully")
  const InvalidJsonPayload := Response(1, "Invalid JSON payload")
  const InternalError := Response(1, "Internal server error")

  /** The amount a parseable TransAmount stands for. */
  function Amount(a: AmountField): int
    requires !a.AmountUnparseable?
  {
    if a.AmountGiven? then a.cents else 0
  }

  /** The payment the callback records for hire i of db. */
  function ReceivedPayment(db: Db, i: HireId, amount: int, phone: string, transId: Option<string>, now: int): Payment
    requires i < |db.hires|
  {
    Payment(i, db.hires[i].reference, amount, phone, transId, Success, Some(now))
  }

  /** The callback as a function of the database before it: the chain of early returns, in the
      source's order. An exception raised inside the handler (a body that cannot be decoded, a
      payload that is not an object, an amount that does not convert, the NOT NULL phone column
      refusing a missing MSISDN) is answered with the generic internal error; each of these is
      raised before the payment is created, so nothing is written. */
  function Callback(db: Db, req: Request, now: int): Outcome
    requires Valid(db)
  {
    if req.httpMethod != "POST" then Outcome(InvalidMethod, db)
    else match req.body
      case NotUtf8 => Outcome(InternalError, db)
      case InvalidJson => Outcome(InvalidJsonPayload, db)
      case NotAnObject => Outcome(InternalError, db)
      case Payload(transId, msisdn, transAmount, billRef) =>
        if transAmount.AmountUnparseable? then Outcome(InternalError, db)
        else if billRef.None? || billRef.value == "" then Outcome(MissingBillRef, db)
        else match FindByReference(db.hires, billRef.value)
          case None => Outcome(HireNotFound, db)
          case Some(i) =>
            if HasReceipt(db.payments, transId) then Outcome(DuplicateIgnored, db)
            else if msisdn.None? then Outcome(InternalError, db)
            else
              var recorded := WithPayment(db, ReceivedPayment(db, i, Amount(transAmount), msisdn.value, transId, now));
              Outcome(Received, Saved(recorded, Some(i), db.hires[i].(status := Paid)))
  }

  /** c2b_callback against the store; now is the clock reading used for paid_at. */
  method C2bCallback(store: Store, req: Request, now: int) returns (response: Response)
    requires store.Valid()
    modifies store
    ensures store.Valid()
    ensures Outcome(response, store.State()) == Callback(old(store.State()), req, now)
  {
    if req.httpMethod != "POST" {
      return InvalidMethod;
    }
    match req.body {
      case NotUtf8 =>
        return InternalError;
      case InvalidJson =>
        return InvalidJsonPayload;
      case NotAnObject =>
        return InternalError;
      case Payload(transId, msisdn, transAmount, billRef) =>
        if transAmount.AmountUnparseable? {
          return InternalError;
        }
        var amount := if transAmount.AmountGiven? then transAmount.cents else 0;
        if billRef.None? || billRef.value == "" {
          return MissingBillRef;
        }
        var found := store.FindHire(billRef.value);
        if found.None? {
          return HireNotFound;
        }
        var i := found.value;
        var duplicate := store.ReceiptExists(transId);
        if duplicate {
          return DuplicateIgnored;
        }
        if msisdn.None? {
          return InternalError;
        }
        var hire := store.hires[i];
        var paymentId := store.InsertPayment(Payment(i, hire.reference, amount, msisdn.value, transId, Success, Some(now)));
        assert store.hires == old(store.hires);
        var hireId := store.SaveHire(Some(i), hire.(status := Paid));
        return Received;
    }
  }

  // ---------------------------------------------------------------------------
  // Properties of the callback
  // ---------------------------------------------------------------------------

  /** A request that is not a POST is rejected and writes nothing. */
  lemma NonPostRejected(db: Db, req: Request, now: int)
    requires Valid(db) && req.httpMethod != "POST"
    ensures Callback(db, req, now) == Outcome(InvalidMethod, db)
  {
  }

  /** A missing or empty BillRefNumber is rejected and writes nothing; the answer is the same
      whatever the tables hold, so no hire is looked up. */
  lemma MissingReferenceRejected(db: Db, other: Db, req: Request, now: int)
    requires Valid(db) && Valid(other)
    requires req.httpMethod == "POST" && req.body.Payload? && !req.body.transAmount.AmountUnparseable?
    requires req.body.billRefNumber.None? || req.body.billRefNumber.value == ""
    ensures Callback(db, req, now) == Outcome(MissingBillRef, db)
    ensures Callback(other, req, now).response == Callback(db, req, now).response
  {
  }

  /** A BillRefNumber that no hire carries is rejected and writes nothing. */
  lemma UnknownReferenceRejected(db: Db, req: Request, now: int)
    requires Valid(db)
    requires req.httpMethod == "POST" && req.body.Payload? && !req.body.transAmount.AmountUnparseable?
    requires req.body.billRefNumber.Some? && req.body.billRefNumber.value != ""
    requires forall j :: 0 <= j < |db.hires| ==> db.hires[j].reference != req.body.billRefNumber.value
    ensures Callback(db, req, now) == Outcome(HireNotFound, db)
  {
  }

  /** A transaction id already on some payment is acknowledged as a duplicate and writes nothing. */
  lemma DuplicateAcknowledged(db: Db, req: Request, now: int, i: HireId)
    requires Valid(db)
    requires req.httpMethod == "POST" && req.body.Payload? && !req.body.transAmount.AmountUnparseable?
    requires req.body.billRefNumber.Some? && req.body.billRefNumber.value != ""
    requires i < |db.hires| && db.hires[i].reference == req.body.billRefNumber.value
    requires HasReceipt(db.payments, req.body.transId)
    ensures Callback(db, req, now) == Outcome(DuplicateIgnored, db)
  {
  }

  /** The success path: exactly one payment is appended (the matched hire, its reference, the
      amount, the phone, the transaction id, status success, paid now); the hire becomes paid
      and its asset assigned; no person, no other hire and no other asset changes. */
  lemma PaymentRecorded(db: Db, req: Request, now: int, i: HireId)
    requires Valid(db)
    requires req.httpMethod == "POST" && req.body.Payload? && !req.body.transAmount.AmountUnparseable?
    requires req.body.billRefNumber.Some? && req.body.billRefNumber.value != ""
    requires i < |db.hires| && db.hires[i].reference == req.body.billRefNumber.value
    requires !HasReceipt(db.payments, req.body.transId) && req.body.msisdn.Some?
    ensures var o := Callback(db, req, now);
      var a := db.hires[i].asset;
      o.response == Received &&
      o.db.payments == db.payments + [Payment(i, req.body.billRefNumber.value, Amount(req.body.transAmount),
                                              req.body.msisdn.value, req.body.transId, Success, Some(now))] &&
      o.db.hires == db.hires[i := db.hires[i].(status := Paid)] &&
      o.db.assets == db.assets[a := db.assets[a].(status := Assigned)] &&
      o.db.persons == db.persons
  {
  }

  /** Every path answers with ResultCode 0 or 1; every rejection (code 1) writes nothing; code 0
      means a payment with the notified transaction id exists afterwards; and the tables change
      only on the success path. */
  lemma ResultCodes(db: Db, req: Request, now: int)
    requires Valid(db)
    ensures var o := Callback(db, req, now);
      (o.response.resultCode == 0 || o.response.resultCode == 1) &&
      (o.response.resultCode == 1 ==> o.db == db) &&
      (o.response.resultCode == 0 ==> req.body.Payload? && HasReceipt(o.db.payments, req.body.transId)) &&
      (o.db != db ==> o.response == Received)
  {
    var o := Callback(db, req, now);
    if o.response == Received {
      var p := o.db.payments[|o.db.payments| - 1];
      assert p.mpesaReceipt == req.body.transId;
    }
  }

  /** The callback keeps the database valid. */
  lemma CallbackPreservesValid(db: Db, req: Request, now: int)
    requires Valid(db)
    ensures Valid(Callback(db, req, now).db)
  {
  }

  /** After a recorded payment, the same notification finds that payment and is ignored. */
  lemma RedeliveryIsDuplicate(db: Db, req: Request, now: int, later: int)
    requires Valid(db) && Callback(db, req, now).response == Received
    ensures Valid(Callback(db, req, now).db)
    ensures var first := Callback(db, req, now);
      Callback(first.db, req, later) == Outcome(DuplicateIgnored, first.db) &&
      CountReceipt(first.db.payments, req.body.transId) == 1
  {
    CallbackPreservesValid(db, req, now);
    var first := Callback(db, req, now);
    var Payload(transId, msisdn, transAmount, billRef) := req.body;
    var i := FindByReference(db.hires, billRef.value).value;
    var p := ReceivedPayment(db, i, Amount(transAmount), msisdn.value, transId, now);
    var recorded := WithPayment(db, p);
    var h := db.hires[i].(status := Paid);
    assert first.db == Saved(recorded, Some(i), h);
    SaveFrame(recorded, Some(i), h);
    assert first.db.payments == db.payments + [p];
    assert first.db.hires[i].reference == billRef.value;
    assert HasReceipt(first.db.payments, transId) by {
      assert first.db.payments[|db.payments|] == p;
    }
    DuplicateAcknowledged(first.db, req, later, i);
    assert first.db.payments[..|db.payments|] == db.payments;
    CountReceiptPositive(db.payments, transId);
  }

  /** Idempotence on TransID: delivering the same notification again writes nothing more; a
      rejection or a duplicate is answered the same way again, and after a recorded payment the
      redelivery is the duplicate outcome, with exactly one payment carrying that receipt. */
  lemma CallbackIdempotent(db: Db, req: Request, now: int, later: int)
    requires Valid(db)
    ensures Valid(Callback(db, req, now).db)
    ensures var first := Callback(db, req, now);
      var second := Callback(first.db, req, later);
      second.db == first.db &&
      second.response == (if first.response == Received then DuplicateIgnored else first.response) &&
      (first.response == Received ==> CountReceipt(second.db.payments, req.body.transId) == 1)
  {
    CallbackPreservesValid(db, req, now);
    ResultCodes(db, req, now);
    if Callback(db, req, now).response == Received {
      RedeliveryIsDuplicate(db, req, now, later);
    } else {
      assert Callback(db, req, now).db == db;
    }
  }

  // ---------------------------------------------------------------------------
  // The lookup as written against the declared Hire model
  // ---------------------------------------------------------------------------

  /** The callback as written against the Hire model as declared, which has no reference_id
      field: the filter on it raises a field error, which the generic handler turns into the
      internal error. Every path before the lookup is as in Callback. */
  function CallbackAsWritten(db: Db, req: Request, now: int): Outcome
    requires Valid(db)
  {
    if req.httpMethod == "POST" && req.body.Payload? && !req.body.transAmount.AmountUnparseable? &&
       req.body.billRefNumber.Some? && req.body.billRefNumber.value != ""
    then Outcome(InternalError, db)
    else Callback(db, req, now)
  }

  /** As written, no notification is ever recorded: every request leaves the tables unchanged
      and none is acknowledged as received. */
  lemma AsWrittenNeverRecords(db: Db, req: Request, now: int)
    requires Valid(db)
    ensures CallbackAsWritten(db, req, now).db == db
    ensures CallbackAsWritten(db, req, now).response != Received
  {
  }

  /** The notification of the worked delivery below: as written it is answered with the internal
      error and the payment is lost, while the callback with the reference field records it. */
  lemma AsWrittenLosesPayment(now: int)
    ensures var db := Db([Person("A. Hirer", "12345678", None, "254700000000", None)],
                         [Asset("Motorbike", "Boxer", "KMAA001A", Assigned)],
                         [Hire(0, 0, 0, 7, 50000, Active, "AB12CD34EF56")],
                         []);
      var req := Request("POST", Payload(Some("T1"), Some("254700000000"), AmountGiven(50000), Some("AB12CD34EF56")));
      Valid(db) &&
      CallbackAsWritten(db, req, now) == Outcome(InternalError, db) &&
      Callback(db, req, now).response == Received
  {
  }

  /** A worked delivery: hire AB12CD34EF56 is active and its asset assigned; notification T1 for
      500.00 records one successful payment, leaves the hire paid and the asset assigned, and
      its redelivery is ignored as a duplicate with still one payment. */
  lemma ReplayScenario(now: int, later: int)
    ensures var db := Db([Person("A. Hirer", "12345678", None, "254700000000", None)],
                         [Asset("Motorbike", "Boxer", "KMAA001A", Assigned)],
                         [Hire(0, 0, 0, 7, 50000, Active, "AB12CD34EF56")],
                         []);
      var req := Request("POST", Payload(Some("T1"), Some("254700000000"), AmountGiven(50000), Some("AB12CD34EF56")));
      Valid(db) &&
      var first := Callback(db, req, now);
      var second := Callback(first.db, req, later);
      first.response == Received &&
      first.db.payments == [Payment(0, "AB12CD34EF56", 50000, "254700000000", Some("T1"), Success, Some(now))] &&
      first.db.hires[0].status == Paid && first.db.assets[0].status == Assigned &&
      second.response == DuplicateIgnored && |second.db.payments| == 1
  {
    var db := Db([Person("A. Hirer", "12345678", None, "254700000000", None)],
                 [Asset("Motorbike", "Boxer", "KMAA001A", Assigned)],
                 [Hire(0, 0, 0, 7, 50000, Active, "AB12CD34EF56")],
                 []);
    var req := Request("POST", Payload(Some("T1"), Some("254700000000"), AmountGiven(50000), Some("AB12CD34EF56")));
    assert Valid(db);
    PaymentRecorded(db, req, now, 0);
    CallbackIdempotent(db, req, now, later);
  }
}
