/**
 * The student fee ledger behind `POST /students`, `GET /students` and
 * `POST /fees`: the stored `StudentFee` records of every owner, a student
 * registration that validates its input and creates a record with fixed
 * initial values, and a fee payment that finds one record, adds the amount
 * to it in place and describes the receipt that is emailed.
 */
module Ledger {
  import opened Wrappers
  import opened Text
  import opened Money
  import opened ObjectIds
  import opened StudentFeeSchema
  import opened Analytics

  // ---- Registration ----

  /** `totalFees` as a request body carries it: text (what the form sends) or a JSON number (here in paise). */
  datatype FeeField = FeeText(text: string) | FeeNumber(paise: Paise)

  /** The body of `POST /students`; an absent text field reads as "", which is just as falsy. */
  datatype StudentRequest = StudentRequest(name: string, standard: string, email: string, totalFees: FeeField)

  /** JavaScript truthiness of the `totalFees` field: "" and 0 are falsy, the text "0" is not. */
  predicate FeeGiven(f: FeeField)
  {
    match f
    case FeeText(t) => t != ""
    case FeeNumber(n) => n != 0
  }

  /** `!name || !standard || !email || !totalFees` */
  predicate MissingRequiredField(req: StudentRequest)
  {
    req.name == "" || req.standard == "" || req.email == "" || !FeeGiven(req.totalFees)
  }

  /** `Number(totalFees)`; `None` is NaN. */
  function FeeValue(f: FeeField): (v: Option<Paise>)
    ensures f.FeeNumber? ==> v == Some(f.paise)
    ensures f.FeeText? ==> (v.Some? <==> AmountText(Trim(f.text)))
  {
    match f
    case FeeText(t) => ParseAmountExact(t); ParseAmount(t)
    case FeeNumber(n) => Some(n)
  }

  /** 201 with the new record, 400 "Missing required fields", or 500 when saving fails. */
  datatype RegisterResponse = Created(student: StudentFee) | MissingFields | RegisterFailed

  /** The record a valid registration creates: nothing paid yet, mode "Pending", dates left to default. */
  function RegisteredStudent(id: ObjectId, owner: ObjectId, req: StudentRequest, fees: Paise, now: Date): (r: StudentFee)
    ensures r.id == id && r.owner == owner && r.totalFees == fees
    ensures r.name == req.name && r.standard == req.standard && r.email == req.email
    ensures r.dateOfAdmission == now && r.paymentDate == now
    ensures Remaining(r) == fees
    ensures IsFullyPaid(r) <==> fees == 0
    ensures Conforms(r) <==> req.name != "" && req.standard != "" && req.email != "" && ValidDate(now)
  {
    NewStudentFee(id, req.name, req.standard, req.email, fees, 0, "Pending", owner, now)
  }

  /**
   * A registration that passes the field check adds one student to its
   * owner's dashboard, adds nothing to the revenue, and counts as fully paid
   * exactly when its total fee is 0 (the text "0" passes the check).
   */
  lemma RegistrationStats(records: seq<StudentFee>, id: ObjectId, owner: ObjectId, req: StudentRequest, fees: Paise, now: Date)
    ensures var before, after := Stats(records, owner), Stats(records + [RegisteredStudent(id, owner, req, fees, now)], owner);
      && after.totalStudents == before.totalStudents + 1
      && after.totalRevenue == before.totalRevenue
      && after.fullyPaid == before.fullyPaid + (if fees == 0 then 1 else 0)
  {
    StatsAfterAppend(records, RegisteredStudent(id, owner, req, fees, now), owner);
  }

  // ---- Payment ----

  /** The body of `POST /fees`, with `parseFloat(amountPaid)` already applied (in paise). */
  datatype PaymentRequest = PaymentRequest(name: string, standard: string, amountPaid: Paise, email: string, paymentMethod: string)

  /** The name test of the lookup: the stored name equals the trimmed requested name, ignoring letter case. */
  predicate NameMatches(stored: string, requested: string)
  {
    ToLower(stored) == ToLower(Trim(requested))
  }

  /** The lookup's filter: name as above, and the same owner, standard and email. */
  predicate MatchesPayment(r: StudentFee, owner: ObjectId, req: PaymentRequest)
  {
    NameMatches(r.name, req.name) && r.owner == owner && r.standard == req.standard && r.email == req.email
  }

  /** The index of the first element of `s` that `p` selects. */
  function FindFirst<T>(s: seq<T>, p: T -> bool): (r: Option<nat>)
    ensures r.Some? ==> r.value < |s| && p(s[r.value])
    ensures r.Some? ==> forall j :: 0 <= j < r.value ==> !p(s[j])
    ensures r.None? <==> forall j :: 0 <= j < |s| ==> !p(s[j])
  {
    if s == [] then None
    else if p(s[0]) then Some(0)
    else match FindFirst(s[1..], p)
      case None => None
      case Some(i) => Some(i + 1)
  }

  /** `StudentFee.findOne(...)`: the index of the first record the payment's filter selects. */
  function FindStudent(records: seq<StudentFee>, owner: ObjectId, req: PaymentRequest): (r: Option<nat>)
    ensures r.Some? ==> r.value < |records| && MatchesPayment(records[r.value], owner, req)
    ensures r.Some? ==> forall j :: 0 <= j < r.value ==> !MatchesPayment(records[j], owner, req)
    ensures r.None? <==> forall j :: 0 <= j < |records| ==> !MatchesPayment(records[j], owner, req)
  {
    FindFirst(records, x => MatchesPayment(x, owner, req))
  }

  /** `updatedStudent` of the 200 response (its locale-formatted date is not modelled). */
  datatype UpdatedStudent = UpdatedStudent(
    name: string, standard: string, totalFees: Paise, feesPaid: Paise, feesRemaining: Paise, paymentMethod: string)

  /** The text content of the PDF receipt: what it says, not where it is drawn. */
  datatype Receipt = Receipt(
    receiptNumber: string,
    studentName: string, standard: string, email: string, studentId: string,
    amountPaid: string, totalFees: string, feesPaidSoFar: string, remainingBalance: string,
    paymentMethod: string)

  /** 404 "Student not found", 500 "Fee processing failed", or 200 with the receipt number and summary. */
  datatype PaymentResponse =
    | StudentNotFound
    | PaymentFailed
    | PaymentRecorded(receiptNumber: string, updatedStudent: UpdatedStudent, receipt: Receipt)

  /** `RCP-${Date.now()}` */
  function ReceiptNumber(nowMs: nat): (r: string)
    ensures |r| >= 5 && r[..4] == "RCP-" && AllDigits(r[4..])
  {
    "RCP-" + DecimalDigits(nowMs)
  }

  /** Receipt numbers differ exactly when the instants they were taken at differ. */
  lemma ReceiptNumberInjective(t1: nat, t2: nat)
    ensures ReceiptNumber(t1) == ReceiptNumber(t2) <==> t1 == t2
  {
    if ReceiptNumber(t1) == ReceiptNumber(t2) {
      assert DecimalDigits(t1) == ReceiptNumber(t1)[4..];
      assert DecimalDigits(t2) == ReceiptNumber(t2)[4..];
      DecimalDigitsRoundTrip(t1);
      DecimalDigitsRoundTrip(t2);
    }
  }

  /** The `updatedStudent` summary: the record after the payment and its unclamped remaining balance. */
  function Summary(r: StudentFee, paymentMethod: string): (u: UpdatedStudent)
    ensures u.feesRemaining + u.feesPaid == u.totalFees == r.totalFees
    ensures u.feesPaid == r.feesPaid && u.name == r.name && u.standard == r.standard
    ensures u.paymentMethod == paymentMethod
  {
    UpdatedStudent(r.name, r.standard, r.totalFees, r.feesPaid, Remaining(r), paymentMethod)
  }

  /** The receipt for record `r` as saved after paying `amount`, taken at instant `nowMs`. */
  function BuildReceipt(r: StudentFee, amount: Paise, paymentMethod: string, nowMs: nat): (rc: Receipt)
    ensures rc.studentId == StudentIdOf(r.id)
    ensures |rc.studentId| == 8
    ensures rc.receiptNumber == ReceiptNumber(nowMs) && rc.paymentMethod == paymentMethod
    ensures rc.studentName == r.name && rc.standard == r.standard && rc.email == r.email
  {
    StudentIdIsLowBits(r.id);
    Receipt(ReceiptNumber(nowMs), r.name, r.standard, r.email, StudentIdOf(r.id),
            FormatFixed2(amount), FormatFixed2(r.totalFees), FormatFixed2(r.feesPaid),
            FormatFixed2(Remaining(r)), paymentMethod)
  }

  /**
   * Every amount the receipt prints with two decimals reads back as the exact
   * value it stands for: the payment, the total, the paid-so-far and the
   * remaining balance, negative when overpaid.
   */
  lemma ReceiptAmountsReadBack(r: StudentFee, amount: Paise, paymentMethod: string, nowMs: nat)
    ensures var rc := BuildReceipt(r, amount, paymentMethod, nowMs);
      && ParseAmount(rc.amountPaid) == Some(amount)
      && ParseAmount(rc.totalFees) == Some(r.totalFees)
      && ParseAmount(rc.feesPaidSoFar) == Some(r.feesPaid)
      && ParseAmount(rc.remainingBalance) == Some(Remaining(r))
  {
    FormatParseRoundTrip(amount);
    FormatParseRoundTrip(r.totalFees);
    FormatParseRoundTrip(r.feesPaid);
    FormatParseRoundTrip(Remaining(r));
  }

  /**
   * A recorded payment changes its owner's dashboard only in the revenue,
   * by the amount paid, and in the fully-paid count: up by one when the
   * payment settles the balance exactly, down by one when a non-zero payment
   * is made on a settled record, unchanged otherwise; other owners'
   * dashboards do not change.
   */
  lemma PaymentStats(records: seq<StudentFee>, i: nat, amount: Paise, mode: string, owner: ObjectId)
    requires i < |records|
    ensures var x := records[i];
      var before, after := Stats(records, owner), Stats(records[i := WithPayment(x, amount, mode)], owner);
      && after.totalStudents == before.totalStudents
      && after.totalRevenue == before.totalRevenue + (if x.owner == owner then amount else 0)
      && (x.owner != owner ==> after == before)
      && after.fullyPaid == before.fullyPaid
           + (if x.owner == owner then (if Remaining(x) == amount then 1 else 0) - (if IsFullyPaid(x) then 1 else 0) else 0)
  {
    StatsAfterReplace(records, i, WithPayment(records[i], amount, mode), owner);
  }

  // ---- The ledger ----

  /** Every stored record passed the schema's validation and has an id below `nextId`. */
  ghost predicate StoredRecords(records: seq<StudentFee>, nextId: ObjectId)
  {
    forall i :: 0 <= i < |records| ==> Conforms(records[i]) && records[i].id < nextId
  }

  /** Saving a record that passes validation over one with the same id keeps the store valid. */
  lemma SaveKeepsStored(records: seq<StudentFee>, nextId: ObjectId, i: nat, x: StudentFee)
    requires StoredRecords(records, nextId) && i < |records|
    requires Conforms(x) && x.id == records[i].id
    ensures StoredRecords(records[i := x], nextId)
  {
  }

  /** The stored records of every owner, and the next object id to hand out. */
  class FeeLedger {
    var records: seq<StudentFee>
    var nextId: ObjectId

    ghost predicate Valid()
      reads this
    {
      StoredRecords(records, nextId)
    }

    constructor ()
      ensures Valid() && records == [] && nextId == 0
    {
      records := [];
      nextId := 0;
    }

    /** `GET /students`: the caller's records. */
    method ListStudents(owner: ObjectId) returns (students: seq<StudentFee>)
      ensures forall x :: x in students <==> x in records && x.owner == owner
      ensures students == OwnedBy(records, owner)
    {
      students := OwnedBy(records, owner);
    }

    /**
     * `POST /students` by `owner` at time `now`: 400 and no change when a
     * field is missing, 500 and no change when `Number(totalFees)` is NaN,
     * otherwise a fresh record with nothing paid, mode "Pending", the owner
     * as given, and both dates `now`.
     */
    method RegisterStudent(owner: ObjectId, req: StudentRequest, now: Date) returns (resp: RegisterResponse)
      requires Valid() && ValidDate(now)
      modifies this
      ensures Valid()
      ensures resp.MissingFields? <==> MissingRequiredField(req)
      ensures resp.RegisterFailed? <==> !MissingRequiredField(req) && FeeValue(req.totalFees).None?
      ensures !resp.Created? ==> records == old(records) && nextId == old(nextId)
      ensures resp.Created? ==>
        && FeeValue(req.totalFees).Some?
        && resp.student == RegisteredStudent(old(nextId), owner, req, FeeValue(req.totalFees).value, now)
        && records == old(records) + [resp.student]
        && (forall i :: 0 <= i < |old(records)| ==> old(records)[i].id != resp.student.id)
    {
      if MissingRequiredField(req) {
        return MissingFields;
      }
      var fees := FeeValue(req.totalFees);
      if fees.None? {
        return RegisterFailed;
      }
      var student := RegisteredStudent(nextId, owner, req, fees.value, now);
      NewStudentFeeConforms(nextId, req.name, req.standard, req.email, fees.value, 0, "Pending", owner, now);
      records := records + [student];
      nextId := nextId + 1;
      resp := Created(student);
    }

    /**
     * `POST /fees` by `owner` at instant `nowMs`. A lookup miss is a 404 and
     * changes nothing. An empty payment method fails the schema's validation
     * on save: 500, nothing stored. Otherwise the found record, and only it,
     * gets `feesPaid += amountPaid` and `paymentMode = paymentMethod` and is
     * saved; if drawing the receipt then fails (`renderFails`) the answer is
     * a 500 but the payment stays recorded; otherwise it is a 200 with the
     * receipt.
     */
    method RecordPayment(owner: ObjectId, req: PaymentRequest, nowMs: nat, renderFails: bool)
      returns (resp: PaymentResponse)
      requires Valid()
      modifies this
      ensures Valid() && nextId == old(nextId)
      ensures var found := FindStudent(old(records), owner, req);
        && (found.None? ==> resp == StudentNotFound && records == old(records))
        && (found.Some? && req.paymentMethod == "" ==> resp == PaymentFailed && records == old(records))
        && (found.Some? && req.paymentMethod != "" ==>
              var i := found.value;
              var paid := WithPayment(old(records)[i], req.amountPaid, req.paymentMethod);
              && records == old(records)[i := paid]
              && (renderFails ==> resp == PaymentFailed)
              && (!renderFails ==> resp == PaymentRecorded(
                    ReceiptNumber(nowMs),
                    Summary(paid, req.paymentMethod),
                    BuildReceipt(paid, req.amountPaid, req.paymentMethod, nowMs))))
    {
      var before := records;
      var found := FindStudent(before, owner, req);
      if found.None? {
        return StudentNotFound;
      }
      var i := found.value;
      var student := WithPayment(before[i], req.amountPaid, req.paymentMethod);
      WithPaymentConforms(before[i], req.amountPaid, req.paymentMethod);
      if !Conforms(student) {
        return PaymentFailed;
      }
      SaveKeepsStored(before, nextId, i, student);
      records := before[i := student];
      if renderFails {
        return PaymentFailed;
      }
      var receipt := BuildReceipt(student, req.amountPaid, req.paymentMethod, nowMs);
      resp := PaymentRecorded(ReceiptNumber(nowMs), Summary(student, req.paymentMethod), receipt);
    }
  }
}
