/**
 * The `StudentFee` record: one student's fee account, owned by one user.
 * Its schema requires the four text fields, the two amounts and the owner,
 * and gives both dates the creation time by default.
 */
module StudentFeeSchema {
  import opened Text
  import opened Money
  import opened ObjectIds

  /** A calendar date (UTC), as far as the ledger looks at it: the aggregations group by its month. */
  datatype Date = Date(year: int, month: int, day: int)

  predicate ValidDate(d: Date)
  {
    1 <= d.month <= 12 && 1 <= d.day <= 31
  }

  datatype StudentFee = StudentFee(
    id: ObjectId,
    name: string,
    standard: string,
    totalFees: Paise,
    feesPaid: Paise,
    email: string,
    paymentMode: string,
    owner: ObjectId,
    paymentDate: Date,
    dateOfAdmission: Date)

  /**
   * What the schema's validation accepts: a required string must be a
   * non-empty string; amounts and owner are always present here; dates are
   * real dates.
   */
  predicate Conforms(r: StudentFee)
  {
    && r.name != ""
    && r.standard != ""
    && r.email != ""
    && r.paymentMode != ""
    && ValidDate(r.paymentDate)
    && ValidDate(r.dateOfAdmission)
  }

  /**
   * A new record built from the given fields, with both dates left to their
   * default, the creation time `now`.
   */
  function NewStudentFee(id: ObjectId, name: string, standard: string, email: string,
                         totalFees: Paise, feesPaid: Paise, paymentMode: string,
                         owner: ObjectId, now: Date): (r: StudentFee)
    ensures r.paymentDate == now && r.dateOfAdmission == now
    ensures r.id == id && r.owner == owner
    ensures r.name == name && r.standard == standard && r.email == email
    ensures r.totalFees == totalFees && r.feesPaid == feesPaid && r.paymentMode == paymentMode
  {
    StudentFee(id, name, standard, totalFees, feesPaid, email, paymentMode, owner, now, now)
  }

  /** A record built from non-empty strings at a real date passes the schema's validation. */
  lemma NewStudentFeeConforms(id: ObjectId, name: string, standard: string, email: string,
                              totalFees: Paise, feesPaid: Paise, paymentMode: string,
                              owner: ObjectId, now: Date)
    requires name != "" && standard != "" && email != "" && paymentMode != ""
    requires ValidDate(now)
    ensures Conforms(NewStudentFee(id, name, standard, email, totalFees, feesPaid, paymentMode, owner, now))
  {
  }

  /** The balance a receipt reports: total minus paid, not clamped, so negative after overpayment. */
  function Remaining(r: StudentFee): (balance: Paise)
    ensures balance + r.feesPaid == r.totalFees
    ensures balance < 0 <==> r.feesPaid > r.totalFees
    ensures balance == 0 <==> r.feesPaid == r.totalFees
  {
    r.totalFees - r.feesPaid
  }

  /** The record after a payment: `feesPaid += amount`, `paymentMode = mode`, nothing else. */
  function WithPayment(r: StudentFee, amount: Paise, mode: string): (r': StudentFee)
    ensures r'.feesPaid == r.feesPaid + amount && r'.paymentMode == mode
    ensures r'.id == r.id && r'.name == r.name && r'.standard == r.standard && r'.email == r.email
    ensures r'.totalFees == r.totalFees && r'.owner == r.owner
    ensures r'.paymentDate == r.paymentDate && r'.dateOfAdmission == r.dateOfAdmission
  {
    r.(feesPaid := r.feesPaid + amount, paymentMode := mode)
  }

  /** A payment lowers the remaining balance by exactly the amount paid, with no floor at zero. */
  lemma RemainingAfterPayment(r: StudentFee, amount: Paise, mode: string)
    ensures Remaining(WithPayment(r, amount, mode)) == Remaining(r) - amount
    ensures Remaining(WithPayment(r, amount, mode)) < 0 <==> r.feesPaid + amount > r.totalFees
  {
  }

  /** A payment keeps a record valid exactly when its payment method is a non-empty string. */
  lemma WithPaymentConforms(r: StudentFee, amount: Paise, mode: string)
    requires Conforms(r)
    ensures Conforms(WithPayment(r, amount, mode)) <==> mode != ""
  {
  }

  /** The receipt's Student ID: `id.toString().slice(-8).toUpperCase()`, the upper-cased 8-digit hex string. */
  function StudentIdOf(id: ObjectId): (sid: string)
    ensures sid == ToUpper(HexString(id, 8))
  {
    var s := ObjectIdString(id);
    HexSuffix(id, ObjectIdDigits, 8);
    ToUpper(s[|s| - 8..])
  }

  /** Upper-casing lower-case hex digits keeps them hex digits and keeps their value. */
  lemma {:induction false} UpperHexValue(h: string)
    requires forall i :: 0 <= i < |h| ==> IsHexDigit(h[i]) && !IsUpper(h[i])
    ensures forall i :: 0 <= i < |h| ==> IsHexDigit(ToUpper(h)[i]) && !IsLower(ToUpper(h)[i])
    ensures HexValue(ToUpper(h)) == HexValue(h)
  {
    if h != [] {
      var u := ToUpper(h);
      var init := h[..|h| - 1];
      UpperHexValue(init);
      assert u[..|u| - 1] == ToUpper(init);
    }
  }

  /**
   * The Student ID is eight upper-case hex digits that read back as the low
   * 32 bits of the object id.
   */
  lemma StudentIdIsLowBits(id: ObjectId)
    ensures |StudentIdOf(id)| == 8
    ensures forall i :: 0 <= i < 8 ==> IsHexDigit(StudentIdOf(id)[i]) && !IsLower(StudentIdOf(id)[i])
    ensures HexValue(StudentIdOf(id)) == id % 0x1_0000_0000
  {
    UpperHexValue(HexString(id, 8));
    HexStringValue(id, 8);
    assert Pow16(8) == 0x1_0000_0000;
  }
}
