/** The two persistent records of the loans backend, loans/models.py:
    a loan fund (a pool of lendable money) and a loan drawn against it,
    with the loan's status choices, the field defaults, the monthly
    installment formula and the save hook that fills the installment in.

    Money fields are integer cents, interest rates integer hundredths of a
    percent, durations whole months. */
module Models {
  import opened Results
  import opened Decimal

  /** The three values of Loan.LOAN_STATUS_CHOICES. */
  datatype Status = Requested | Approved | Rejected

  /** The text stored for a status, which is also its choice label. */
  function StatusName(s: Status): string {
    match s
    case Requested => "Requested"
    case Approved => "Approved"
    case Rejected => "Rejected"
  }

  /** The status a text names, if it is one of the three choices. */
  function ParseStatus(text: string): (r: Option<Status>)
    ensures r.Some? <==> (text == "Requested" || text == "Approved" || text == "Rejected")
    ensures r.Some? ==> StatusName(r.value) == text
  {
    if text == "Requested" then Some(Requested)
    else if text == "Approved" then Some(Approved)
    else if text == "Rejected" then Some(Rejected)
    else None
  }

  /** Naming a status and reading the name back gives the same status, so
      the stored text and the status datatype are interchangeable. */
  lemma StatusRoundTrip(s: Status)
    ensures ParseStatus(StatusName(s)) == Some(s)
  {
  }

  /** The default of Loan.status. */
  const DefaultStatus: Status := Requested

  /** A calendar day; the backend's date.today() is passed in as one. */
  type Date = nat

  /** A LoanFund row. */
  datatype Fund = Fund(
    name: string,
    amount: int,          // available balance, cents
    maxLoanAmount: int,   // cents
    minLoanAmount: int,   // cents
    interestRate: int,    // hundredths of a percent
    loanDuration: int)    // months

  /** Field defaults of LoanFund. */
  const DefaultFundAmount: int := 0
  const DefaultInterestRate: int := 0
  const DefaultLoanDuration: int := 12

  /** A Loan row. The rate and duration are copies of the fund's values
      taken when the loan is created. */
  datatype Loan = Loan(
    customerName: string,
    fundId: nat,
    loanAmount: int,      // cents
    interestRate: int,    // hundredths of a percent
    duration: int,        // months
    status: Status,
    dateRequested: Date,
    dateApproved: Option<Date>,
    dateRejected: Option<Date>,
    monthlyInstallment: Option<int>)  // cents; None is a null column

  /** calculate_monthly_installment in cents: the amount plus one period's
      interest on it, spread over the duration, rounded to whole cents
      half-to-even. In cents the exact quotient is
      amount * (10000 + rate) / (10000 * duration). Python raises on a
      zero duration, hence the precondition. */
  function InstallmentCents(amount: int, rate: int, duration: int): (r: int)
    requires duration != 0
    ensures RoundsTo(amount * (10000 + rate), 10000 * duration, r)
  {
    RoundHalfEven(amount * (10000 + rate), 10000 * duration)
  }

  /** With a positive duration and a rate of at least -100%, a larger loan
      never has a smaller installment. */
  lemma InstallmentMonotone(a1: int, a2: int, rate: int, duration: int)
    requires a1 <= a2 && rate >= -10000 && duration > 0
    ensures InstallmentCents(a1, rate, duration) <= InstallmentCents(a2, rate, duration)
  {
    MulMonotone(a1, a2, 10000 + rate);
    RoundMonotone(a1 * (10000 + rate), a2 * (10000 + rate), 10000 * duration);
  }

  /** A non-negative loan at a rate of at least -100% over a positive
      duration has a non-negative installment. */
  lemma InstallmentNonNegative(amount: int, rate: int, duration: int)
    requires amount >= 0 && rate >= -10000 && duration > 0
    ensures InstallmentCents(amount, rate, duration) >= 0
  {
    InstallmentMonotone(0, amount, rate, duration);
    RoundExact(0, 10000 * duration);
  }

  /** `not self.monthly_installment`: the column is null or zero. */
  predicate InstallmentUnset(m: Option<int>) {
    m.None? || m.value == 0
  }

  /** A loan whose installment is the formula's value for its own fields. */
  predicate Settled(l: Loan) {
    l.duration != 0 && l.monthlyInstallment == Some(InstallmentCents(l.loanAmount, l.interestRate, l.duration))
  }

  /** Loan.save: fills in the installment when it is null or zero and
      keeps any other value. None is the exception Python raises when it
      has to compute the installment of a zero-duration loan. */
  function Save(l: Loan): (r: Option<Loan>)
    ensures r.None? <==> InstallmentUnset(l.monthlyInstallment) && l.duration == 0
    ensures r.Some? && !InstallmentUnset(l.monthlyInstallment) ==> r.value == l
    ensures r.Some? && InstallmentUnset(l.monthlyInstallment) ==>
              Settled(r.value) && r.value == l.(monthlyInstallment := r.value.monthlyInstallment)
  {
    if !InstallmentUnset(l.monthlyInstallment) then Some(l)
    else if l.duration == 0 then None
    else Some(l.(monthlyInstallment := Some(InstallmentCents(l.loanAmount, l.interestRate, l.duration))))
  }

  /** A row as the database holds it after a save: saving it again
      changes nothing. */
  predicate Saved(l: Loan) {
    Save(l) == Some(l)
  }

  /** Saving a saved loan again changes nothing: a zero installment is
      recomputed from unchanged fields and comes out zero again. */
  lemma SaveIdempotent(l: Loan)
    requires Save(l).Some?
    ensures Saved(Save(l).value)
  {
  }

  /** A settled loan survives a save unchanged, whatever its status and
      dates. */
  lemma SettledIsSaved(l: Loan)
    requires Settled(l)
    ensures Saved(l)
  {
  }
}
