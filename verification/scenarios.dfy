/** Worked cases checked against the model: the installment and balance
    of a typical loan, the installments the model test names, each
    loan-creation failure, the cascade, and the top-up field limit. */
module Scenarios {
  import opened Results
  import opened Decimal
  import opened Models
  import opened Store
  import opened LoanViews
  import opened FundViews

  /** A serializer that accepts every draft the model's fields allow. */
  function AcceptConforming(d: LoanDraft): (errors: FieldErrors)
    ensures errors == map[] <==> Conforms(d)
  {
    if Conforms(d) then map[]
    else
      var errors := map["status" := []];
      assert "status" in errors;
      errors
  }

  /** A store holding one fund under key 1. */
  function OneFund(f: Fund): (s: Store)
    ensures Valid(s) && FundKnown(s, 1) && s.funds[1] == f
  {
    Store(map[1 := f], map[], 2, 1)
  }

  /** 10000.00 in the fund, loans between 1000.00 and 50000.00, 4% over
      12 months: a 1000.00 loan pays 86.67 a month and leaves 9000.00. */
  lemma TypicalLoan()
    ensures var s := OneFund(Fund("Test Fund", 1000000, 5000000, 100000, 400, 12));
            var r := CreateLoan(s, LoanRequest(Some("John Doe"), Some(1), Some(100000), None), AcceptConforming, 7);
            && r.result == Ok(1)
            && r.store.loans[1].monthlyInstallment == Some(8667)
            && r.store.loans[1].status == Requested
            && r.store.funds[1].amount == 900000
  {
  }

  /** The formula as written gives 437.50 and 175.00 for 5000.00 and
      2000.00 at 5% over 12 months. */
  lemma ModelTestInstallments()
    ensures InstallmentCents(500000, 500, 12) == 43750
    ensures InstallmentCents(200000, 500, 12) == 17500
  {
  }

  /** Against a fund of 50000.00 with a 150.00 minimum, an unknown fund, an
      amount above the balance and an amount below the minimum are each
      refused with a 400 and change nothing. */
  lemma CreationFailures()
    ensures var s := OneFund(Fund("Test Fund", 5000000, 5000000, 15000, 1, 2));
            && CreateLoan(s, LoanRequest(Some("John Doe"), Some(999), Some(100000), Some("Requested")), AcceptConforming, 0)
               == Reply(Err(FundDoesNotExist), s)
            && CreateLoan(s, LoanRequest(Some("John Doe"), Some(1), Some(6000000), Some("Requested")), AcceptConforming, 0)
               == Reply(Err(AmountExceedsFunds), s)
            && CreateLoan(s, LoanRequest(Some("John Doe"), Some(1), Some(10000), Some("Requested")), AcceptConforming, 0)
               == Reply(Err(AmountBelowMinimum), s)
            && HttpStatus(FundDoesNotExist) == 400
  {
  }

  /** Two loans drawn against a fund disappear with it. */
  lemma CascadeRemovesBothLoans()
    ensures var s0 := OneFund(Fund("Test Fund", 5000000, 5000000, 15000, 1, 2));
            var s1 := CreateLoan(s0, LoanRequest(Some("John Doe"), Some(1), Some(100000), None), AcceptConforming, 0).store;
            var s2 := CreateLoan(s1, LoanRequest(Some("Jane Smith"), Some(1), Some(200000), None), AcceptConforming, 0).store;
            && |s2.loans| == 2
            && DeleteFund(s2, 1).store.loans == map[]
  {
  }

  /** Nothing refuses a fund with a zero duration, and a loan against it
      passes every check of the view before the installment division
      raises: the request fails with a 500 and nothing is stored. */
  lemma ZeroDurationFundFails()
    ensures var s := OneFund(Fund("Z", 1000000, 5000000, 100000, 400, 0));
            var r := CreateLoan(s, LoanRequest(Some("A"), Some(1), Some(100000), None), AcceptConforming, 0);
            && r == Reply(Err(DivisionByZero), s)
            && HttpStatus(r.result.error) == 500
  {
  }

  /** Nothing bounds the interest rate from below: at -200% a 1.00 loan
      over one month pays -1.00. */
  lemma RateBelowMinusHundredPercent()
    ensures InstallmentCents(100, -20000, 1) == -100
  {
  }

  /** An entered amount of 9999999999 has ten digits before the point and
      is refused by the field before any arithmetic. */
  lemma TenWholeDigitsRefused()
    ensures var s := OneFund(Fund("Test Fund", 1000000, 5000000, 100000, 400, 12));
            TopUp(s, 1, TopUpRequest(Number(9999999999, 0), map[])).result.Err?
  {
  }
}
