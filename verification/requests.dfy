/** Any sequence of requests to the loan and fund endpoints, applied one
    after another, and the store invariant that every such sequence
    keeps: in particular no loan ever references a missing fund. */
module Requests {
  import opened Results
  import opened Models
  import opened Store
  import opened LoanViews
  import opened FundViews

  /** One request to one of the modelled endpoints. */
  datatype Request =
    | CreateFundRequest(fund: FundRequest, errors: FieldErrors)
    | GetFundRequest(fundId: int)
    | TopUpFundRequest(fundId: int, body: TopUpRequest)
    | DeleteFundRequest(fundId: int)
    | CreateLoanRequest(loan: LoanRequest, validate: Validator, today: Date)
    | ApproveRequest(loanId: int, today: Date)
    | RejectRequest(loanId: int, today: Date)
    | DeleteLoanRequest(loanId: int)

  /** The store a request leaves behind. */
  function Apply(s: Store, req: Request): (s': Store)
    ensures Valid(s) ==> Valid(s')
  {
    match req
    case CreateFundRequest(fund, errors) => CreateFund(s, fund, errors).store
    case GetFundRequest(id) => GetFund(s, id).store
    case TopUpFundRequest(id, body) => TopUp(s, id, body).store
    case DeleteFundRequest(id) => DeleteFund(s, id).store
    case CreateLoanRequest(loan, validate, today) => CreateLoan(s, loan, validate, today).store
    case ApproveRequest(id, today) => Approve(s, id, today).store
    case RejectRequest(id, today) => Reject(s, id, today).store
    case DeleteLoanRequest(id) => DeleteLoan(s, id).store
  }

  /** The store after a sequence of requests, first to last. */
  function Run(s: Store, reqs: seq<Request>): Store
    decreases |reqs|
  {
    if |reqs| == 0 then s else Run(Apply(s, reqs[0]), reqs[1..])
  }

  /** Every sequence of requests keeps the store invariant. */
  lemma {:induction false} RunKeepsValid(s: Store, reqs: seq<Request>)
    requires Valid(s)
    ensures Valid(Run(s, reqs))
    decreases |reqs|
  {
    if |reqs| > 0 {
      RunKeepsValid(Apply(s, reqs[0]), reqs[1..]);
    }
  }

  /** Starting from an empty store, whatever requests arrive, every loan
      references an existing fund and carries the installment the formula
      gives for its amount, rate and duration. */
  lemma {:induction false} NoOrphanLoans(reqs: seq<Request>)
    ensures var s := Run(Empty, reqs);
            forall k :: k in s.loans ==>
              && s.loans[k].fundId in s.funds
              && s.loans[k].duration != 0
              && s.loans[k].monthlyInstallment
                 == Some(InstallmentCents(s.loans[k].loanAmount, s.loans[k].interestRate, s.loans[k].duration))
  {
    EmptyValid();
    RunKeepsValid(Empty, reqs);
  }
}
