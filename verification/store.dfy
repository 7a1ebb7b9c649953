/** The record store both views work on: the LoanFund and Loan tables as
    maps from primary key to row, the two primary-key sequences, the
    error kinds the views report, and the store invariant. */
module Store {
  import opened Results
  import opened Models

  /** A serializer's errors: field name to its messages. */
  type FieldErrors = map<string, seq<string>>

  /** One entry of the fund-creation error map: a fixed sentence, or the
      serializer's own messages passed through. */
  datatype Message = Fixed(text: string) | Passed(errors: seq<string>)

  /** What an operation can report instead of succeeding. */
  datatype Error =
    | FundIdMissing                             // 'loan_fund_id must be provided.'
    | FundDoesNotExist                          // loan creation against an unknown fund
    | AmountExceedsFunds                        // 'Amount Exceeds Funds'
    | AmountBelowMinimum                        // 'Amount less than Min Loan Amount'
    | LoanDoesNotExist                          // approve, reject, delete of an unknown loan
    | FundNotFound                              // fund detail routes, unknown fund
    | AmountOutOfRange                          // top-up result below the fund minimum
    | Invalid(errors: FieldErrors)              // the serializer's errors, as returned
    | FundFieldErrors(messages: map<string, Message>)  // fund creation's rewritten errors
    | DivisionByZero                            // installment of a zero-duration loan raises

  /** The HTTP status each error is answered with. A missing loan, and a
      missing fund named in a loan request, are 400; only the fund detail
      routes answer 404; the uncaught exception is a server error. */
  function HttpStatus(e: Error): (code: nat)
    ensures code == 404 <==> e == FundNotFound
    ensures code == 500 <==> e == DivisionByZero
    ensures code in {400, 404, 500}
  {
    match e
    case FundNotFound => 404
    case DivisionByZero => 500
    case _ => 400
  }

  /** Both tables and the next primary key of each. */
  datatype Store = Store(
    funds: map<nat, Fund>,
    loans: map<nat, Loan>,
    nextFundId: nat,
    nextLoanId: nat)

  /** A store with no rows; primary keys start at 1. */
  const Empty: Store := Store(map[], map[], 1, 1)

  /** An operation's result together with the store it leaves behind. */
  datatype Reply<+T> = Reply(result: Result<T, Error>, store: Store)

  /** The store invariant: keys are positive and lie below their sequence,
      every loan references an existing fund (the CASCADE foreign key),
      and every loan's installment is the formula's value for its fields. */
  predicate Valid(s: Store) {
    && 0 < s.nextFundId && 0 < s.nextLoanId
    && (forall id :: id in s.funds ==> 0 < id < s.nextFundId)
    && (forall id :: id in s.loans ==> 0 < id < s.nextLoanId)
    && (forall id :: id in s.loans ==> s.loans[id].fundId in s.funds)
    && (forall id :: id in s.loans ==> Settled(s.loans[id]))
  }

  /** The empty store satisfies the invariant. */
  lemma EmptyValid()
    ensures Valid(Empty)
  {
  }

  /** A requested key names an existing fund. */
  predicate FundKnown(s: Store, id: int) {
    id >= 0 && id as nat in s.funds
  }

  /** A requested key names an existing loan. */
  predicate LoanKnown(s: Store, id: int) {
    id >= 0 && id as nat in s.loans
  }
}
