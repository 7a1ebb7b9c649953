# Loan funds and loans, modelled in Dafny

A model of the domain logic of a small Django loans backend. The backend keeps
**loan funds** and **loans**. A loan fund is a pool of lendable money with a
balance, minimum and maximum loan amounts, an interest rate and a duration. A
loan is drawn against a fund. The model covers:

- the two records, their field defaults and the three loan statuses;
- the monthly installment formula and the `save` hook that fills it in;
- loan creation, with its fixed order of checks, its snapshot of the fund's
  terms and its debit of the fund;
- approving, rejecting and deleting a loan;
- reading, topping up and deleting a fund (the delete cascades to the fund's
  loans), and fund creation with its per-field error messages.

Money is exact integer fixed-point:

- amounts are integer cents;
- interest rates are integer hundredths of a percent;
- durations are whole months.

The installment in cents is `amount * (10000 + rate) / (10000 * duration)`,
rounded half-to-even, which is how Python's `round(x, 2)` rounds a `Decimal`.

The store is two maps from primary key to row, plus the next primary key of
each table. Keys start at 1. Every operation is a pure function. It returns a
`Reply`: a result or an error kind, together with the store it leaves behind.
An error always leaves the store unchanged. The store invariant `Store.Valid`
says three things: keys are positive and below their sequence, every loan
references an existing fund, and every loan's installment is the formula's
value. Every operation preserves it, and `Requests.RunKeepsValid` extends this
to any sequence of requests.

Files:

- `decimal.dfy`: half-to-even rounding, its division-free characterisation,
  uniqueness and monotonicity.
- `results.dfy`: `Option` and `Result`.
- `models.dfy`: statuses, the `Fund` and `Loan`
  records, the installment formula, and `Save`.
- `store.dfy`: the store, the error kinds with their HTTP status, and the
  invariant.
- `loan_views.dfy`: the loan endpoints.
- `fund_views.dfy`: the fund endpoints.
- `requests.dfy`: arbitrary request sequences and the invariant over them.
- `scenarios.dfy`: worked cases. Most come from the repository's tests;
  `Scenarios.TypicalLoan` is a worked example of loan creation
  (loans/views/loan.py:38-53).

What the code does, and does not, check:

- A top-up has no sign check and no upper bound
  (loans/views/LoanFund.py:56-63). A negative amount is accepted as long as
  the result stays at or above `min_loan_amount`.
- Nothing checks `max_loan_amount` when a loan is created or saved
  (loans/views/loan.py:33-36, loans/models.py:48-51). Creation checks only
  `min_loan_amount <= amount <= fund.amount`.
- Fund creation has no validator beyond the serializer
  (loans/views/LoanFund.py:17-38), so the serializer's verdict is an input of
  `CreateFund`.
- The model test expects installments of 439.77 and 183.95
  (loans/test_models.py:18,24). The formula as written gives 437.50 and 175.00
  (`Scenarios.ModelTestInstallments`).

## Model

| member | source | states |
|---|---|---|
| `Decimal.RoundHalfEven` | loans/models.py:46 | the result is within half a unit of n/d, and on an exact tie it is the even neighbour, for a divisor of either sign |
| `Decimal.HalfEvenUnique` | loans/models.py:46 | at most one integer is within half a unit with ties to even, so the characterisation fixes the rounding |
| `Decimal.RoundsToIsRoundHalfEven` | loans/models.py:46 | any integer meeting the half-even characterisation is the computed rounding |
| `Decimal.RoundMonotone` | loans/models.py:45-46 | with a positive divisor, a larger dividend never rounds to a smaller value |
| `Models.ParseStatus` | loans/models.py:25-29 | a text names a status exactly when it is one of Requested, Approved or Rejected, and then it is that status's name |
| `Models.StatusRoundTrip` | loans/models.py:25-36 | reading back a status's stored name gives the same status |
| `Models.InstallmentCents` | loans/models.py:42-46 | the installment in cents is amount*(10000+rate)/(10000*duration) rounded half-to-even: a whole number of cents within half a cent of the exact value |
| `Models.InstallmentMonotone` | loans/models.py:45-46 | for a positive duration and a rate of at least -100%, the installment is non-decreasing in the loan amount |
| `Models.InstallmentNonNegative` | loans/models.py:45-46 | a non-negative loan at a rate of at least -100% over a positive duration has a non-negative installment; the rate bound is needed, since the rate column has no lower bound (`Scenarios.RateBelowMinusHundredPercent`) |
| `Models.Save` | loans/models.py:48-51 | a null or zero installment is computed from the loan's amount, rate and duration, and nothing else changes; a non-zero one is kept unchanged; a zero duration with nothing stored raises |
| `Models.SaveIdempotent` | loans/models.py:48-51 | saving the result of a save again gives the same loan, even when the stored installment is zero |
| `Models.SettledIsSaved` | loans/models.py:48-51 | a loan whose installment is the formula's value passes through save unchanged |
| `Store.HttpStatus` | loans/views/LoanFund.py:42-45 | only an unknown fund on the fund detail route is a 404; an unknown loan and an unknown fund in a loan request are 400 |
| `Store.EmptyValid` | loans/models.py:32 | the empty store satisfies the invariant |
| `LoanViews.CreateLoan` | loans/views/loan.py:19-53 | the checks run in order: missing or zero fund id, unknown fund (400), amount above the balance, amount below the minimum. Exceeding wins when both amount checks fail. The request is accepted iff the fund exists, min <= amount <= balance, the serializer accepts, and the fund's duration is non-zero (a zero duration makes the installment division raise, a 500 that stores nothing); max_loan_amount is never consulted. On success there is exactly one new loan, the fund's terms are snapshotted, the fund is debited by exactly the amount and stays non-negative, nothing else changes, and the invariant holds. On error the store is unchanged, and no failure is answered with a 404 |
| `LoanViews.Review` | loans/views/loan.py:59-82 | an unknown loan is an error (not a 404) with the store unchanged. A stored (saved) loan becomes exactly its stamped form, because the save hook keeps its installment. Funds, keys and other loans are kept, and the invariant holds |
| `LoanViews.Approve` | loans/views/loan.py:59-70 | an unknown loan is an error with the store unchanged; for a stored loan (one that saving again would not change, which the invariant guarantees) the loan gets status Approved and date_approved today. Every other field, including the rejection date and the installment, and every other row is unchanged |
| `LoanViews.Reject` | loans/views/loan.py:73-84 | an unknown loan is an error with the store unchanged; for a stored loan the loan gets status Rejected and date_rejected today. Every other field, including the approval date and the installment, and every other row is unchanged |
| `LoanViews.ApproveTwice` | loans/views/loan.py:66-68 | approving a stored loan twice equals approving it once with the later date: repeating only moves the date |
| `LoanViews.RejectAfterApprove` | loans/views/loan.py:80-82 | rejecting an approved loan keeps its approval date and leaves the funds untouched |
| `LoanViews.DeleteLoan` | loans/views/loan.py:86-94 | an unknown loan is an error; otherwise exactly that loan is removed and every fund balance is unchanged (no refund) |
| `FundViews.CreationMessages` | loans/views/LoanFund.py:23-38 | the error map has exactly the failing fields as keys; the five named fields get their fixed sentence and any other field passes its messages through |
| `FundViews.CreateFund` | loans/views/LoanFund.py:17-38 | a rejected request answers the rewritten error map and changes nothing; an accepted one adds one fund under a fresh key, with amount 0, rate 0 and duration 12 when not sent, and keeps the invariant |
| `FundViews.NumDigits` | loans/models.py:14 | the digit count k of n satisfies n < 10^k, and 10^(k-1) <= n when k > 1 (0 has one digit) |
| `FundViews.AmountFieldAccepts` | loans/models.py:14 | the amount field accepts a number iff it has at most 2 decimal places and fewer than 10^8 whole units |
| `FundViews.EnteredCents` | loans/views/LoanFund.py:56 | an absent amount counts as 0; an accepted number is converted to the same value in cents |
| `FundViews.PutErrors` | loans/views/LoanFund.py:54-55 | a top-up body is refused iff its amount or another field fails validation, and the amount field is named iff it fails |
| `FundViews.GetFund` | loans/views/LoanFund.py:42-50 | reading a fund returns its row iff it exists, otherwise not-found, and never changes the store |
| `FundViews.TopUp` | loans/views/LoanFund.py:53-67 | an unknown fund is not-found. Field errors are reported before any arithmetic. Otherwise updated = balance + entered (0 when absent), and the top-up is accepted iff min_loan_amount <= updated, whatever the sign and with no upper bound. Success changes only that fund's amount; failure changes nothing |
| `FundViews.TopUpWithoutAmount` | loans/views/LoanFund.py:56-63 | a top-up with no amount on a fund at or above its minimum succeeds and leaves the store as it was |
| `FundViews.DeleteFund` | loans/views/LoanFund.py:70-72 | an unknown fund is not-found. Otherwise the fund is removed together with exactly the loans that reference it, all other rows are kept, and the invariant holds |
| `FundViews.CascadeKeepsValid` | loans/models.py:32 | removing a fund with all of its loans keeps every remaining loan's fund present |
| `FundViews.DeleteFundLeavesNoLoans` | loans/models.py:32 | after a fund is deleted, no loan references it |
| `Requests.Apply` | loans/urls.py:9-22 | every modelled endpoint preserves the store invariant |
| `Requests.RunKeepsValid` | loans/models.py:32 | any sequence of requests preserves the store invariant |
| `Requests.NoOrphanLoans` | loans/models.py:32 | from an empty store, after any requests, every loan references an existing fund and carries the formula's installment |
| `Scenarios.TypicalLoan` | loans/views/loan.py:38-53 | a 1000.00 loan at 4% over 12 months from a 10000.00 fund pays 86.67 a month, is Requested, and leaves 9000.00 |
| `Scenarios.ModelTestInstallments` | loans/test_models.py:15-24 | the formula as written gives 437.50 and 175.00 for the model test's loans |
| `Scenarios.CreationFailures` | loans/test_loan.py:33-66 | an unknown fund, an amount above the balance and an amount below the minimum are each refused and change nothing |
| `Scenarios.CascadeRemovesBothLoans` | loans/models.py:32 | two loans drawn against a fund are gone once the fund is deleted |
| `Scenarios.ZeroDurationFundFails` | loans/models.py:42-51 | a loan request against a fund with a zero duration passes every check of the view, then fails with a 500 in the installment division and stores nothing |
| `Scenarios.RateBelowMinusHundredPercent` | loans/models.py:17 | at a rate of -200%, a 1.00 loan over one month has an installment of -1.00, so the installment is non-negative only for rates of at least -100% |
| `Scenarios.TenWholeDigitsRefused` | loans/test_LoanFund.py:72-77 | an entered amount of 9999999999 is refused by the field check |

## Left out

- Authentication and users: `loans/views/users.py` only wraps the framework's
  authentication and user model, whose code is not part of this model.
- Routing, serializers, migrations, settings and the `Drink` model. The loan
  serializer imported by `loans/views/loan.py` is not part of this model. Its
  verdict is the `LoanViews.Validator` parameter. The only thing assumed of it
  is that it refuses a record the model's fields refuse: a null customer name,
  or a status outside the three choices. The fund serializer's checks on
  creation are an input of `CreateFund`. On a top-up, the checks on fields
  other than the amount are an input of `TopUp`.
- The listing routes (all funds, all loans) only serialize the tables.
- The amount field's check and messages in `FundViews.AmountErrors` follow the
  serializer library's decimal field, which is not part of this model. They are
  its default digit-count rules and wording for a 10-digit, 2-place column.
- Listing loans by customer name: `loans/urls.py` routes to
  `get_loans_by_username`, but `loans/views/loan.py` does not define it.
- Python numeric details are not modelled:
  - the 28-digit `Decimal` context in the installment division. Python rounds
    the quotient to 28 significant digits before `round(…, 2)`. Within the
    column widths (loan_amount 10 digits, interest_rate 5 digits, duration a
    32-bit integer) that first rounding cannot change the result: the quotient
    is below 10^10 units, so it moves by less than 10^-18 units. In cents the
    quotient is N/(10000·duration) with N an integer, so one that is not a tie
    lies at least 1/(2·10^4·|duration|) cents, that is 1/(2·10^6·|duration|)
    units, away from every half-cent, which is more than 10^-18 units.
    A tie itself has few enough digits to survive the first rounding;
  - `Decimal(amount)` on a float or a non-numeric loan amount;
  - adding the raw request value to a `Decimal` in a top-up, where a float or
    a string raises.
  The loan amount is an integer number of cents. The entered top-up amount is
  an exact decimal literal.
- Loan creation treats the fund id as an integer. String ids are not modelled.
  As Python tests it, a fund id is "missing" when it is absent or 0.
- Column widths are not modelled. Integers are unbounded, so the model neither
  rejects a loan amount, rate, duration, installment or top-up result wider
  than its database column, nor reproduces what 28-digit `Decimal` division
  would do with operands that wide.
- Atomicity and concurrency: the loan save and the fund debit are two separate
  writes in the source. Each operation is modelled as one sequential step.
- Dates: `date.today()` is the `today` parameter.
- HTTP response bodies: each failure is an `Error` kind, with `HttpStatus`
  giving its status code. The response body of a successful call is not
  modelled; creation returns the new key and a top-up the updated fund.
- LoanViews.Approve: the exact post-state is stated for a loan that a save
  would leave unchanged, and every loan of a store satisfying `Store.Valid` is
  one. The loans it leaves out are those a save would change: the installment
  is null, or it is zero and either the duration is zero or the formula's
  value is non-zero. The model handles them too: the save hook fills in the
  installment, or, with a zero duration, raises, reported as the
  `DivisionByZero` error. The contract does not spell out that post-state,
  because no such loan exists in a store
  built by the modelled operations (`Requests.NoOrphanLoans`).
- LoanViews.Reject: the same restriction as `Approve`.
