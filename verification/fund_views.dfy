/** The fund endpoints of loans/views/LoanFund.py: creating a fund (the
    POST branch of loanfund_list, with its rewriting of the serializer's
    errors) and the detail route loanfund_detail (read, top-up, delete with
    cascade to the fund's loans). */
module FundViews {
  import opened Results
  import opened Decimal
  import opened Models
  import opened Store

  // ---------------------------------------------------------------------
  // Fund creation

  /** The fields of a fund-creation request; None is a field with a model
      default that the caller did not send. */
  datatype FundRequest = FundRequest(
    name: string,
    amount: Option<int>,
    maxLoanAmount: int,
    minLoanAmount: int,
    interestRate: Option<int>,
    loanDuration: Option<int>)

  /** The fixed sentence each named field's errors are replaced by. */
  const FixedMessages: map<string, string> := map[
    "amount" := "The updated amount is not within the allowed range.",
    "max_loan_amount" := "The max loan amount must be greater than or equal to 0.",
    "min_loan_amount" := "The min loan amount must be greater than or equal to 0.",
    "interest_rate" := "The interest rate must be greater than or equal to 0.01.",
    "loan_duration" := "The loan duration must be greater than or equal to 2."]

  /** The branch chain that picks one field's entry. */
  function MessageFor(field: string, errors: seq<string>): Message {
    if field == "amount" then Fixed("The updated amount is not within the allowed range.")
    else if field == "max_loan_amount" then Fixed("The max loan amount must be greater than or equal to 0.")
    else if field == "min_loan_amount" then Fixed("The min loan amount must be greater than or equal to 0.")
    else if field == "interest_rate" then Fixed("The interest rate must be greater than or equal to 0.01.")
    else if field == "loan_duration" then Fixed("The loan duration must be greater than or equal to 2.")
    else Passed(errors)
  }

  /** The error map answered to a rejected fund creation: one entry per
      failing field, a fixed sentence for the five named fields and the
      serializer's own messages for any other. */
  function CreationMessages(errors: FieldErrors): (m: map<string, Message>)
    ensures m.Keys == errors.Keys
    ensures forall f :: f in m ==>
              m[f] == (if f in FixedMessages then Fixed(FixedMessages[f]) else Passed(errors[f]))
  {
    map f | f in errors :: MessageFor(f, errors[f])
  }

  /** loanfund_list POST. `errors` is the fund serializer's verdict on the
      request, whose checks are left abstract. */
  function CreateFund(s: Store, req: FundRequest, errors: FieldErrors): (r: Reply<nat>)
    ensures errors != map[] ==> r == Reply(Err(FundFieldErrors(CreationMessages(errors))), s)
    ensures errors == map[] ==>
              && r.result == Ok(s.nextFundId)
              && r.store.funds.Keys == s.funds.Keys + {s.nextFundId}
              && r.store.nextFundId == s.nextFundId + 1
              && r.store.loans == s.loans && r.store.nextLoanId == s.nextLoanId
              && var f := r.store.funds[s.nextFundId];
                 && f.name == req.name
                 && f.maxLoanAmount == req.maxLoanAmount && f.minLoanAmount == req.minLoanAmount
                 && (req.amount.None? ==> f.amount == 0)
                 && (req.amount.Some? ==> f.amount == req.amount.value)
                 && (req.interestRate.None? ==> f.interestRate == 0)
                 && (req.interestRate.Some? ==> f.interestRate == req.interestRate.value)
                 && (req.loanDuration.None? ==> f.loanDuration == 12)
                 && (req.loanDuration.Some? ==> f.loanDuration == req.loanDuration.value)
    ensures errors == map[] && Valid(s) ==>
              s.nextFundId !in s.funds &&
              forall k :: k in s.funds ==> r.store.funds[k] == s.funds[k]
    ensures Valid(s) ==> Valid(r.store)
  {
    if errors != map[] then Reply(Err(FundFieldErrors(CreationMessages(errors))), s)
    else
      var fund := Fund(req.name, req.amount.GetOr(DefaultFundAmount), req.maxLoanAmount, req.minLoanAmount,
                       req.interestRate.GetOr(DefaultInterestRate), req.loanDuration.GetOr(DefaultLoanDuration));
      var id := s.nextFundId;
      Reply(Ok(id), s.(funds := s.funds[id := fund], nextFundId := id + 1))
  }

  // ---------------------------------------------------------------------
  // The amount field of a top-up

  /** The amount as it arrives in a PUT body: absent, a decimal literal
      coeff * 10^-places, or something that is not a number. */
  datatype Entered = Missing | Number(coeff: int, places: nat) | NotNumeric

  /** The number of decimal digits of n; zero has one. */
  function NumDigits(n: nat): (r: nat)
    ensures r >= 1
    ensures n < Pow10(r)
    ensures r > 1 ==> Pow10(r - 1) <= n
  {
    if n < 10 then 1 else 1 + NumDigits(n / 10)
  }

  lemma {:induction false} Pow10Monotone(j: nat, k: nat)
    requires j <= k
    ensures Pow10(j) <= Pow10(k)
  {
    if j < k {
      Pow10Monotone(j, k - 1);
    }
  }

  /** n has at most k digits exactly when it is below 10^k. */
  lemma NumDigitsBound(n: nat, k: nat)
    requires k >= 1
    ensures NumDigits(n) <= k <==> n < Pow10(k)
  {
  }

  function Abs(x: int): nat {
    if x < 0 then -x else x
  }

  /** The digit counts the serializer's decimal field derives from a
      literal: total digits, digits before the point, decimal places. */
  datatype Digits = Digits(total: nat, whole: nat, decimals: nat)

  function Precision(coeff: int, places: nat): Digits {
    var digits := NumDigits(Abs(coeff));
    if places == 0 then Digits(digits, digits, 0)
    else if digits > places then Digits(digits, digits - places, places)
    else Digits(places, 0, places)
  }

  /** The messages the serializer reports for the amount field, declared
      with max_digits=10 and decimal_places=2; empty when it accepts. */
  function AmountErrors(e: Entered): seq<string> {
    match e
    case Missing => []
    case NotNumeric => ["A valid number is required."]
    case Number(coeff, places) =>
      var p := Precision(coeff, places);
      if p.total > 10 then ["Ensure that there are no more than 10 digits in total."]
      else if p.decimals > 2 then ["Ensure that there are no more than 2 decimal places."]
      else if p.whole > 8 then ["Ensure that there are no more than 8 digits before the decimal point."]
      else []
  }

  /** The amount field accepts a number exactly when it has at most two
      decimal places and fewer than 10^8 units before the point: the
      10-digit, 2-place column of LoanFund.amount. */
  lemma AmountFieldAccepts(coeff: int, places: nat)
    ensures AmountErrors(Number(coeff, places)) == [] <==> places <= 2 && Abs(coeff) < Pow10(8 + places)
  {
    var digits := NumDigits(Abs(coeff));
    NumDigitsBound(Abs(coeff), 8 + places);
    if places > 0 && digits <= places {
      Pow10Monotone(digits, 8 + places);
    }
  }

  /** A number the field accepts, in cents. */
  function EnteredCents(e: Entered): (c: int)
    requires AmountErrors(e) == []
    ensures e.Missing? ==> c == 0
    ensures e.Number? ==> e.places <= 2 && c * Pow10(e.places) == e.coeff * 100
  {
    match e
    case Missing => 0
    case Number(coeff, places) =>
      AmountFieldAccepts(coeff, places);
      assert Pow10(2 - places) * Pow10(places) == 100 by {
        if places == 1 { } else if places == 2 { }
      }
      coeff * Pow10(2 - places)
  }

  /** A top-up body: the amount, and the serializer's errors for the
      other fields the body carries (validated as a partial update, but
      never written). */
  datatype TopUpRequest = TopUpRequest(amount: Entered, otherErrors: FieldErrors)

  /** The partial-update serializer's verdict on a top-up body. */
  function PutErrors(req: TopUpRequest): (errors: FieldErrors)
    ensures "amount" in errors <==> AmountErrors(req.amount) != []
    ensures errors == map[] <==> AmountErrors(req.amount) == [] && req.otherErrors.Keys <= {"amount"}
  {
    var others := req.otherErrors - {"amount"};
    assert others.Keys == req.otherErrors.Keys - {"amount"};
    assert others == map[] <==> others.Keys == {} by {
      if others.Keys == {} { assert others == map[]; }
    }
    var amountErrors := AmountErrors(req.amount);
    if amountErrors == [] then others
    else
      var errors := others["amount" := amountErrors];
      assert "amount" in errors;
      errors
  }

  // ---------------------------------------------------------------------
  // The detail route

  /** GET on a fund. */
  function GetFund(s: Store, id: int): (r: Reply<Fund>)
    ensures r.store == s
    ensures r.result.Ok? <==> FundKnown(s, id)
    ensures !FundKnown(s, id) ==> r.result == Err(FundNotFound)
    ensures r.result.Ok? ==> r.result.value == s.funds[id as nat]
  {
    if !FundKnown(s, id) then Reply(Err(FundNotFound), s)
    else Reply(Ok(s.funds[id as nat]), s)
  }

  /** PUT on a fund: adds the entered amount (zero when absent) to the
      balance and keeps the result when it is at least the fund's minimum
      loan amount. There is no sign check and no upper bound. */
  function TopUp(s: Store, id: int, req: TopUpRequest): (r: Reply<Fund>)
    ensures !FundKnown(s, id) ==> r == Reply(Err(FundNotFound), s)
    ensures r.result.Err? ==> r.store == s
    // field validation comes before any arithmetic
    ensures FundKnown(s, id) && PutErrors(req) != map[] ==> r.result == Err(Invalid(PutErrors(req)))
    ensures FundKnown(s, id) && PutErrors(req) == map[] ==>
              var fund := s.funds[id as nat];
              var updated := fund.amount + EnteredCents(req.amount);
              && (r.result.Ok? <==> fund.minLoanAmount <= updated)
              && (r.result.Err? ==> r.result.error == AmountOutOfRange)
    ensures r.result.Ok? ==>
              && FundKnown(s, id) && PutErrors(req) == map[]
              && var fund := s.funds[id as nat];
                 && r.result.value == fund.(amount := fund.amount + EnteredCents(req.amount))
                 && id as nat in r.store.funds
                 && r.store.funds[id as nat] == r.result.value
                 && r.result.value.amount >= r.result.value.minLoanAmount
                 && r.store.funds.Keys == s.funds.Keys
                 && (forall k :: k in s.funds && k != id as nat ==> r.store.funds[k] == s.funds[k])
                 && r.store.loans == s.loans
                 && r.store.nextFundId == s.nextFundId && r.store.nextLoanId == s.nextLoanId
    ensures Valid(s) ==> Valid(r.store)
  {
    if !FundKnown(s, id) then Reply(Err(FundNotFound), s)
    else
      var errors := PutErrors(req);
      if errors != map[] then Reply(Err(Invalid(errors)), s)
      else
        var key := id as nat;
        var fund := s.funds[key];
        var updated := fund.amount + EnteredCents(req.amount);
        if fund.minLoanAmount <= updated then
          var topped := fund.(amount := updated);
          Reply(Ok(topped), s.(funds := s.funds[key := topped]))
        else Reply(Err(AmountOutOfRange), s)
  }

  /** A top-up that sends no amount leaves a fund whose balance is at
      least its minimum exactly as it was. */
  lemma TopUpWithoutAmount(s: Store, id: int, others: FieldErrors)
    requires FundKnown(s, id) && others.Keys <= {"amount"}
    requires s.funds[id as nat].minLoanAmount <= s.funds[id as nat].amount
    ensures var r := TopUp(s, id, TopUpRequest(Missing, others));
            r.result == Ok(s.funds[id as nat]) && r.store == s
  {
  }

  /** DELETE on a fund: removes it and, by the CASCADE foreign key, every
      loan drawn against it; all other rows are kept. */
  function DeleteFund(s: Store, id: int): (r: Reply<()>)
    ensures !FundKnown(s, id) ==> r == Reply(Err(FundNotFound), s)
    ensures r.result.Err? ==> r.store == s
    ensures FundKnown(s, id) ==> r.result.Ok?
    ensures r.result.Ok? ==>
              && r.store.funds.Keys == s.funds.Keys - {id as nat}
              && (forall k :: k in r.store.funds ==> r.store.funds[k] == s.funds[k])
              && (forall k :: k in s.loans ==> (k in r.store.loans <==> s.loans[k].fundId != id as nat))
              && (forall k :: k in r.store.loans ==> k in s.loans && r.store.loans[k] == s.loans[k])
              && r.store.nextFundId == s.nextFundId && r.store.nextLoanId == s.nextLoanId
    ensures Valid(s) ==> Valid(r.store)
  {
    if !FundKnown(s, id) then Reply(Err(FundNotFound), s)
    else
      var key := id as nat;
      var kept := map k | k in s.loans && s.loans[k].fundId != key :: s.loans[k];
      CascadeKeepsValid(s, key, kept);
      Reply(Ok(()), s.(funds := s.funds - {key}, loans := kept))
  }

  /** Removing a fund together with its loans keeps the invariant: every
      loan left references a fund that is left. */
  lemma CascadeKeepsValid(s: Store, key: nat, kept: map<nat, Loan>)
    requires kept == map k | k in s.loans && s.loans[k].fundId != key :: s.loans[k]
    ensures Valid(s) ==> Valid(s.(funds := s.funds - {key}, loans := kept))
  {
  }

  /** After a fund is deleted no loan references it. */
  lemma DeleteFundLeavesNoLoans(s: Store, id: int)
    requires FundKnown(s, id)
    ensures forall k :: k in DeleteFund(s, id).store.loans ==>
              DeleteFund(s, id).store.loans[k].fundId != id as nat
  {
  }
}
