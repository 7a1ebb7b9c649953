/** The loan endpoints of loans/views/loan.py: creating a loan against a
    fund (the POST branch of loan_list_create_view), approving, rejecting
    and deleting a loan. Each is a pure function from a store and a
    request to a result and the store it leaves behind. */
module LoanViews {
  import opened Results
  import opened Models
  import opened Store

  /** The fields of a loan-creation request body; None is a field the
      caller did not send. */
  datatype LoanRequest = LoanRequest(
    customerName: Option<string>,
    fundId: Option<int>,
    amount: Option<int>,     // cents
    status: Option<string>)

  /** The record handed to the loan serializer: the request's name and
      status with the fund's rate and duration copied in. */
  datatype LoanDraft = LoanDraft(
    customerName: Option<string>,
    fundId: nat,
    loanAmount: int,
    interestRate: int,
    duration: int,
    status: string)

  /** What the Loan model's field declarations demand of a row: a
      non-null customer name and a status among the declared choices. */
  predicate Conforms(d: LoanDraft) {
    d.customerName.Some? && ParseStatus(d.status).Some?
  }

  /** The loan serializer's verdict on a draft: its field errors, empty
      when it accepts. Its other checks are left abstract, but it never
      accepts a draft the model's field declarations refuse. */
  type Validator = v: LoanDraft -> FieldErrors | forall d :: v(d) == map[] ==> Conforms(d)
    witness RejectAll

  /** A serializer that refuses every draft. */
  function RejectAll(d: LoanDraft): (errors: FieldErrors)
    ensures errors != map[]
  {
    var errors := map["customerName" := []];
    assert "customerName" in errors;
    errors
  }

  /** `not loan_fund_id`: the id is absent or zero. */
  predicate FundIdFalsy(id: Option<int>) {
    id.None? || id.value == 0
  }

  /** The draft built for a request against fund fid. */
  function DraftFor(req: LoanRequest, fid: nat, fund: Fund): (d: LoanDraft)
    ensures d.fundId == fid && d.loanAmount == req.amount.GetOr(0)
    ensures d.interestRate == fund.interestRate && d.duration == fund.loanDuration
    ensures d.customerName == req.customerName
    ensures req.status.None? ==> ParseStatus(d.status) == Some(DefaultStatus)
    ensures req.status.Some? ==> d.status == req.status.value
  {
    LoanDraft(req.customerName, fid, req.amount.GetOr(0), fund.interestRate,
              fund.loanDuration, req.status.GetOr("Requested"))
  }

  /** A request that passes every check of loan creation: a fund id that
      names an existing fund, an amount between the fund's minimum and its
      current balance, a draft the serializer accepts, and a fund whose
      duration lets the installment be computed. The fund's
      maxLoanAmount plays no part. */
  predicate Admissible(s: Store, req: LoanRequest, validate: Validator) {
    && !FundIdFalsy(req.fundId)
    && FundKnown(s, req.fundId.value)
    && var fund := s.funds[req.fundId.value as nat];
       var amount := req.amount.GetOr(0);
       && fund.minLoanAmount <= amount <= fund.amount
       && validate(DraftFor(req, req.fundId.value as nat, fund)) == map[]
       && fund.loanDuration != 0
  }

  /** Loan creation. The checks run in a fixed order and the first that
      fails is reported: missing fund id, unknown fund, amount above the
      balance, amount below the minimum, serializer errors. On success the
      loan is stored with the fund's rate and duration and its installment
      computed, and the fund is debited by the loan amount. */
  function CreateLoan(s: Store, req: LoanRequest, validate: Validator, today: Date): (r: Reply<nat>)
    ensures r.result.Err? ==> r.store == s
    // an unknown fund here is a client error, never a 404
    ensures r.result.Err? ==> HttpStatus(r.result.error) != 404
    ensures FundIdFalsy(req.fundId) ==> r.result == Err(FundIdMissing)
    ensures !FundIdFalsy(req.fundId) && !FundKnown(s, req.fundId.value) ==>
              r.result == Err(FundDoesNotExist)
    ensures !FundIdFalsy(req.fundId) && FundKnown(s, req.fundId.value) ==>
              var fund := s.funds[req.fundId.value as nat];
              var amount := req.amount.GetOr(0);
              && (amount > fund.amount ==> r.result == Err(AmountExceedsFunds))
              && (amount <= fund.amount && amount < fund.minLoanAmount ==> r.result == Err(AmountBelowMinimum))
    ensures r.result.Ok? <==> Admissible(s, req, validate)
    ensures r.result.Ok? ==>
              && r.result.value == s.nextLoanId
              && r.store.loans.Keys == s.loans.Keys + {r.result.value}
              && r.store.nextLoanId == s.nextLoanId + 1
    // with the invariant the key is fresh, so exactly one loan is added
    ensures r.result.Ok? && Valid(s) ==>
              && r.result.value !in s.loans
              && (forall k :: k in s.loans ==> r.store.loans[k] == s.loans[k])
    ensures r.result.Ok? ==>
              var fid := req.fundId.value as nat;
              var fund := s.funds[fid];
              var amount := req.amount.GetOr(0);
              var l := r.store.loans[r.result.value];
              // the loan snapshots the fund's terms
              && l.fundId == fid && l.loanAmount == amount
              && l.interestRate == fund.interestRate && l.duration == fund.loanDuration
              && Some(l.customerName) == req.customerName
              && l.status == (if req.status.None? then DefaultStatus else ParseStatus(req.status.value).value)
              && l.dateRequested == today && l.dateApproved.None? && l.dateRejected.None?
              && Settled(l)
              // the fund is debited by exactly the amount, nothing else changes
              && r.store.funds.Keys == s.funds.Keys
              && r.store.funds[fid] == fund.(amount := fund.amount - amount)
              && r.store.funds[fid].amount >= 0
              && (forall k :: k in s.funds && k != fid ==> r.store.funds[k] == s.funds[k])
              && r.store.nextFundId == s.nextFundId
    ensures Valid(s) ==> Valid(r.store)
  {
    if FundIdFalsy(req.fundId) then Reply(Err(FundIdMissing), s)
    else if !FundKnown(s, req.fundId.value) then Reply(Err(FundDoesNotExist), s)
    else
      var fid := req.fundId.value as nat;
      var fund := s.funds[fid];
      var amount := req.amount.GetOr(0);
      if fund.amount < amount then Reply(Err(AmountExceedsFunds), s)
      else if fund.minLoanAmount > amount then Reply(Err(AmountBelowMinimum), s)
      else
        var draft := DraftFor(req, fid, fund);
        var errors := validate(draft);
        if errors != map[] then Reply(Err(Invalid(errors)), s)
        else
          var loan := Loan(draft.customerName.value, fid, amount, fund.interestRate, fund.loanDuration,
                           ParseStatus(draft.status).value, today, None, None, None);
          match Save(loan)
          case None => Reply(Err(DivisionByZero), s)
          case Some(saved) =>
            var id := s.nextLoanId;
            Reply(Ok(id), Store(s.funds[fid := fund.(amount := fund.amount - amount)],
                                s.loans[id := saved], s.nextFundId, id + 1))
  }

  /** The loan with its status set and the matching date stamped. */
  function Stamp(l: Loan, verdict: Status, today: Date): (r: Loan)
    requires verdict != Requested
    ensures r.status == verdict
    ensures verdict == Approved ==> r == l.(status := Approved, dateApproved := Some(today))
    ensures verdict == Rejected ==> r == l.(status := Rejected, dateRejected := Some(today))
  {
    match verdict
    case Approved => l.(status := Approved, dateApproved := Some(today))
    case Rejected => l.(status := Rejected, dateRejected := Some(today))
  }

  /** Stamping touches neither the amount, the rate, the duration nor the
      installment, so a saved loan stays saved. */
  lemma StampKeepsSaved(l: Loan, verdict: Status, today: Date)
    requires verdict != Requested
    ensures Saved(l) ==> Saved(Stamp(l, verdict, today))
  {
  }

  /** Under the invariant every stored loan is saved. */
  lemma StoredLoanSaved(s: Store, key: nat)
    requires key in s.loans
    ensures Valid(s) ==> Saved(s.loans[key])
  {
  }

  /** approve_loan and reject_loan: look the loan up, stamp it and save it
      (which runs the installment hook again). */
  function Review(s: Store, id: int, verdict: Status, today: Date): (r: Reply<()>)
    requires verdict != Requested
    ensures !LoanKnown(s, id) ==> r == Reply(Err(LoanDoesNotExist), s)
    ensures r.result.Err? ==> r.store == s && HttpStatus(r.result.error) != 404
    ensures LoanKnown(s, id) && Saved(s.loans[id as nat]) ==>
              && r.result.Ok?
              && id as nat in r.store.loans
              && r.store.loans[id as nat] == Stamp(s.loans[id as nat], verdict, today)
    ensures r.result.Ok? ==>
              && LoanKnown(s, id)
              && r.store.funds == s.funds
              && r.store.loans.Keys == s.loans.Keys
              && (forall k :: k in s.loans && k != id ==> r.store.loans[k] == s.loans[k])
              && r.store.nextFundId == s.nextFundId && r.store.nextLoanId == s.nextLoanId
              && r.store.loans[id as nat].status == verdict
    ensures Valid(s) ==> Valid(r.store)
  {
    if !LoanKnown(s, id) then Reply(Err(LoanDoesNotExist), s)
    else
      var key := id as nat;
      var stamped := Stamp(s.loans[key], verdict, today);
      StampKeepsSaved(s.loans[key], verdict, today);
      match Save(stamped)
      case None => Reply(Err(DivisionByZero), s)
      case Some(saved) => Reply(Ok(()), s.(loans := s.loans[key := saved]))
  }

  /** approve_loan: status Approved, date_approved today; every other
      field, the rejection date and the installment included, is kept. */
  function Approve(s: Store, id: int, today: Date): (r: Reply<()>)
    ensures !LoanKnown(s, id) ==> r == Reply(Err(LoanDoesNotExist), s)
    ensures r.result.Err? ==> r.store == s
    ensures LoanKnown(s, id) && (Valid(s) || Saved(s.loans[id as nat])) ==>
              && r.result.Ok?
              && r.store == s.(loans := s.loans[id as nat := s.loans[id as nat].(status := Approved, dateApproved := Some(today))])
    ensures Valid(s) ==> Valid(r.store)
  {
    if LoanKnown(s, id) then
      StoredLoanSaved(s, id as nat);
      Review(s, id, Approved, today)
    else Review(s, id, Approved, today)
  }

  /** reject_loan: status Rejected, date_rejected today; every other
      field, the approval date and the installment included, is kept. */
  function Reject(s: Store, id: int, today: Date): (r: Reply<()>)
    ensures !LoanKnown(s, id) ==> r == Reply(Err(LoanDoesNotExist), s)
    ensures r.result.Err? ==> r.store == s
    ensures LoanKnown(s, id) && (Valid(s) || Saved(s.loans[id as nat])) ==>
              && r.result.Ok?
              && r.store == s.(loans := s.loans[id as nat := s.loans[id as nat].(status := Rejected, dateRejected := Some(today))])
    ensures Valid(s) ==> Valid(r.store)
  {
    if LoanKnown(s, id) then
      StoredLoanSaved(s, id as nat);
      Review(s, id, Rejected, today)
    else Review(s, id, Rejected, today)
  }

  /** Approving twice is approving once with the later date: the repeat
      only moves date_approved. */
  lemma ApproveTwice(s: Store, id: int, t1: Date, t2: Date)
    requires LoanKnown(s, id) && Saved(s.loans[id as nat])
    ensures Approve(Approve(s, id, t1).store, id, t2) == Approve(s, id, t2)
  {
  }

  /** Rejecting an approved loan keeps its approval date: the two dates
      are independent columns. */
  lemma RejectAfterApprove(s: Store, id: int, t1: Date, t2: Date)
    requires LoanKnown(s, id) && Saved(s.loans[id as nat])
    ensures var s2 := Reject(Approve(s, id, t1).store, id, t2).store;
            && s2.loans[id as nat].status == Rejected
            && s2.loans[id as nat].dateApproved == Some(t1)
            && s2.loans[id as nat].dateRejected == Some(t2)
            && s2.funds == s.funds
  {
  }

  /** deleteLoan: removes exactly that loan. The fund is not credited
      back: every fund balance is as before. */
  function DeleteLoan(s: Store, id: int): (r: Reply<()>)
    ensures !LoanKnown(s, id) ==> r == Reply(Err(LoanDoesNotExist), s)
    ensures r.result.Err? ==> r.store == s
    ensures LoanKnown(s, id) ==> r.result.Ok?
    ensures r.result.Ok? ==>
              && r.store.loans.Keys == s.loans.Keys - {id as nat}
              && (forall k :: k in r.store.loans ==> k in s.loans && r.store.loans[k] == s.loans[k])
              && r.store.funds == s.funds
              && r.store.nextFundId == s.nextFundId && r.store.nextLoanId == s.nextLoanId
    ensures Valid(s) ==> Valid(r.store)
  {
    if !LoanKnown(s, id) then Reply(Err(LoanDoesNotExist), s)
    else Reply(Ok(()), s.(loans := s.loans - {id as nat}))
  }
}
