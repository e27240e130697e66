/** The loan handlers of `src/modules/loan/loan.controller.ts` over an
    in-memory store of loans and repayments. A loan moves
    pending -> approved | declined on review, and approved | disbursed ->
    disbursed | completed on each repayment, which lowers its remaining
    amount without clamping. */
module LoanLifecycle {
  import opened Results
  import opened Sequences
  import opened Calendar
  import opened RepaymentSchedule
  import Records

  datatype LoanStatus = Pending | Approved | Declined | Disbursed | Completed | Defaulted

  /** The schema-validated body of a loan application. */
  datatype LoanApplication = LoanApplication(amount: real, paymentMode: PaymentMode,
                                             guarantor1: string, guarantor2: string, personalInfo: string,
                                             startDate: CalendarDate, endDate: CalendarDate)

  datatype Loan = Loan(id: nat, userId: Records.UserId, amount: real, interestRate: real, totalAmount: real,
                       remainingAmount: real, status: LoanStatus, paymentMode: PaymentMode,
                       startDate: CalendarDate, endDate: CalendarDate,
                       guarantor1: string, guarantor2: string, personalInfo: string,
                       repaymentSchedule: Result<seq<Installment>, ScheduleError>,
                       approvedBy: Option<Records.UserId>, approvedAt: Option<int>, rejectionReason: Option<string>)

  datatype Repayment = Repayment(id: nat, loanId: nat, amount: real, paymentMethod: string, reference: string)

  /** One value per error response of the handlers. */
  datatype LoanError =
    | LoanNotFound     // 404 "Loan not found"
    | NotRepayable     // 400 "Loan is not in a state that allows repayment"
    | NotPending       // 400 "Loan is not in pending state"
    | ReasonRequired   // 400 "Rejection reason is required"

  /** The flat 0.5% interest every application is charged. */
  const InterestRate: real := 0.005

  /** Statuses in which a repayment is accepted. */
  predicate Repayable(s: LoanStatus) {
    s == Approved || s == Disbursed
  }

  /** The lifecycle: review moves a pending loan to approved or declined, and
      a repayment moves an approved or disbursed loan to disbursed or
      completed. */
  predicate Transition(from: LoanStatus, to: LoanStatus) {
    || (from == Pending && (to == Approved || to == Declined))
    || (Repayable(from) && (to == Disbursed || to == Completed))
  }

  /** The loan row after a repayment of `amount`: the remaining amount
      falls by it, and the loan is completed when nothing remains. */
  function AfterRepayment(l: Loan, amount: real): (r: Loan)
    ensures r.remainingAmount == l.remainingAmount - amount
    ensures r.status == Completed <==> r.remainingAmount <= 0.0
    ensures r.status == Disbursed <==> r.remainingAmount > 0.0
    ensures r.(remainingAmount := l.remainingAmount, status := l.status) == l
  {
    var remaining := l.remainingAmount - amount;
    l.(remainingAmount := remaining, status := if remaining <= 0.0 then Completed else Disbursed)
  }

  /** The loan row after approval by `approver` at `now`: a review step of
      the lifecycle that records who approved and when, clears any
      rejection reason, and leaves the amounts and terms alone. */
  function AfterApproval(l: Loan, approver: Option<Records.UserId>, now: int): (r: Loan)
    ensures l.status == Pending ==> Transition(l.status, r.status)
    ensures r.status == Approved && r.approvedBy == approver && r.approvedAt == Some(now) && r.rejectionReason.None?
    ensures r.(status := l.status, approvedBy := l.approvedBy, approvedAt := l.approvedAt,
               rejectionReason := l.rejectionReason) == l
  {
    l.(status := Approved, approvedBy := approver, approvedAt := Some(now), rejectionReason := None)
  }

  /** The loan row after rejection for `reason`: a review step of the
      lifecycle into a closed status that stores the reason and leaves
      every other field, the approval fields included, alone. */
  function AfterRejection(l: Loan, reason: string): (r: Loan)
    ensures l.status == Pending ==> Transition(l.status, r.status)
    ensures Closed(r.status) && r.rejectionReason == Some(reason)
    ensures r.(status := l.status, rejectionReason := l.rejectionReason) == l
  {
    l.(status := Declined, rejectionReason := Some(reason))
  }

  /** Statuses no handler moves a loan out of. */
  predicate Closed(s: LoanStatus) {
    s == Completed || s == Declined
  }

  /** How one handler call may change the loan table: loans are only
      appended, every existing loan keeps its status or takes one lifecycle
      step, and a closed loan is left exactly as it was. */
  predicate FollowsLifecycle(before: seq<Loan>, after: seq<Loan>) {
    && |before| <= |after|
    && forall i :: 0 <= i < |before| ==>
         && (after[i].status == before[i].status || Transition(before[i].status, after[i].status))
         && (Closed(before[i].status) ==> after[i] == before[i])
  }

  /** Over any run of handler calls, each following the lifecycle, a loan
      that was closed is still exactly as it was, and a loan that had left
      pending never returns to it. */
  lemma {:induction false} RunFollowsLifecycle(run: seq<seq<Loan>>, i: nat)
    requires |run| >= 1 && i < |run[0]|
    requires forall k :: 0 <= k < |run| - 1 ==> FollowsLifecycle(run[k], run[k + 1])
    ensures i < |run[|run| - 1]|
    ensures Closed(run[0][i].status) ==> run[|run| - 1][i] == run[0][i]
    ensures run[0][i].status != Pending ==> run[|run| - 1][i].status != Pending
    decreases |run|
  {
    if |run| > 1 {
      var prefix := run[..|run| - 1];
      RunFollowsLifecycle(prefix, i);
      assert FollowsLifecycle(run[|run| - 2], run[|run| - 1]);
    }
  }

  /** Sum of a sequence of amounts. */
  function Sum(amounts: seq<real>): real {
    if amounts == [] then 0.0 else Sum(amounts[..|amounts| - 1]) + amounts[|amounts| - 1]
  }

  /** A loan after a run of `makeRepayment` calls, or the rejection of the
      first call that finds it neither approved nor disbursed. */
  function Replay(l: Loan, amounts: seq<real>): Result<Loan, LoanError> {
    if amounts == [] then Ok(l)
    else match Replay(l, amounts[..|amounts| - 1])
      case Err(e) => Err(e)
      case Ok(m) => if Repayable(m.status) then Ok(AfterRepayment(m, amounts[|amounts| - 1])) else Err(NotRepayable)
  }

  /** Repaying a repayable loan with positive amounts: every call is accepted
      exactly while something remained before it, the remaining amount is
      the starting one less all that was repaid, and the loan is completed
      exactly when nothing remains. */
  lemma {:induction false} ReplaySettles(l: Loan, amounts: seq<real>)
    requires Repayable(l.status)
    requires forall k :: 0 <= k < |amounts| ==> amounts[k] > 0.0
    ensures Replay(l, amounts).Ok? <==> |amounts| <= 1 || l.remainingAmount - Sum(amounts[..|amounts| - 1]) > 0.0
    ensures Replay(l, amounts).Ok? ==> Replay(l, amounts).value.remainingAmount == l.remainingAmount - Sum(amounts)
    ensures Replay(l, amounts).Ok? && amounts != [] ==>
              (Replay(l, amounts).value.status == Completed <==> Replay(l, amounts).value.remainingAmount <= 0.0)
    decreases |amounts|
  {
    if amounts != [] {
      var prefix := amounts[..|amounts| - 1];
      ReplaySettles(l, prefix);
      if |prefix| >= 1 {
        assert prefix[..|prefix| - 1] == amounts[..|amounts| - 2];
        assert Sum(prefix) == Sum(prefix[..|prefix| - 1]) + prefix[|prefix| - 1];
      }
    }
  }

  /** A completed or declined loan rejects every repayment, however many
      are attempted. */
  lemma {:induction false} ClosedLoanRejectsRepayments(l: Loan, amounts: seq<real>)
    requires l.status == Completed || l.status == Declined
    requires amounts != []
    ensures Replay(l, amounts) == Err(NotRepayable)
    decreases |amounts|
  {
    if |amounts| > 1 {
      ClosedLoanRejectsRepayments(l, amounts[..|amounts| - 1]);
    }
  }

  /** The `limitFactors` of `getUserLoans`. */
  datatype LimitFactors = LimitFactors(walletBalance: real, totalLoans: nat, approvedLoans: nat,
                                       pendingLoans: nat, completedLoans: nat, defaultedLoans: nat,
                                       totalLoanAmount: real, outstandingAmount: real)

  function SumAmount(loans: seq<Loan>): real {
    if loans == [] then 0.0 else loans[0].amount + SumAmount(loans[1..])
  }

  function SumRemaining(loans: seq<Loan>): real {
    if loans == [] then 0.0 else loans[0].remainingAmount + SumRemaining(loans[1..])
  }

  function WithStatus(loans: seq<Loan>, s: LoanStatus): seq<Loan> {
    Filter(loans, (l: Loan) => l.status == s)
  }

  function RepayableLoans(loans: seq<Loan>): seq<Loan> {
    Filter(loans, (l: Loan) => Repayable(l.status))
  }

  /** The loans `findMany` fetches for one user, in table order. */
  function LoansOf(loans: seq<Loan>, userId: Records.UserId): seq<Loan> {
    Filter(loans, (l: Loan) => l.userId == userId)
  }

  /** The counts and sums over one user's loans; the wallet balance is 0
      when the user has no wallet. The four counts and the declined loans
      make up all loans, the total amount splits by status, and the
      outstanding amount is not negative while no approved or disbursed
      loan has a negative remaining amount. */
  function LimitFactorsOf(userLoans: seq<Loan>, walletBalance: Option<real>): (r: LimitFactors)
    ensures walletBalance.None? ==> r.walletBalance == 0.0
    ensures r.totalLoans == |userLoans|
    ensures r.approvedLoans + r.pendingLoans + r.completedLoans + r.defaultedLoans
              + |WithStatus(userLoans, Declined)| == r.totalLoans
    ensures r.totalLoanAmount == SumAmount(RepayableLoans(userLoans)) + SumAmount(WithStatus(userLoans, Pending))
                                 + SumAmount(WithStatus(userLoans, Completed)) + SumAmount(WithStatus(userLoans, Declined))
                                 + SumAmount(WithStatus(userLoans, Defaulted))
    ensures (forall l :: l in userLoans && Repayable(l.status) ==> l.remainingAmount >= 0.0) ==>
              r.outstandingAmount >= 0.0
  {
    StatusCountsAddUp(userLoans);
    LoanAmountsPartition(userLoans);
    OutstandingNonNegative(userLoans);
    LimitFactors(walletBalance.GetOr(0.0), |userLoans|, |RepayableLoans(userLoans)|,
                 |WithStatus(userLoans, Pending)|, |WithStatus(userLoans, Completed)|,
                 |WithStatus(userLoans, Defaulted)|, SumAmount(userLoans), SumRemaining(RepayableLoans(userLoans)))
  }

  /** The four counts and the declined loans make up all loans, so the
      counts never exceed the total. */
  lemma {:induction false} StatusCountsAddUp(loans: seq<Loan>)
    ensures |RepayableLoans(loans)| + |WithStatus(loans, Pending)| + |WithStatus(loans, Completed)|
              + |WithStatus(loans, Defaulted)| + |WithStatus(loans, Declined)| == |loans|
  {
    if loans != [] {
      StatusCountsAddUp(loans[1..]);
      RepayableStep(loans);
      StatusStep(loans, Pending);
      StatusStep(loans, Completed);
      StatusStep(loans, Declined);
      StatusStep(loans, Defaulted);
    }
  }

  /** The total loan amount is the amount of the approved or disbursed,
      pending, completed, declined and defaulted loans together. */
  lemma {:induction false} LoanAmountsPartition(loans: seq<Loan>)
    ensures SumAmount(loans) == SumAmount(RepayableLoans(loans)) + SumAmount(WithStatus(loans, Pending))
                                + SumAmount(WithStatus(loans, Completed)) + SumAmount(WithStatus(loans, Declined))
                                + SumAmount(WithStatus(loans, Defaulted))
  {
    if loans != [] {
      LoanAmountsPartition(loans[1..]);
      RepayableStep(loans);
      StatusStep(loans, Pending);
      StatusStep(loans, Completed);
      StatusStep(loans, Declined);
      StatusStep(loans, Defaulted);
    }
  }

  /** The first loan counts, with its amount, among the loans of its own
      status only. */
  lemma StatusStep(loans: seq<Loan>, s: LoanStatus)
    requires loans != []
    ensures |WithStatus(loans, s)| == (if loans[0].status == s then 1 else 0) + |WithStatus(loans[1..], s)|
    ensures SumAmount(WithStatus(loans, s))
            == (if loans[0].status == s then loans[0].amount else 0.0) + SumAmount(WithStatus(loans[1..], s))
  {
    var kept := WithStatus(loans, s);
    if loans[0].status == s {
      assert kept[1..] == WithStatus(loans[1..], s);
    }
  }

  /** The first loan counts, with its amount, among the repayable loans
      exactly when it is approved or disbursed. */
  lemma RepayableStep(loans: seq<Loan>)
    requires loans != []
    ensures |RepayableLoans(loans)| == (if Repayable(loans[0].status) then 1 else 0) + |RepayableLoans(loans[1..])|
    ensures SumAmount(RepayableLoans(loans))
            == (if Repayable(loans[0].status) then loans[0].amount else 0.0) + SumAmount(RepayableLoans(loans[1..]))
  {
    var kept := RepayableLoans(loans);
    if Repayable(loans[0].status) {
      assert kept[1..] == RepayableLoans(loans[1..]);
    }
  }

  /** The outstanding amount is not negative when no approved or disbursed
      loan has a negative remaining amount. */
  lemma {:induction false} OutstandingNonNegative(loans: seq<Loan>)
    ensures (forall l :: l in loans && Repayable(l.status) ==> l.remainingAmount >= 0.0) ==>
              SumRemaining(RepayableLoans(loans)) >= 0.0
  {
    if loans != [] {
      OutstandingNonNegative(loans[1..]);
      assert forall l :: l in loans[1..] ==> l in loans;
    }
  }

  /** Sum of the repayments recorded for one loan. */
  function Paid(repayments: seq<Repayment>, loanId: nat): real {
    if repayments == [] then 0.0
    else
      var last := repayments[|repayments| - 1];
      Paid(repayments[..|repayments| - 1], loanId) + (if last.loanId == loanId then last.amount else 0.0)
  }

  /** Nothing is paid on a loan no repayment refers to. */
  lemma {:induction false} NothingPaid(repayments: seq<Repayment>, loanId: nat)
    requires forall j :: 0 <= j < |repayments| ==> repayments[j].loanId != loanId
    ensures Paid(repayments, loanId) == 0.0
  {
    if repayments != [] {
      NothingPaid(repayments[..|repayments| - 1], loanId);
    }
  }

  /** Recording a repayment adds its amount to its own loan only. */
  lemma PaidAfterAppend(repayments: seq<Repayment>, r: Repayment)
    ensures forall loanId :: Paid(repayments + [r], loanId)
                             == Paid(repayments, loanId) + (if r.loanId == loanId then r.amount else 0.0)
  {
    assert (repayments + [r])[..|repayments|] == repayments;
  }

  /** Loan table integrity: ids are positions; every loan carries the 0.5%
      rate, its total and, as remaining amount, its total less what was
      repaid on it; a completed loan has nothing remaining and a disbursed
      one has something remaining. */
  predicate LoansValid(loans: seq<Loan>, repayments: seq<Repayment>) {
    forall i :: 0 <= i < |loans| ==>
      && loans[i].id == i
      && loans[i].interestRate == InterestRate
      && loans[i].totalAmount == loans[i].amount * (1.0 + InterestRate)
      && loans[i].remainingAmount == loans[i].totalAmount - Paid(repayments, i)
      && (loans[i].status == Completed ==> loans[i].remainingAmount <= 0.0)
      && (loans[i].status == Disbursed ==> loans[i].remainingAmount > 0.0)
  }

  /** Repayment table integrity: ids are positions and every repayment is
      of a loan that has since been disbursed or completed. */
  predicate RepaymentsValid(loans: seq<Loan>, repayments: seq<Repayment>) {
    forall j :: 0 <= j < |repayments| ==>
      && repayments[j].id == j && repayments[j].loanId < |loans|
      && (loans[repayments[j].loanId].status == Disbursed || loans[repayments[j].loanId].status == Completed)
  }

  /** A loan that was never repaid still owes its whole total. */
  lemma UnpaidLoanOwesTotal(loans: seq<Loan>, repayments: seq<Repayment>, i: nat)
    requires LoansValid(loans, repayments) && RepaymentsValid(loans, repayments)
    requires i < |loans| && !(loans[i].status == Disbursed || loans[i].status == Completed)
    ensures loans[i].remainingAmount == loans[i].totalAmount
  {
    NothingPaid(repayments, i);
  }

  /** Updating a pending loan's review fields keeps both tables valid. */
  lemma ReviewKeepsValid(loans: seq<Loan>, repayments: seq<Repayment>, i: nat, reviewed: Loan)
    requires LoansValid(loans, repayments) && RepaymentsValid(loans, repayments)
    requires i < |loans| && loans[i].status == Pending
    requires reviewed.status == Approved || reviewed.status == Declined
    requires reviewed.(status := Pending, approvedBy := loans[i].approvedBy, approvedAt := loans[i].approvedAt,
                       rejectionReason := loans[i].rejectionReason) == loans[i]
    ensures LoansValid(loans[i := reviewed], repayments) && RepaymentsValid(loans[i := reviewed], repayments)
  {
  }

  /** Recording a repayment and updating its loan keeps both tables valid. */
  lemma RepaymentKeepsValid(loans: seq<Loan>, repayments: seq<Repayment>, r: Repayment)
    requires LoansValid(loans, repayments) && RepaymentsValid(loans, repayments)
    requires r.id == |repayments| && r.loanId < |loans| && Repayable(loans[r.loanId].status)
    ensures var updated := loans[r.loanId := AfterRepayment(loans[r.loanId], r.amount)];
      LoansValid(updated, repayments + [r]) && RepaymentsValid(updated, repayments + [r])
  {
    PaidAfterAppend(repayments, r);
  }

  /** Appending a new pending loan keeps both tables valid. */
  lemma ApplicationKeepsValid(loans: seq<Loan>, repayments: seq<Repayment>, l: Loan)
    requires LoansValid(loans, repayments) && RepaymentsValid(loans, repayments)
    requires l.id == |loans| && l.status == Pending && l.interestRate == InterestRate
    requires l.totalAmount == l.amount * (1.0 + InterestRate) && l.remainingAmount == l.totalAmount
    ensures LoansValid(loans + [l], repayments) && RepaymentsValid(loans + [l], repayments)
  {
    NothingPaid(repayments, l.id);
  }

  class LoanBook {
    var loans: seq<Loan>
    var repayments: seq<Repayment>

    ghost predicate Valid()
      reads this
    {
      LoansValid(loans, repayments) && RepaymentsValid(loans, repayments)
    }

    constructor ()
      ensures Valid() && loans == [] && repayments == []
    {
      loans := [];
      repayments := [];
    }

    /** `applyForLoan`: a pending loan at 0.5% interest whose remaining
        amount is its total, with the repayment schedule of its amount,
        mode and dates. */
    method ApplyForLoan(userId: Records.UserId, app: LoanApplication) returns (loan: Loan)
      requires Valid()
      requires app.paymentMode == Monthly ==> app.startDate.day <= 28
      modifies this
      ensures Valid()
      ensures repayments == old(repayments) && loans == old(loans) + [loan]
      ensures FollowsLifecycle(old(loans), loans)
      ensures loan == Loan(|old(loans)|, userId, app.amount, InterestRate, app.amount * 1.005, app.amount * 1.005,
                           Pending, app.paymentMode, app.startDate, app.endDate,
                           app.guarantor1, app.guarantor2, app.personalInfo,
                           Schedule(app.amount, InterestRate, app.paymentMode, app.startDate, app.endDate),
                           None, None, None)
    {
      var totalAmount := app.amount * (1.0 + InterestRate);
      var schedule := CalculateRepaymentSchedule(app.amount, InterestRate, app.paymentMode, app.startDate, app.endDate);
      loan := Loan(|loans|, userId, app.amount, InterestRate, totalAmount, totalAmount, Pending, app.paymentMode,
                   app.startDate, app.endDate, app.guarantor1, app.guarantor2, app.personalInfo, schedule,
                   None, None, None);
      ApplicationKeepsValid(loans, repayments, loan);
      loans := loans + [loan];
    }

    /** `makeRepayment`: a loan with that id belonging to the caller, in an
        approved or disbursed state; then one repayment is recorded and the
        loan's remaining amount and status are updated. */
    method MakeRepayment(userId: Records.UserId, loanId: nat, amount: real, paymentMethod: string, reference: string)
      returns (r: Result<Repayment, LoanError>)
      requires Valid()
      modifies this
      ensures Valid()
      ensures FollowsLifecycle(old(loans), loans)
      ensures loanId >= |old(loans)| || old(loans)[loanId].userId != userId ==> r == Err(LoanNotFound)
      ensures loanId < |old(loans)| && old(loans)[loanId].userId == userId && !Repayable(old(loans)[loanId].status) ==>
                r == Err(NotRepayable)
      ensures loanId < |old(loans)| && old(loans)[loanId].userId == userId && Repayable(old(loans)[loanId].status) ==>
                r.Ok?
      ensures r.Err? ==> loans == old(loans) && repayments == old(repayments)
      ensures r.Ok? ==>
                && loanId < |old(loans)| && old(loans)[loanId].userId == userId && Repayable(old(loans)[loanId].status)
                && r.value == Repayment(|old(repayments)|, loanId, amount, paymentMethod, reference)
                && repayments == old(repayments) + [r.value]
                && loans == old(loans)[loanId := AfterRepayment(old(loans)[loanId], amount)]
    {
      if loanId >= |loans| || loans[loanId].userId != userId {
        return Err(LoanNotFound);
      }
      var loan := loans[loanId];
      if !Repayable(loan.status) {
        return Err(NotRepayable);
      }
      var repayment := Repayment(|repayments|, loanId, amount, paymentMethod, reference);
      RepaymentKeepsValid(loans, repayments, repayment);
      repayments := repayments + [repayment];
      loans := loans[loanId := AfterRepayment(loan, amount)];
      r := Ok(repayment);
    }

    /** `approveLoan`: an existing pending loan becomes approved by the
        reviewer at `now`, and any rejection reason is cleared. */
    method ApproveLoan(loanId: nat, approver: Option<Records.UserId>, now: int) returns (r: Result<Loan, LoanError>)
      requires Valid()
      modifies this
      ensures Valid()
      ensures repayments == old(repayments) && FollowsLifecycle(old(loans), loans)
      ensures loanId >= |old(loans)| ==> r == Err(LoanNotFound)
      ensures loanId < |old(loans)| && old(loans)[loanId].status != Pending ==> r == Err(NotPending)
      ensures loanId < |old(loans)| && old(loans)[loanId].status == Pending ==> r.Ok?
      ensures r.Err? ==> loans == old(loans)
      ensures r.Ok? ==>
                && loanId < |old(loans)| && old(loans)[loanId].status == Pending
                && r.value == AfterApproval(old(loans)[loanId], approver, now)
                && loans == old(loans)[loanId := r.value]
    {
      if loanId >= |loans| {
        return Err(LoanNotFound);
      }
      if loans[loanId].status != Pending {
        return Err(NotPending);
      }
      var approved := AfterApproval(loans[loanId], approver, now);
      ReviewKeepsValid(loans, repayments, loanId, approved);
      loans := loans[loanId := approved];
      r := Ok(approved);
    }

    /** `rejectLoan`: a non-empty reason, checked before the lookup, then an
        existing pending loan becomes declined with that reason. */
    method RejectLoan(loanId: nat, reason: Option<string>) returns (r: Result<Loan, LoanError>)
      requires Valid()
      modifies this
      ensures Valid()
      ensures repayments == old(repayments) && FollowsLifecycle(old(loans), loans)
      ensures reason.None? || reason.value == "" ==> r == Err(ReasonRequired)
      ensures reason.Some? && reason.value != "" && loanId >= |old(loans)| ==> r == Err(LoanNotFound)
      ensures reason.Some? && reason.value != "" && loanId < |old(loans)| && old(loans)[loanId].status != Pending ==>
                r == Err(NotPending)
      ensures reason.Some? && reason.value != "" && loanId < |old(loans)| && old(loans)[loanId].status == Pending ==>
                r.Ok?
      ensures r.Err? ==> loans == old(loans)
      ensures r.Ok? ==>
                && reason.Some? && reason.value != ""
                && loanId < |old(loans)| && old(loans)[loanId].status == Pending
                && r.value == AfterRejection(old(loans)[loanId], reason.value)
                && loans == old(loans)[loanId := r.value]
    {
      if reason.None? || reason.value == "" {
        return Err(ReasonRequired);
      }
      if loanId >= |loans| {
        return Err(LoanNotFound);
      }
      if loans[loanId].status != Pending {
        return Err(NotPending);
      }
      var declined := AfterRejection(loans[loanId], reason.value);
      ReviewKeepsValid(loans, repayments, loanId, declined);
      loans := loans[loanId := declined];
      r := Ok(declined);
    }

    /** The `limitFactors` of `getUserLoans`: over the caller's loans, with
        the balance of the caller's wallet when there is one. */
    function UserLimitFactors(wallets: seq<Records.Wallet>, userId: Records.UserId): (r: LimitFactors)
      reads this
      ensures Records.WalletOfUser(wallets, userId).None? ==> r.walletBalance == 0.0
      ensures Records.WalletOfUser(wallets, userId).Some? ==>
                r.walletBalance == Records.WalletOfUser(wallets, userId).value.balance
      ensures r.totalLoans <= |loans|
      ensures r.totalLoans == 0 <==> forall i :: 0 <= i < |loans| ==> loans[i].userId != userId
      ensures r == LimitFactorsOf(LoansOf(loans, userId),
                                  match Records.WalletOfUser(wallets, userId)
                                  case Some(w) => Some(w.balance)
                                  case None => None)
    {
      var mine := LoansOf(loans, userId);
      assert mine != [] ==> mine[0] in loans && mine[0].userId == userId;
      assert forall i :: 0 <= i < |loans| ==> loans[i] in loans;
      var balance := match Records.WalletOfUser(wallets, userId)
        case Some(w) => Some(w.balance)
        case None => None;
      LimitFactorsOf(mine, balance)
    }

    /** In a valid store no user has a negative outstanding amount. */
    lemma OutstandingIsNonNegative(wallets: seq<Records.Wallet>, userId: Records.UserId)
      requires Valid()
      requires forall i :: 0 <= i < |loans| && loans[i].status == Approved ==> loans[i].amount >= 0.0
      ensures UserLimitFactors(wallets, userId).outstandingAmount >= 0.0
    {
      var mine := LoansOf(loans, userId);
      forall l | l in mine && Repayable(l.status)
        ensures l.remainingAmount >= 0.0
      {
        var i :| 0 <= i < |loans| && loans[i] == l;
        if l.status == Approved {
          UnpaidLoanOwesTotal(loans, repayments, i);
        }
      }
      OutstandingNonNegative(mine);
    }
  }
}
