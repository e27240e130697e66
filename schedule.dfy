/** The repayment-schedule generator of `src/utils/loan.utils.ts`: a loan of
    `principal` at a flat `interestRate` is split into equal installments, one
    per day, week or calendar month from the start date to the end date
    inclusive, each being the total divided by a separately computed period
    count. The day, week and month counters are modelled exactly; the
    relation between the number of installments and that divisor is proved
    per payment mode below. */
module RepaymentSchedule {
  import opened Results
  import opened Calendar
  import opened Numbers

  /** The loan's `paymentMode`; `Unrecognised` is any other string, which the
      generator's `switch` has no case for. */
  datatype PaymentMode = Daily | Weekly | Monthly | Unrecognised(name: string)

  datatype Installment = Installment(dueDate: CalendarDate, amount: real, principal: real, interest: real)

  /** The installments would be divided by a period count of zero (in
      JavaScript every amount would become Infinity or NaN). */
  datatype ScheduleError = ZeroPeriodCount

  /** `getDaysBetween`: whole days from `start` to `end` (negative when
      `end` is earlier), so that stepping that many days from the earlier
      date reaches the later one. */
  function DaysBetween(start: CalendarDate, end: CalendarDate): (r: int)
    ensures r >= 0 ==> DayNumber(AddDays(start, r)) == DayNumber(end)
    ensures r < 0 ==> DayNumber(AddDays(end, -r)) == DayNumber(start)
  {
    DayNumber(end) - DayNumber(start)
  }

  /** `getWeeksBetween`: the day count divided by 7, rounded up. */
  function WeeksBetween(start: CalendarDate, end: CalendarDate): (r: int)
    ensures (r - 1) * 7 < DaysBetween(start, end) <= r * 7
    ensures DayNumber(start) < DayNumber(end) ==> r >= 1
  {
    CeilDiv(DaysBetween(start, end), 7)
  }

  /** `getMonthsBetween`: the difference of the year and month fields, plus
      one, that is the number of calendar months from the start's month to
      the end's inclusive; at least one when the start is not after the end. */
  function MonthsBetween(start: CalendarDate, end: CalendarDate): (r: int)
    ensures r == MonthIndex(end) - MonthIndex(start) + 1
    ensures DayNumber(start) <= DayNumber(end) ==> r >= 1
  {
    MonthIndexMonotone(start, end);
    (end.year - start.year) * 12 + (end.month - start.month) + 1
  }

  /** The divisor each installment of a schedule is computed with. */
  function PeriodCount(mode: PaymentMode, start: CalendarDate, end: CalendarDate): int
    requires !mode.Unrecognised?
  {
    match mode
    case Daily => DaysBetween(start, end)
    case Weekly => WeeksBetween(start, end)
    case Monthly => MonthsBetween(start, end)
  }

  /** A date the loop of `mode` can step from: monthly stepping is modelled
      only from days that exist in every month. */
  predicate Steppable(mode: PaymentMode, d: CalendarDate) {
    !mode.Unrecognised? && (mode == Monthly ==> d.day <= 28)
  }

  /** How the loop advances `currentDate`: one day, seven days or one month. */
  function Step(mode: PaymentMode, d: CalendarDate): (r: CalendarDate)
    requires Steppable(mode, d)
    ensures Steppable(mode, r) && DayNumber(r) > DayNumber(d)
    ensures mode == Daily ==> DayNumber(r) == DayNumber(d) + 1
    ensures mode == Weekly ==> DayNumber(r) == DayNumber(d) + 7
    ensures mode == Monthly ==> r.day == d.day && MonthIndex(r) == MonthIndex(d) + 1
  {
    match mode
    case Daily => NextDay(d)
    case Weekly => AddDays(d, 7)
    case Monthly => AddMonth(d)
  }

  /** The due dates the loop visits, from `from` while not after `end`. */
  function DueDates(mode: PaymentMode, from: CalendarDate, end: CalendarDate): seq<CalendarDate>
    requires Steppable(mode, from)
    decreases DayNumber(end) - DayNumber(from)
  {
    if DayNumber(from) > DayNumber(end) then []
    else [from] + DueDates(mode, Step(mode, from), end)
  }

  /** One installment per due date, all carrying the same three figures. */
  function Installments(dues: seq<CalendarDate>, amount: real, principal: real, interest: real): (r: seq<Installment>)
    ensures |r| == |dues|
    ensures forall k :: 0 <= k < |r| ==> r[k] == Installment(dues[k], amount, principal, interest)
  {
    if dues == [] then []
    else [Installment(dues[0], amount, principal, interest)] + Installments(dues[1..], amount, principal, interest)
  }

  /** One turn of the loop: the date it pushes is the next due date, and
      the installments still to come start one step later. */
  lemma PushStep(mode: PaymentMode, current: CalendarDate, end: CalendarDate,
                 schedule: seq<Installment>, amount: real, principal: real, interest: real)
    requires Steppable(mode, current) && DayNumber(current) <= DayNumber(end)
    ensures schedule + Installments(DueDates(mode, current, end), amount, principal, interest)
         == (schedule + [Installment(current, amount, principal, interest)])
            + Installments(DueDates(mode, Step(mode, current), end), amount, principal, interest)
  {
    var dues := DueDates(mode, current, end);
    var rest := DueDates(mode, Step(mode, current), end);
    assert dues[0] == current && dues[1..] == rest;
    var pushed := Installment(current, amount, principal, interest);
    var later := Installments(rest, amount, principal, interest);
    assert Installments(dues, amount, principal, interest) == [pushed] + later;
    assert schedule + ([pushed] + later) == (schedule + [pushed]) + later;
  }

  /** The installments of one schedule when the due dates are `dues` and
      each figure is divided by `n`. */
  function FlatInstallments(dues: seq<CalendarDate>, n: int, totalAmount: real, principal: real, totalInterest: real)
    : Result<seq<Installment>, ScheduleError>
  {
    if dues == [] then Ok([])
    else if n == 0 then Err(ZeroPeriodCount)
    else Ok(Installments(dues, totalAmount / n as real, principal / n as real, totalInterest / n as real))
  }

  /** What `calculateRepaymentSchedule` returns: nothing for an
      unrecognised mode, otherwise one installment per due date the loop of
      the mode visits; the only failure is a zero divisor. */
  function Schedule(principal: real, interestRate: real, mode: PaymentMode, start: CalendarDate, end: CalendarDate)
    : (r: Result<seq<Installment>, ScheduleError>)
    requires mode == Monthly ==> start.day <= 28
    ensures mode.Unrecognised? ==> r == Ok([])
    ensures r.Err? ==> !mode.Unrecognised? && PeriodCount(mode, start, end) == 0
    ensures r.Ok? && !mode.Unrecognised? ==> |r.value| == |DueDates(mode, start, end)|
  {
    if mode.Unrecognised? then Ok([])
    else
      var totalAmount := TotalAmount(principal, interestRate);
      FlatInstallments(DueDates(mode, start, end), PeriodCount(mode, start, end),
                       totalAmount, principal, totalAmount - principal)
  }

  /** The total a loan repays: the principal with its flat interest. */
  function TotalAmount(principal: real, interestRate: real): real {
    principal * (1.0 + interestRate)
  }

  /** `calculateRepaymentSchedule`: computes the total and the divisor, then
      runs the loop of the payment mode (the `switch` has no default case). */
  method CalculateRepaymentSchedule(principal: real, interestRate: real, mode: PaymentMode, startDate: CalendarDate, endDate: CalendarDate)
    returns (r: Result<seq<Installment>, ScheduleError>)
    requires mode == Monthly ==> startDate.day <= 28
    ensures r == Schedule(principal, interestRate, mode, startDate, endDate)
  {
    var totalAmount := TotalAmount(principal, interestRate);
    var totalInterest := totalAmount - principal;
    if mode.Unrecognised? {
      return Ok([]);
    }
    var n := PeriodCount(mode, startDate, endDate);
    r := PushInstallments(mode, startDate, endDate, n, totalAmount, principal, totalInterest);
  }

  /** The `while (currentDate <= endDateTime)` loop of one payment mode:
      pushes an installment of `totalAmount / n`, `principal / n` and
      `totalInterest / n` for every date it steps through. */
  method PushInstallments(mode: PaymentMode, startDate: CalendarDate, endDate: CalendarDate, n: int,
                          totalAmount: real, principal: real, totalInterest: real)
    returns (r: Result<seq<Installment>, ScheduleError>)
    requires Steppable(mode, startDate)
    ensures r == FlatInstallments(DueDates(mode, startDate, endDate), n, totalAmount, principal, totalInterest)
  {
    ghost var dues := DueDates(mode, startDate, endDate);
    var amount, principalShare, interestShare := 0.0, 0.0, 0.0;
    if n != 0 {
      amount, principalShare, interestShare := totalAmount / n as real, principal / n as real, totalInterest / n as real;
    }
    var schedule: seq<Installment> := [];
    var currentDate := startDate;
    while DayNumber(currentDate) <= DayNumber(endDate)
      invariant Steppable(mode, currentDate)
      invariant Installments(dues, amount, principalShare, interestShare)
             == schedule + Installments(DueDates(mode, currentDate, endDate), amount, principalShare, interestShare)
      invariant schedule != [] ==> n != 0
      decreases DayNumber(endDate) - DayNumber(currentDate)
    {
      if n == 0 {
        return Err(ZeroPeriodCount);
      }
      PushStep(mode, currentDate, endDate, schedule, amount, principalShare, interestShare);
      schedule := schedule + [Installment(currentDate, amount, principalShare, interestShare)];
      currentDate := Step(mode, currentDate);
    }
    assert schedule + [] == schedule;
    return Ok(schedule);
  }

  // ---------------------------------------------------------------------
  // The dates the loops visit

  /** The loop starts at `from`, stops after the last date not later than
      `end`, and moves by one `Step` at a time. */
  lemma DueDatesShape(mode: PaymentMode, from: CalendarDate, end: CalendarDate)
    requires Steppable(mode, from)
    ensures var dues := DueDates(mode, from, end);
      && (dues == [] <==> DayNumber(from) > DayNumber(end))
      && (dues != [] ==> dues[0] == from)
      && (forall k :: 0 <= k < |dues| ==>
            Steppable(mode, dues[k]) && DayNumber(from) <= DayNumber(dues[k]) <= DayNumber(end))
      && (forall k :: 0 <= k < |dues| - 1 ==> dues[k + 1] == Step(mode, dues[k]))
  {
    var dues := DueDates(mode, from, end);
    forall k | 0 <= k < |dues|
      ensures Steppable(mode, dues[k]) && DayNumber(from) <= DayNumber(dues[k]) <= DayNumber(end)
      ensures k + 1 < |dues| ==> dues[k + 1] == Step(mode, dues[k])
    {
      DueDateAt(mode, from, end, k);
    }
  }

  /** The `k`-th due date lies within the range, and the next one is one
      step after it. */
  lemma {:induction false} DueDateAt(mode: PaymentMode, from: CalendarDate, end: CalendarDate, k: nat)
    requires Steppable(mode, from) && k < |DueDates(mode, from, end)|
    ensures var dues := DueDates(mode, from, end);
      && Steppable(mode, dues[k]) && DayNumber(from) <= DayNumber(dues[k]) <= DayNumber(end)
      && (k + 1 < |dues| ==> dues[k + 1] == Step(mode, dues[k]))
    decreases k
  {
    var dues := DueDates(mode, from, end);
    assert DayNumber(from) <= DayNumber(end);
    var next := Step(mode, from);
    var rest := DueDates(mode, next, end);
    assert dues == [from] + rest;
    if k == 0 {
      assert dues[0] == from;
      if 1 < |dues| {
        assert dues[1] == rest[0] == next;
      }
    } else {
      DueDateAt(mode, next, end, k - 1);
      assert DayNumber(from) < DayNumber(next);
      assert dues[k] == rest[k - 1];
      if k + 1 < |dues| {
        assert dues[k + 1] == rest[k];
      }
    }
  }

  /** Daily mode visits every day from `from` to `end`: one date more than
      the number of days between them. */
  lemma {:induction false} DailyDueDates(from: CalendarDate, end: CalendarDate)
    ensures var dues := DueDates(Daily, from, end);
      && |dues| == (if DayNumber(from) > DayNumber(end) then 0 else DaysBetween(from, end) + 1)
      && forall k :: 0 <= k < |dues| ==> DayNumber(dues[k]) == DayNumber(from) + k
    decreases DayNumber(end) - DayNumber(from)
  {
    if DayNumber(from) <= DayNumber(end) {
      var next := Step(Daily, from);
      DailyDueDates(next, end);
      var rest := DueDates(Daily, next, end);
      var dues := DueDates(Daily, from, end);
      assert dues == [from] + rest;
      forall k | 0 < k < |dues|
        ensures DayNumber(dues[k]) == DayNumber(from) + k
      {
        assert dues[k] == rest[k - 1];
      }
    }
  }

  /** Weekly mode visits every seventh day: `floor(days / 7) + 1` dates. */
  lemma WeeklyDueDates(from: CalendarDate, end: CalendarDate)
    ensures var dues := DueDates(Weekly, from, end);
      && |dues| == (if DayNumber(from) > DayNumber(end) then 0 else DaysBetween(from, end) / 7 + 1)
      && forall k :: 0 <= k < |dues| ==> DayNumber(dues[k]) == DayNumber(from) + 7 * k
  {
    WeeklyDueDateCount(from, end);
    forall k | 0 <= k < |DueDates(Weekly, from, end)|
      ensures DayNumber(DueDates(Weekly, from, end)[k]) == DayNumber(from) + 7 * k
    {
      WeeklyDueDateAt(from, end, k);
    }
  }

  lemma {:induction false} WeeklyDueDateCount(from: CalendarDate, end: CalendarDate)
    ensures |DueDates(Weekly, from, end)| == (if DayNumber(from) > DayNumber(end) then 0 else DaysBetween(from, end) / 7 + 1)
    decreases DayNumber(end) - DayNumber(from)
  {
    if DayNumber(from) <= DayNumber(end) {
      var next := Step(Weekly, from);
      WeeklyDueDateCount(next, end);
      assert DueDates(Weekly, from, end) == [from] + DueDates(Weekly, next, end);
      WeeksPastFirst(DaysBetween(from, end));
    }
  }

  lemma {:induction false} WeeklyDueDateAt(from: CalendarDate, end: CalendarDate, k: nat)
    requires k < |DueDates(Weekly, from, end)|
    ensures DayNumber(DueDates(Weekly, from, end)[k]) == DayNumber(from) + 7 * k
    decreases k
  {
    var dues := DueDates(Weekly, from, end);
    var next := Step(Weekly, from);
    var rest := DueDates(Weekly, next, end);
    assert dues == [from] + rest;
    if k > 0 {
      WeeklyDueDateAt(next, end, k - 1);
      assert dues[k] == rest[k - 1];
      assert DayNumber(next) == DayNumber(from) + 7;
    }
  }

  lemma WeeksPastFirst(days: int)
    requires days >= 0
    ensures days < 7 ==> days / 7 == 0
    ensures days >= 7 ==> (days - 7) / 7 + 1 == days / 7
  {
  }

  /** Monthly mode visits the same day of every month: one date per month
      from the start month to the end month, less one when the end's day of
      the month comes before the start's. */
  lemma {:induction false} MonthlyDueDates(from: CalendarDate, end: CalendarDate)
    requires from.day <= 28
    ensures var dues := DueDates(Monthly, from, end);
      && |dues| == (if DayNumber(from) > DayNumber(end) then 0
                    else MonthIndex(end) - MonthIndex(from) + (if from.day <= end.day then 1 else 0))
      && forall k :: 0 <= k < |dues| ==> dues[k].day == from.day && MonthIndex(dues[k]) == MonthIndex(from) + k
    decreases DayNumber(end) - DayNumber(from)
  {
    if DayNumber(from) <= DayNumber(end) {
      var next := Step(Monthly, from);
      MonthlyDueDates(next, end);
      MonthOrder(from, end);
      MonthOrder(next, end);
      var rest := DueDates(Monthly, next, end);
      assert DueDates(Monthly, from, end) == [from] + rest;
    }
  }

  // ---------------------------------------------------------------------
  // Number of installments against the divisor

  /** Daily mode: on any range of at least one day, the schedule has one
      installment more than the number the total is divided by. */
  lemma DailyScheduleHasOneExtraInstallment(principal: real, interestRate: real, start: CalendarDate, end: CalendarDate)
    requires DayNumber(start) < DayNumber(end)
    ensures var r := Schedule(principal, interestRate, Daily, start, end);
      r.Ok? && |r.value| == PeriodCount(Daily, start, end) + 1
  {
    DailyDueDates(start, end);
  }

  /** Weekly mode: the divisor rounds the weeks up while the loop counts
      whole weeks plus the start, so they differ exactly when the range is a
      whole number of weeks. */
  lemma WeeklyScheduleCount(principal: real, interestRate: real, start: CalendarDate, end: CalendarDate)
    requires DayNumber(start) < DayNumber(end)
    ensures var r := Schedule(principal, interestRate, Weekly, start, end);
      r.Ok? && |r.value| == PeriodCount(Weekly, start, end) + (if DaysBetween(start, end) % 7 == 0 then 1 else 0)
  {
    WeeklyDueDates(start, end);
  }

  /** Monthly mode: the divisor is at least one and equals the number of
      installments unless the end's day of the month is before the start's. */
  lemma MonthlyScheduleCount(principal: real, interestRate: real, start: CalendarDate, end: CalendarDate)
    requires start.day <= 28 && DayNumber(start) <= DayNumber(end)
    ensures PeriodCount(Monthly, start, end) >= 1
    ensures var r := Schedule(principal, interestRate, Monthly, start, end);
      r.Ok? && |r.value| == PeriodCount(Monthly, start, end) - (if start.day <= end.day then 0 else 1)
  {
    MonthlyDueDates(start, end);
    MonthOrder(start, end);
  }

  /** The generator divides by zero exactly when a daily or weekly schedule
      starts and ends on the same day. */
  lemma ScheduleFailsExactlyOnSameDayRange(principal: real, interestRate: real, mode: PaymentMode, start: CalendarDate, end: CalendarDate)
    requires (mode == Monthly ==> start.day <= 28)
    ensures Schedule(principal, interestRate, mode, start, end).Err? <==>
              (mode == Daily || mode == Weekly) && DayNumber(start) == DayNumber(end)
  {
    if !mode.Unrecognised? {
      DueDatesShape(mode, start, end);
      if mode == Monthly && DayNumber(start) <= DayNumber(end) {
        MonthlyScheduleCount(principal, interestRate, start, end);
      }
    }
  }

  /** The schedule is empty exactly when the payment mode is not one of the
      three, or the start is after the end. */
  lemma ScheduleEmptyExactly(principal: real, interestRate: real, mode: PaymentMode, start: CalendarDate, end: CalendarDate)
    requires (mode == Monthly ==> start.day <= 28)
    ensures Schedule(principal, interestRate, mode, start, end) == Ok([]) <==>
              mode.Unrecognised? || DayNumber(start) > DayNumber(end)
  {
    if !mode.Unrecognised? {
      DueDatesShape(mode, start, end);
    }
  }

  // ---------------------------------------------------------------------
  // The installments themselves

  /** The installments of a successful schedule are due on the dates the
      loop visits, in order. */
  lemma ScheduleDueDates(principal: real, interestRate: real, mode: PaymentMode, start: CalendarDate, end: CalendarDate)
    requires mode == Monthly ==> start.day <= 28
    requires Schedule(principal, interestRate, mode, start, end).Ok?
    ensures var entries := Schedule(principal, interestRate, mode, start, end).value;
      && (entries != [] ==> !mode.Unrecognised? && entries[0].dueDate == start)
      && (forall k :: 0 <= k < |entries| ==> DayNumber(start) <= DayNumber(entries[k].dueDate) <= DayNumber(end))
      && (forall k :: 0 <= k < |entries| - 1 ==>
            Steppable(mode, entries[k].dueDate) && entries[k + 1].dueDate == Step(mode, entries[k].dueDate))
  {
    if !mode.Unrecognised? {
      DueDatesShape(mode, start, end);
    }
  }

  lemma ShareSplits(total: real, principal: real, n: int)
    requires n != 0
    ensures total / n as real == principal / n as real + (total - principal) / n as real
  {
  }

  /** Every installment of a schedule carries the same amount, principal and
      interest, and its amount is its principal plus its interest. */
  lemma ScheduleFiguresAreFlat(principal: real, interestRate: real, mode: PaymentMode, start: CalendarDate, end: CalendarDate)
    requires mode == Monthly ==> start.day <= 28
    requires Schedule(principal, interestRate, mode, start, end).Ok?
    ensures var entries := Schedule(principal, interestRate, mode, start, end).value;
      forall k :: 0 <= k < |entries| ==>
        && entries[k].amount == entries[0].amount
        && entries[k].principal == entries[0].principal
        && entries[k].interest == entries[0].interest
        && entries[k].amount == entries[k].principal + entries[k].interest
  {
    if !mode.Unrecognised? {
      var dues := DueDates(mode, start, end);
      var n := PeriodCount(mode, start, end);
      if dues != [] {
        ShareSplits(TotalAmount(principal, interestRate), principal, n);
      }
    }
  }

  function SumAmounts(entries: seq<Installment>): real {
    if entries == [] then 0.0 else entries[0].amount + SumAmounts(entries[1..])
  }

  function SumPrincipal(entries: seq<Installment>): real {
    if entries == [] then 0.0 else entries[0].principal + SumPrincipal(entries[1..])
  }

  function SumInterest(entries: seq<Installment>): real {
    if entries == [] then 0.0 else entries[0].interest + SumInterest(entries[1..])
  }

  /** The installments of `dues` add up to one amount, one principal share
      and one interest share per due date. */
  lemma InstallmentsSum(dues: seq<CalendarDate>, amount: real, principal: real, interest: real)
    ensures var entries := Installments(dues, amount, principal, interest);
      && SumAmounts(entries) == |dues| as real * amount
      && SumPrincipal(entries) == |dues| as real * principal
      && SumInterest(entries) == |dues| as real * interest
  {
    AmountsSum(dues, amount, principal, interest);
    PrincipalSum(dues, amount, principal, interest);
    InterestSum(dues, amount, principal, interest);
  }

  lemma {:induction false} AmountsSum(dues: seq<CalendarDate>, amount: real, principal: real, interest: real)
    ensures SumAmounts(Installments(dues, amount, principal, interest)) == |dues| as real * amount
  {
    if dues != [] {
      assert Installments(dues, amount, principal, interest)[1..] == Installments(dues[1..], amount, principal, interest);
      AmountsSum(dues[1..], amount, principal, interest);
      Distribute(|dues| - 1, amount);
    }
  }

  lemma {:induction false} PrincipalSum(dues: seq<CalendarDate>, amount: real, principal: real, interest: real)
    ensures SumPrincipal(Installments(dues, amount, principal, interest)) == |dues| as real * principal
  {
    if dues != [] {
      assert Installments(dues, amount, principal, interest)[1..] == Installments(dues[1..], amount, principal, interest);
      PrincipalSum(dues[1..], amount, principal, interest);
      Distribute(|dues| - 1, principal);
    }
  }

  lemma {:induction false} InterestSum(dues: seq<CalendarDate>, amount: real, principal: real, interest: real)
    ensures SumInterest(Installments(dues, amount, principal, interest)) == |dues| as real * interest
  {
    if dues != [] {
      assert Installments(dues, amount, principal, interest)[1..] == Installments(dues[1..], amount, principal, interest);
      InterestSum(dues[1..], amount, principal, interest);
      Distribute(|dues| - 1, interest);
    }
  }

  lemma Distribute(m: nat, x: real)
    ensures x + m as real * x == (m + 1) as real * x
  {
  }

  /** A monthly schedule whose end day of the month is not before its start
      day repays exactly the total, the principal and the interest. */
  lemma MonthlyScheduleRepaysTotal(principal: real, interestRate: real, start: CalendarDate, end: CalendarDate)
    requires start.day <= 28 && start.day <= end.day
    requires DayNumber(start) <= DayNumber(end)
    ensures Schedule(principal, interestRate, Monthly, start, end).Ok?
    ensures var entries := Schedule(principal, interestRate, Monthly, start, end).value;
      && SumAmounts(entries) == principal * (1.0 + interestRate)
      && SumPrincipal(entries) == principal
      && SumInterest(entries) == principal * (1.0 + interestRate) - principal
  {
    MonthlyScheduleCount(principal, interestRate, start, end);
    var dues := DueDates(Monthly, start, end);
    var total := principal * (1.0 + interestRate);
    assert Schedule(principal, interestRate, Monthly, start, end) == FlatInstallments(dues, |dues|, total, principal, total - principal);
    EvenSplitRepays(dues, total, principal);
  }

  /** Splitting a total evenly over every due date gives back the total, its
      principal and its interest when the installments are added up. */
  lemma EvenSplitRepays(dues: seq<CalendarDate>, total: real, principal: real)
    requires dues != []
    ensures FlatInstallments(dues, |dues|, total, principal, total - principal).Ok?
    ensures var entries := FlatInstallments(dues, |dues|, total, principal, total - principal).value;
      && SumAmounts(entries) == total
      && SumPrincipal(entries) == principal
      && SumInterest(entries) == total - principal
  {
    var n := |dues|;
    InstallmentsSum(dues, total / n as real, principal / n as real, (total - principal) / n as real);
    SharesAddBack(n, total);
    SharesAddBack(n, principal);
    SharesAddBack(n, total - principal);
  }

  lemma SharesAddBack(n: int, x: real)
    requires n != 0
    ensures n as real * (x / n as real) == x
  {
  }

  /** A daily schedule collects one installment too many: its amounts add up
      to the total plus one further share of it. */
  lemma DailyScheduleOverrepays(principal: real, interestRate: real, start: CalendarDate, end: CalendarDate)
    requires DayNumber(start) < DayNumber(end)
    ensures Schedule(principal, interestRate, Daily, start, end).Ok?
    ensures var entries := Schedule(principal, interestRate, Daily, start, end).value;
      var total := principal * (1.0 + interestRate);
      SumAmounts(entries) == total + total / DaysBetween(start, end) as real
  {
    DailyScheduleHasOneExtraInstallment(principal, interestRate, start, end);
    var dues := DueDates(Daily, start, end);
    var n := PeriodCount(Daily, start, end);
    var total := principal * (1.0 + interestRate);
    assert Schedule(principal, interestRate, Daily, start, end) == FlatInstallments(dues, n, total, principal, total - principal);
    ExtraShareOverpays(dues, n, total, principal);
  }

  /** A weekly schedule whose range is not a whole number of weeks has as
      many installments as its divisor, so it repays exactly the total, the
      principal and the interest. */
  lemma WeeklyScheduleRepaysTotal(principal: real, interestRate: real, start: CalendarDate, end: CalendarDate)
    requires DayNumber(start) < DayNumber(end) && DaysBetween(start, end) % 7 != 0
    ensures Schedule(principal, interestRate, Weekly, start, end).Ok?
    ensures var entries := Schedule(principal, interestRate, Weekly, start, end).value;
      && SumAmounts(entries) == principal * (1.0 + interestRate)
      && SumPrincipal(entries) == principal
      && SumInterest(entries) == principal * (1.0 + interestRate) - principal
  {
    WeeklyScheduleCount(principal, interestRate, start, end);
    var dues := DueDates(Weekly, start, end);
    var total := principal * (1.0 + interestRate);
    assert Schedule(principal, interestRate, Weekly, start, end) == FlatInstallments(dues, |dues|, total, principal, total - principal);
    EvenSplitRepays(dues, total, principal);
  }

  /** A weekly schedule over a whole number of weeks collects one
      installment too many: its amounts add up to the total plus one
      further weekly share of it. */
  lemma WeeklyScheduleOverrepays(principal: real, interestRate: real, start: CalendarDate, end: CalendarDate)
    requires DayNumber(start) < DayNumber(end) && DaysBetween(start, end) % 7 == 0
    ensures Schedule(principal, interestRate, Weekly, start, end).Ok?
    ensures var entries := Schedule(principal, interestRate, Weekly, start, end).value;
      var total := principal * (1.0 + interestRate);
      SumAmounts(entries) == total + total / WeeksBetween(start, end) as real
  {
    WeeklyScheduleCount(principal, interestRate, start, end);
    var dues := DueDates(Weekly, start, end);
    var n := PeriodCount(Weekly, start, end);
    var total := principal * (1.0 + interestRate);
    assert Schedule(principal, interestRate, Weekly, start, end) == FlatInstallments(dues, n, total, principal, total - principal);
    ExtraShareOverpays(dues, n, total, principal);
  }

  /** Splitting a total over one period fewer than there are due dates
      collects one share more than the total. */
  lemma ExtraShareOverpays(dues: seq<CalendarDate>, n: int, total: real, principal: real)
    requires n >= 1 && |dues| == n + 1
    ensures FlatInstallments(dues, n, total, principal, total - principal).Ok?
    ensures SumAmounts(FlatInstallments(dues, n, total, principal, total - principal).value) == total + total / n as real
  {
    InstallmentsSum(dues, total / n as real, principal / n as real, (total - principal) / n as real);
    SharesAddBack(n, total);
    Distribute(n, total / n as real);
  }
}
