// The installments service: schedules of monthly installments generated for
// an account (an even split of a total, or a fixed amount per month), the
// paid/unpaid transition with its `paidAt` bookkeeping, and the payment of
// one installment through a transaction.
module Installments {
  import opened Common
  import opened Calendar
  import opened Entities
  import opened Store
  import opened Pagination
  import opened Transactions

  // ---------------------------------------------------------------------
  // getById / findById / delete

  function GetById(installments: seq<Installment>, id: Id): (r: Result<Installment>)
    ensures r.Ok? ==> r.value in installments && r.value.id == id
    ensures r.Err? <==> forall k :: 0 <= k < |installments| ==> installments[k].id != id
    ensures r.Err? ==> r.error == Failed("INSTALLMENT_NOT_FOUND")
  {
    match Find(installments, InstallmentWithId(id))
    case None => Err(Failed("INSTALLMENT_NOT_FOUND"))
    case Some(i) => Ok(i)
  }

  /** Individual installments are never deleted: the request is always refused. */
  function Delete(id: Id): (r: Result<()>)
    ensures r.Err? && r.error == Failed("INSTALLMENT_INDIVIDUAL_DELETION_NOT_ALLOWED")
  {
    Err(Failed("INSTALLMENT_INDIVIDUAL_DELETION_NOT_ALLOWED"))
  }

  // ---------------------------------------------------------------------
  // Rounding

  /** `Math.round(t / n)` for an integer `t` and a positive count: floor(t/n + 1/2). */
  function RoundHalfUp(t: int, n: int): (r: int)
    requires n >= 1
    ensures 2 * n * r - n <= 2 * t < 2 * n * r + n
  {
    var q := (2 * t + n) / (2 * n);
    assert 2 * t + n == 2 * n * q + (2 * t + n) % (2 * n);
    q
  }

  /** The rounding is the only integer within half of `t / n`, ties going up. */
  lemma RoundHalfUpUnique(t: int, n: int, r: int)
    requires n >= 1
    requires 2 * n * r - n <= 2 * t < 2 * n * r + n
    ensures r == RoundHalfUp(t, n)
  {
    var q := RoundHalfUp(t, n);
    if r < q {
      MulMonotone(r + 1, q, 2 * n);
    } else if r > q {
      MulMonotone(q + 1, r, 2 * n);
    }
  }

  // ---------------------------------------------------------------------
  // normalizeStartDate / calculateDueDate

  /** The `startDate` argument: a "YYYY-MM-DD" string already split into its
      three numbers, or a Date given by its UTC calendar day. */
  datatype StartDate = Ymd(year: int, month: int, day: int) | DateValue(date: CalendarDate)

  /** A Date always has a valid UTC calendar day. */
  predicate WellFormedStart(s: StartDate) {
    s.DateValue? ==> ValidDate(s.date)
  }

  /** The base date at 00:00 UTC: `Date.UTC(y, m - 1, d)` of the parts. */
  function NormalizeStartDate(s: StartDate): (r: CalendarDate)
    requires WellFormedStart(s)
    ensures ValidDate(r)
    ensures s.DateValue? && !(0 <= s.date.year <= 99) ==> r == s.date
    ensures s.DateValue? && 1 <= s.date.year <= 99 ==> r == s.date.(year := 1900 + s.date.year)
    ensures s.Ymd? && ValidDate(CalendarDate(FullYear(s.year), s.month, s.day)) ==>
      r == CalendarDate(FullYear(s.year), s.month, s.day)
  {
    match s
    case Ymd(y, m, d) =>
      DateUtcOfValidIf(y, m, d);
      DateUtc(y, m - 1, d)
    case DateValue(d) =>
      DateUtcOfDate(d);
      DateUtc(d.year, d.month - 1, d.day)
  }

  lemma DateUtcOfValidIf(year: int, month: int, day: int)
    ensures ValidDate(CalendarDate(FullYear(year), month, day)) ==>
      DateUtc(year, month - 1, day) == CalendarDate(FullYear(year), month, day)
  {
    if ValidDate(CalendarDate(FullYear(year), month, day)) {
      DateUtcOfValid(year, month, day);
    }
  }

  /** An impossible string date rolls over instead of being rejected. */
  lemma StartDateRollsOver()
    ensures NormalizeStartDate(Ymd(2025, 2, 30)) == CalendarDate(2025, 3, 2)
  {
    assert RollDay(2025, 3, 2) == CalendarDate(2025, 3, 2);
  }

  /** A two-digit year is read as 19xx, from a string as from a Date. */
  lemma StartDateTwoDigitYear()
    ensures NormalizeStartDate(Ymd(50, 3, 1)) == CalendarDate(1950, 3, 1)
    ensures NormalizeStartDate(DateValue(CalendarDate(50, 3, 1))) == CalendarDate(1950, 3, 1)
  {
    assert RollDay(1950, 3, 1) == CalendarDate(1950, 3, 1);
  }

  datatype DueInfo = DueInfo(dueDate: CalendarDate, referenceMonth: int, referenceYear: int)

  /** Installment `installmentNumber` falls `installmentNumber - 1` months after the
      base month, on day `dueDay` as `Date.UTC` normalises it; its reference
      period is the month and year of that due date. */
  function CalculateDueDate(base: CalendarDate, installmentNumber: int, dueDay: int): (r: DueInfo)
    ensures ValidDate(r.dueDate)
    ensures 1 <= r.referenceMonth <= 12
    ensures r.referenceMonth == r.dueDate.month && r.referenceYear == r.dueDate.year
  {
    var dueDate := DateUtc(base.year, base.month - 1 + (installmentNumber - 1), dueDay);
    DueInfo(dueDate, dueDate.month, dueDate.year)
  }

  /** The base date's day of the month plays no part. */
  lemma DueDateIgnoresBaseDay(base: CalendarDate, other: CalendarDate, installmentNumber: int, dueDay: int)
    requires base.year == other.year && base.month == other.month
    ensures CalculateDueDate(base, installmentNumber, dueDay) == CalculateDueDate(other, installmentNumber, dueDay)
  {
  }

  /** The month (year, month) that lies `k` months after (year, month). */
  function MonthsAfter(year: int, month: int, k: nat): (r: (int, int))
    requires 1 <= month <= 12
    ensures 1 <= r.1 <= 12
    decreases k
  {
    if k == 0 then (year, month)
    else
      var p := MonthsAfter(year, month, k - 1);
      NextMonth(p.0, p.1)
  }

  lemma {:induction false} MonthsAfterIsCarry(year: int, month: int, k: nat)
    requires 1 <= month <= 12
    ensures MonthsAfter(year, month, k) == (year + (month - 1 + k) / 12, (month - 1 + k) % 12 + 1)
    decreases k
  {
    if k > 0 {
      MonthsAfterIsCarry(year, month, k - 1);
      var j := month - 1 + k - 1;
      assert j == 12 * (j / 12) + j % 12;
      assert j + 1 == 12 * (j / 12) + j % 12 + 1;
      if j % 12 == 11 {
        assert (j + 1) / 12 == j / 12 + 1 && (j + 1) % 12 == 0;
      } else {
        assert (j + 1) / 12 == j / 12 && (j + 1) % 12 == j % 12 + 1;
      }
    }
  }

  /** When the due day exists in the target month, installment k is due on that day
      of the month k - 1 months after the base month, counting month by month. */
  lemma DueDateInTargetMonth(base: CalendarDate, installmentNumber: int, dueDay: int)
    requires ValidDate(base) && installmentNumber >= 1
    requires var t := MonthsAfter(FullYear(base.year), base.month, installmentNumber - 1);
      1 <= dueDay <= DaysInMonth(t.0, t.1)
    ensures var t := MonthsAfter(FullYear(base.year), base.month, installmentNumber - 1);
      CalculateDueDate(base, installmentNumber, dueDay).dueDate == CalendarDate(t.0, t.1, dueDay)
  {
    DueDateIsRollDay(base, installmentNumber, dueDay);
  }

  /** A due day past the end of the target month is not clamped: it rolls into the next month. */
  lemma DueDateRollsOver(base: CalendarDate, installmentNumber: int, dueDay: int)
    requires ValidDate(base) && installmentNumber >= 1
    requires var t := MonthsAfter(FullYear(base.year), base.month, installmentNumber - 1);
      DaysInMonth(t.0, t.1) < dueDay <= 31
    ensures var t := MonthsAfter(FullYear(base.year), base.month, installmentNumber - 1);
      var n := NextMonth(t.0, t.1);
      CalculateDueDate(base, installmentNumber, dueDay).dueDate == CalendarDate(n.0, n.1, dueDay - DaysInMonth(t.0, t.1))
  {
    var t := MonthsAfter(FullYear(base.year), base.month, installmentNumber - 1);
    DueDateIsRollDay(base, installmentNumber, dueDay);
    var n := NextMonth(t.0, t.1);
    assert RollDay(n.0, n.1, dueDay - DaysInMonth(t.0, t.1)) == CalendarDate(n.0, n.1, dueDay - DaysInMonth(t.0, t.1));
  }

  /** The due date is the due day counted from the first of the target month. */
  lemma DueDateIsRollDay(base: CalendarDate, installmentNumber: int, dueDay: int)
    requires ValidDate(base) && installmentNumber >= 1
    ensures var t := MonthsAfter(FullYear(base.year), base.month, installmentNumber - 1);
      CalculateDueDate(base, installmentNumber, dueDay).dueDate == RollDay(t.0, t.1, dueDay)
  {
    MonthsAfterIsCarry(FullYear(base.year), base.month, installmentNumber - 1);
  }

  /** A schedule starting on 15 January 2025 with due day 31: February has no 31st,
      so the second installment is due on 3 March. */
  lemma DueDateExample()
    ensures CalculateDueDate(CalendarDate(2025, 1, 15), 2, 31) == DueInfo(CalendarDate(2025, 3, 3), 3, 2025)
    ensures CalculateDueDate(CalendarDate(2025, 11, 15), 3, 10) == DueInfo(CalendarDate(2026, 1, 10), 1, 2026)
  {
    DateUtcExamples();
    assert RollDay(2026, 1, 10) == CalendarDate(2026, 1, 10);
  }

  // ---------------------------------------------------------------------
  // Schedules

  /** One entry of `installmentsToCreate`. */
  datatype InstallmentData = InstallmentData(
    accountId: Id,
    number: int,
    dueDate: CalendarDate,
    amount: int,
    referenceMonth: int,
    referenceYear: int)

  function Planned(accountId: Id, base: CalendarDate, number: int, dueDay: int, amount: int): InstallmentData {
    var d := CalculateDueDate(base, number, dueDay);
    InstallmentData(accountId, number, d.dueDate, amount, d.referenceMonth, d.referenceYear)
  }

  /** The amount of installment `number` of `n` when `total` is split evenly:
      the rounded share, and for the last one the share plus the rounding difference. */
  function SplitAmount(total: int, n: int, number: int): int
    requires n >= 1
  {
    var share := RoundHalfUp(total, n);
    if number == n then share + (total - share * n) else share
  }

  /** A schedule of n installments for the account, numbered 1..n in order, each due
      as `calculateDueDate` says and carrying its due date's reference period. */
  predicate IsSchedule(plan: seq<InstallmentData>, accountId: Id, n: int, base: CalendarDate, dueDay: int) {
    |plan| == n &&
    forall k :: 0 <= k < |plan| ==>
      plan[k].accountId == accountId && plan[k].number == k + 1 &&
      plan[k].dueDate == CalculateDueDate(base, k + 1, dueDay).dueDate &&
      1 <= plan[k].referenceMonth <= 12 &&
      plan[k].referenceMonth == plan[k].dueDate.month && plan[k].referenceYear == plan[k].dueDate.year
  }

  /** The even-split schedule (createInstallmentsFromTotalAmount). */
  function EvenSplit(accountId: Id, total: int, n: int, base: CalendarDate, dueDay: int): (r: seq<InstallmentData>)
    requires n >= 1
    ensures IsSchedule(r, accountId, n, base, dueDay)
    ensures forall k :: 0 <= k < n - 1 ==> r[k].amount == RoundHalfUp(total, n)
    ensures r[n - 1].amount == total - (n - 1) * RoundHalfUp(total, n)
  {
    var r := seq(n, k requires 0 <= k < n => Planned(accountId, base, k + 1, dueDay, SplitAmount(total, n, k + 1)));
    assert forall k :: 0 <= k < n ==> r[k] == Planned(accountId, base, k + 1, dueDay, SplitAmount(total, n, k + 1));
    PlannedIsSchedule(r, accountId, n, base, dueDay);
    LastShare(total, n, RoundHalfUp(total, n));
    r
  }

  /** The rounding difference added to the last share leaves the rest of the total. */
  lemma LastShare(total: int, n: int, share: int)
    ensures share + (total - share * n) == total - (n - 1) * share
  {
    assert (n - 1) * share == n * share - share;
  }

  /** Rows built by `Planned` for numbers 1..n form a schedule. */
  lemma PlannedIsSchedule(plan: seq<InstallmentData>, accountId: Id, n: int, base: CalendarDate, dueDay: int)
    requires |plan| == n
    requires forall k :: 0 <= k < n ==> plan[k] == Planned(accountId, base, k + 1, dueDay, plan[k].amount)
    ensures IsSchedule(plan, accountId, n, base, dueDay)
  {
  }

  /** The fixed-amount schedule (createInstallmentsFromAmount). */
  function FixedSchedule(accountId: Id, amount: int, n: nat, base: CalendarDate, dueDay: int): (r: seq<InstallmentData>)
    ensures IsSchedule(r, accountId, n, base, dueDay)
    ensures forall k :: 0 <= k < n ==> r[k].amount == amount
  {
    var r := seq(n, k requires 0 <= k < n => Planned(accountId, base, k + 1, dueDay, amount));
    assert forall k :: 0 <= k < n ==> r[k] == Planned(accountId, base, k + 1, dueDay, amount);
    PlannedIsSchedule(r, accountId, n, base, dueDay);
    r
  }

  function DataAmount(d: InstallmentData): int { d.amount }

  /** The even split loses and invents nothing: its amounts add up to the total. */
  lemma EvenSplitSum(accountId: Id, total: int, n: int, base: CalendarDate, dueDay: int)
    requires n >= 1
    ensures SumWhere(EvenSplit(accountId, total, n, base, dueDay), AnyRow, DataAmount) == total
  {
    var plan := EvenSplit(accountId, total, n, base, dueDay);
    var share := RoundHalfUp(total, n);
    SharesSum(plan, share, n - 1);
    assert plan[..n - 1] == plan[..n][..n - 1];
    assert plan[..n] == plan;
    assert (n - 1) * share + (total - (n - 1) * share) == total;
  }

  lemma {:induction false} SharesSum(plan: seq<InstallmentData>, share: int, k: nat)
    requires k <= |plan|
    requires forall j :: 0 <= j < k ==> plan[j].amount == share
    ensures SumWhere(plan[..k], AnyRow, DataAmount) == k * share
    decreases k
  {
    if k > 0 {
      SharesSum(plan, share, k - 1);
      assert plan[..k][..k - 1] == plan[..k - 1];
    }
  }

  /** The fixed-amount schedule adds up to n times the amount. */
  lemma FixedScheduleSum(accountId: Id, amount: int, n: nat, base: CalendarDate, dueDay: int)
    ensures SumWhere(FixedSchedule(accountId, amount, n, base, dueDay), AnyRow, DataAmount) == n * amount
  {
    var plan := FixedSchedule(accountId, amount, n, base, dueDay);
    SharesSum(plan, amount, n);
    assert plan[..n] == plan;
  }

  /** The last installment differs from the others by at most half the count;
      it can be negative: 2 split four ways is 1, 1, 1, -1. */
  lemma LastInstallmentBound(accountId: Id, total: int, n: int, base: CalendarDate, dueDay: int)
    requires n >= 1
    ensures var plan := EvenSplit(accountId, total, n, base, dueDay);
      -n <= 2 * (plan[n - 1].amount - RoundHalfUp(total, n)) < n
    ensures var plan := EvenSplit(accountId, 2, 4, base, dueDay);
      plan[0].amount == 1 && plan[1].amount == 1 && plan[2].amount == 1 && plan[3].amount == -1
  {
    var share := RoundHalfUp(total, n);
    assert (n - 1) * share == n * share - share;
    assert RoundHalfUp(2, 4) == 1;
  }

  /** The loop that fills `installmentsToCreate` for the even split. */
  method PlanEvenSplit(accountId: Id, total: int, n: int, base: CalendarDate, dueDay: int)
    returns (plan: seq<InstallmentData>)
    requires n >= 1
    ensures plan == EvenSplit(accountId, total, n, base, dueDay)
  {
    var share := RoundHalfUp(total, n);
    var totalCents := share * n;
    var adjustment := total - totalCents;
    plan := [];
    var i := 1;
    while i <= n
      invariant 1 <= i <= n + 1
      invariant |plan| == i - 1
      invariant forall k :: 0 <= k < i - 1 ==> plan[k] == EvenSplit(accountId, total, n, base, dueDay)[k]
    {
      var due := CalculateDueDate(base, i, dueDay);
      var amount := if i == n then share + adjustment else share;
      plan := plan + [InstallmentData(accountId, i, due.dueDate, amount, due.referenceMonth, due.referenceYear)];
      i := i + 1;
    }
  }

  /** The loop that fills `installmentsToCreate` for a fixed amount per installment. */
  method PlanFixedAmount(accountId: Id, installmentAmount: int, n: nat, base: CalendarDate, dueDay: int)
    returns (plan: seq<InstallmentData>)
    ensures plan == FixedSchedule(accountId, installmentAmount, n, base, dueDay)
  {
    plan := [];
    var i := 1;
    while i <= n
      invariant 1 <= i <= n + 1
      invariant |plan| == i - 1
      invariant forall k :: 0 <= k < i - 1 ==> plan[k] == FixedSchedule(accountId, installmentAmount, n, base, dueDay)[k]
    {
      var due := CalculateDueDate(base, i, dueDay);
      plan := plan + [InstallmentData(accountId, i, due.dueDate, installmentAmount, due.referenceMonth, due.referenceYear)];
      i := i + 1;
    }
  }

  // ---------------------------------------------------------------------
  // createMany and the schedule read back

  /** The stored rows of a plan, keyed from `firstId` on: unpaid, with no payment time. */
  function Rows(plan: seq<InstallmentData>, firstId: nat): (r: seq<Installment>)
    ensures |r| == |plan|
    ensures forall k :: 0 <= k < |r| ==>
      r[k].id == firstId + k && r[k].accountId == plan[k].accountId && r[k].number == plan[k].number &&
      r[k].dueDate == plan[k].dueDate && r[k].amount == plan[k].amount && !r[k].isPaid && r[k].paidAt.None? &&
      r[k].referenceMonth == plan[k].referenceMonth && r[k].referenceYear == plan[k].referenceYear
  {
    seq(|plan|, k requires 0 <= k < |plan| =>
      var d := plan[k];
      Installment(firstId + k, d.accountId, d.number, d.dueDate, d.amount, false, None, d.referenceMonth, d.referenceYear))
  }

  lemma RowsKeyed(s: seq<Installment>, plan: seq<InstallmentData>, bound: nat)
    requires KeyedBelow(s, InstallmentKey, bound)
    ensures KeyedBelow(s + Rows(plan, bound), InstallmentKey, bound + |plan|)
  {
    var r := s + Rows(plan, bound);
    forall i, j | 0 <= i < j < |r| ensures InstallmentKey(r[i]) != InstallmentKey(r[j]) {
      if j >= |s| {
        assert r[j] == Rows(plan, bound)[j - |s|];
      }
    }
  }

  function InstallmentNumber(i: Installment): int { i.number }

  /** `findMany({ where: { accountId }, orderBy: number asc, createdAt asc })`. */
  function AccountSchedule(installments: seq<Installment>, accountId: Id): seq<Installment> {
    SortBy(Filter(installments, InstallmentsOf(accountId)), InstallmentNumber)
  }

  /** The read-back holds exactly the account's rows, in installment-number order. */
  lemma AccountScheduleFacts(installments: seq<Installment>, accountId: Id)
    ensures SortedBy(AccountSchedule(installments, accountId), InstallmentNumber)
    ensures forall x :: x in AccountSchedule(installments, accountId) <==> x in installments && x.accountId == accountId
    ensures multiset(AccountSchedule(installments, accountId)) == multiset(Filter(installments, InstallmentsOf(accountId)))
  {
    var f := Filter(installments, InstallmentsOf(accountId));
    SortByFacts(f, InstallmentNumber);
    forall x ensures x in AccountSchedule(installments, accountId) <==> x in installments && x.accountId == accountId {
      FilterMember(installments, InstallmentsOf(accountId), x);
      assert x in multiset(SortBy(f, InstallmentNumber)) <==> x in multiset(f);
    }
  }

  /** For an account with no installments yet, the read-back is the created schedule itself. */
  lemma FreshScheduleReadBack(installments: seq<Installment>, plan: seq<InstallmentData>, bound: nat,
                              accountId: Id, n: int, base: CalendarDate, dueDay: int)
    requires IsSchedule(plan, accountId, n, base, dueDay)
    requires forall k :: 0 <= k < |installments| ==> installments[k].accountId != accountId
    ensures AccountSchedule(installments + Rows(plan, bound), accountId) == Rows(plan, bound)
  {
    var rows := Rows(plan, bound);
    FilterAppend(installments, rows, InstallmentsOf(accountId));
    FilterNone(installments, InstallmentsOf(accountId));
    FilterAll(rows, InstallmentsOf(accountId));
    assert Filter(installments + rows, InstallmentsOf(accountId)) == rows;
    SortBySorted(rows, InstallmentNumber);
  }

  /** `createMany(installmentsToCreate)`: one insert of the whole plan. */
  method InsertMany(db: Db, plan: seq<InstallmentData>)
    requires db.Valid()
    modifies db`installments, db`nextId
    ensures db.Valid()
    ensures db.installments == old(db.installments) + Rows(plan, old(db.nextId))
    ensures db.nextId == old(db.nextId) + |plan|
  {
    RowsKeyed(db.installments, plan, db.nextId);
    var rows := db.installments + Rows(plan, db.nextId);
    db.Advance(|plan|);
    db.SetInstallments(rows);
  }

  /** createInstallmentsFromTotalAmount. `storeFails` stands for a failure of the
      database calls, which the service reports as INSTALLMENT_CREATION_ERROR. */
  method CreateInstallmentsFromTotalAmount(db: Db, accountId: Id, totalAmount: int, installments: int,
                                           startDate: StartDate, dueDay: int, storeFails: bool)
    returns (r: Result<seq<Installment>>)
    requires db.Valid()
    requires installments >= 1 && WellFormedStart(startDate)
    modifies db`installments, db`nextId
    ensures db.Valid()
    ensures storeFails ==>
      r == Err(Failed("INSTALLMENT_CREATION_ERROR")) &&
      db.installments == old(db.installments) && db.nextId == old(db.nextId)
    ensures !storeFails ==>
      var plan := EvenSplit(accountId, totalAmount, installments, NormalizeStartDate(startDate), dueDay);
      db.installments == old(db.installments) + Rows(plan, old(db.nextId)) &&
      db.nextId == old(db.nextId) + installments &&
      r == Ok(AccountSchedule(db.installments, accountId))
  {
    if storeFails {
      return Err(Failed("INSTALLMENT_CREATION_ERROR"));
    }
    var base := NormalizeStartDate(startDate);
    var plan := PlanEvenSplit(accountId, totalAmount, installments, base, dueDay);
    InsertMany(db, plan);
    r := Ok(AccountSchedule(db.installments, accountId));
  }

  /** createInstallmentsFromAmount: every installment is `Math.round(installmentAmount)`,
      which is the amount itself for integer cents. */
  method CreateInstallmentsFromAmount(db: Db, accountId: Id, installmentAmount: int, installments: nat,
                                      startDate: StartDate, dueDay: int, storeFails: bool)
    returns (r: Result<seq<Installment>>)
    requires db.Valid()
    requires WellFormedStart(startDate)
    modifies db`installments, db`nextId
    ensures db.Valid()
    ensures storeFails ==>
      r == Err(Failed("INSTALLMENT_CREATION_ERROR")) &&
      db.installments == old(db.installments) && db.nextId == old(db.nextId)
    ensures !storeFails ==>
      var plan := FixedSchedule(accountId, installmentAmount, installments, NormalizeStartDate(startDate), dueDay);
      db.installments == old(db.installments) + Rows(plan, old(db.nextId)) &&
      db.nextId == old(db.nextId) + installments &&
      r == Ok(AccountSchedule(db.installments, accountId))
  {
    if storeFails {
      return Err(Failed("INSTALLMENT_CREATION_ERROR"));
    }
    var base := NormalizeStartDate(startDate);
    var plan := PlanFixedAmount(accountId, installmentAmount, installments, base, dueDay);
    InsertMany(db, plan);
    r := Ok(AccountSchedule(db.installments, accountId));
  }

  // ---------------------------------------------------------------------
  // updatePaidStatus and the operations built on it

  /** The paid flag and payment time written for `installment` when it is set to `isPaid`:
      paidAt becomes `now` on unpaid -> paid, is cleared on paid -> unpaid, and is kept otherwise. */
  function PaidTransition(installment: Installment, isPaid: bool, now: Instant): (r: Installment)
    ensures r.isPaid == isPaid
    ensures isPaid && !installment.isPaid ==> r.paidAt == Some(now)
    ensures !isPaid && installment.isPaid ==> r.paidAt == None
    ensures isPaid == installment.isPaid ==> r.paidAt == installment.paidAt
    ensures r.(isPaid := installment.isPaid, paidAt := installment.paidAt) == installment
  {
    var paidAt := if isPaid && !installment.isPaid then Some(now)
                  else if !isPaid && installment.isPaid then None
                  else installment.paidAt;
    installment.(isPaid := isPaid, paidAt := paidAt)
  }

  /** Setting the same status twice is setting it once, whatever the second clock reading. */
  lemma PaidTransitionIdempotent(installment: Installment, isPaid: bool, t1: Instant, t2: Instant)
    ensures PaidTransition(PaidTransition(installment, isPaid, t1), isPaid, t2) == PaidTransition(installment, isPaid, t1)
  {
  }

  /** Paying and then un-paying an installment leaves it unpaid with no payment time;
      for an installment that was unpaid with no payment time that is where it started. */
  lemma PaidTransitionRoundTrip(installment: Installment, t1: Instant, t2: Instant)
    ensures PaidTransition(PaidTransition(installment, true, t1), false, t2) == installment.(isPaid := false, paidAt := None)
    ensures !installment.isPaid && installment.paidAt.None? ==>
      PaidTransition(PaidTransition(installment, true, t1), false, t2) == installment
  {
  }

  /** The `update({ where: { id }, data: { isPaid, paidAt } })` payload. */
  function WritePaid(isPaid: bool, paidAt: Option<Instant>): Installment -> Installment {
    (i: Installment) => i.(isPaid := isPaid, paidAt := paidAt)
  }

  /** updatePaidStatus: the new status decided from the row as the caller loaded it,
      written over the stored row with that id. */
  method UpdatePaidStatus(db: Db, installment: Installment, isPaid: bool, now: Instant) returns (updated: Installment)
    requires db.Valid()
    requires exists k :: 0 <= k < |db.installments| && db.installments[k].id == installment.id
    modifies db`installments
    ensures db.Valid()
    ensures var p := PaidTransition(installment, isPaid, now);
      db.installments == UpdateWhere(old(db.installments), InstallmentWithId(installment.id), WritePaid(p.isPaid, p.paidAt))
    ensures var p := PaidTransition(installment, isPaid, now);
      updated == WritePaid(p.isPaid, p.paidAt)(Find(old(db.installments), InstallmentWithId(installment.id)).value)
  {
    var p := PaidTransition(installment, isPaid, now);
    var stored := Find(db.installments, InstallmentWithId(installment.id));
    UpdateKeyed(db.installments, InstallmentWithId(installment.id), WritePaid(p.isPaid, p.paidAt), InstallmentKey, db.nextId);
    db.SetInstallments(UpdateWhere(db.installments, InstallmentWithId(installment.id), WritePaid(p.isPaid, p.paidAt)));
    updated := WritePaid(p.isPaid, p.paidAt)(stored.value);
  }

  /** markAsUnpaid(id) */
  method MarkAsUnpaid(db: Db, id: Id, now: Instant) returns (r: Result<Installment>)
    requires db.Valid()
    modifies db`installments
    ensures db.Valid()
    ensures GetById(old(db.installments), id).Err? ==>
      r == Err(Failed("INSTALLMENT_NOT_FOUND")) && db.installments == old(db.installments)
    ensures GetById(old(db.installments), id).Ok? ==>
      var p := PaidTransition(GetById(old(db.installments), id).value, false, now);
      r == Ok(p) &&
      db.installments == UpdateWhere(old(db.installments), InstallmentWithId(id), WritePaid(p.isPaid, p.paidAt))
  {
    var found := GetById(db.installments, id);
    if found.Err? {
      return Err(found.error);
    }
    var i := found.value;
    var updated := UpdatePaidStatus(db, i, false, now);
    r := Ok(updated);
  }

  /** markAsPaidSimple(id): the status only, with no transaction. */
  method MarkAsPaidSimple(db: Db, id: Id, now: Instant) returns (r: Result<Installment>)
    requires db.Valid()
    modifies db`installments
    ensures db.Valid()
    ensures GetById(old(db.installments), id).Err? ==>
      r == Err(Failed("INSTALLMENT_NOT_FOUND")) && db.installments == old(db.installments)
    ensures GetById(old(db.installments), id).Ok? ==>
      var p := PaidTransition(GetById(old(db.installments), id).value, true, now);
      r == Ok(p) &&
      db.installments == UpdateWhere(old(db.installments), InstallmentWithId(id), WritePaid(p.isPaid, p.paidAt))
  {
    var found := GetById(db.installments, id);
    if found.Err? {
      return Err(found.error);
    }
    var i := found.value;
    var updated := UpdatePaidStatus(db, i, true, now);
    r := Ok(updated);
  }

  datatype MarkPaidResult = MarkPaidResult(installment: Installment, transaction: Transaction)

  /** markAsPaid(installmentId, userId): create the payment transaction, then set the
      status from the row loaded before the payment. The payment writes its own paidAt
      at `paymentTime`; the status update, read later, overwrites it with `now`. */
  method MarkAsPaid(db: Db, installmentId: Id, userId: Id, paymentTime: Instant, now: Instant)
    returns (r: Result<MarkPaidResult>)
    requires db.Valid()
    modifies db`installments, db`transactions, db`nextId
    ensures db.Valid()
    ensures GetById(old(db.installments), installmentId).Err? ==>
      r == Err(Failed("INSTALLMENT_NOT_FOUND")) &&
      db.installments == old(db.installments) && db.transactions == old(db.transactions) && db.nextId == old(db.nextId)
    ensures GetById(old(db.installments), installmentId).Ok? && GetById(old(db.installments), installmentId).value.isPaid ==>
      r == Err(Failed("INSTALLMENT_ALREADY_PAID")) &&
      db.installments == old(db.installments) && db.transactions == old(db.transactions) && db.nextId == old(db.nextId)
    ensures GetById(old(db.installments), installmentId).Ok? && !GetById(old(db.installments), installmentId).value.isPaid &&
            Find(old(db.transactions), PaymentOf(installmentId)).Some? ==>
      r == Err(Failed("INSTALLMENT_PAYMENT_ERROR")) &&
      db.installments == old(db.installments) && db.transactions == old(db.transactions) && db.nextId == old(db.nextId)
    ensures GetById(old(db.installments), installmentId).Ok? && !GetById(old(db.installments), installmentId).value.isPaid &&
            Find(old(db.transactions), PaymentOf(installmentId)).None? ==>
      var i := GetById(old(db.installments), installmentId).value;
      var t := RowOf(InstallmentPayment(i, userId), old(db.nextId));
      r == Ok(MarkPaidResult(MarkPaidAt(now)(i), t)) &&
      db.transactions == old(db.transactions) + [t] && db.nextId == old(db.nextId) + 1 &&
      db.installments == UpdateWhere(old(db.installments), InstallmentWithId(installmentId), MarkPaidAt(now))
  {
    ghost var installments0, transactions0, nextId0 := db.installments, db.transactions, db.nextId;
    var found := GetById(db.installments, installmentId);
    if found.Err? {
      return Err(found.error);
    }
    var installment := found.value;
    if installment.isPaid {
      return Err(Failed("INSTALLMENT_ALREADY_PAID"));
    }
    assert Find(installments0, InstallmentWithId(installmentId)) == Some(installment);
    var payment := CreateInstallmentPayment(db, installment.id, userId, paymentTime);
    if payment.Err? {
      assert Find(transactions0, PaymentOf(installmentId)).Some?;
      return Err(Failed("INSTALLMENT_PAYMENT_ERROR"));
    }
    assert Find(transactions0, PaymentOf(installmentId)).None?;
    assert payment.value == RowOf(InstallmentPayment(installment, userId), nextId0);
    var updated := SettleAfterPayment(db, installment, paymentTime, now, installments0);
    r := Ok(MarkPaidResult(updated, payment.value));
  }

  /** The status update of markAsPaid, made after the payment has marked the row paid. */
  method SettleAfterPayment(db: Db, installment: Installment, paymentTime: Instant, now: Instant,
                            ghost before: seq<Installment>)
    returns (updated: Installment)
    requires db.Valid() && !installment.isPaid
    requires Find(before, InstallmentWithId(installment.id)) == Some(installment)
    requires db.installments == UpdateWhere(before, InstallmentWithId(installment.id), MarkPaidAt(paymentTime))
    modifies db`installments
    ensures db.Valid()
    ensures db.installments == UpdateWhere(before, InstallmentWithId(installment.id), MarkPaidAt(now))
    ensures updated == MarkPaidAt(now)(installment)
  {
    var sel := InstallmentWithId(installment.id);
    FindUpdated(before, sel, MarkPaidAt(paymentTime));
    var k := IndexOfId(before, installment);
    assert db.installments[k].id == installment.id;
    updated := UpdatePaidStatus(db, installment, true, now);
    PaidUpdateOverwrites(before, installment, paymentTime, now);
  }

  /** The position of a row in a table it belongs to. */
  function IndexOfId(s: seq<Installment>, i: Installment): (k: nat)
    requires i in s
    ensures k < |s| && s[k] == i
  {
    if s[0] == i then 0 else 1 + IndexOfId(s[1..], i)
  }

  /** The status update after the payment leaves the row as one payment at `now` would. */
  lemma PaidUpdateOverwrites(s: seq<Installment>, installment: Installment, paymentTime: Instant, now: Instant)
    requires !installment.isPaid
    ensures var p := PaidTransition(installment, true, now);
      UpdateWhere(UpdateWhere(s, InstallmentWithId(installment.id), MarkPaidAt(paymentTime)),
                  InstallmentWithId(installment.id), WritePaid(p.isPaid, p.paidAt))
        == UpdateWhere(s, InstallmentWithId(installment.id), MarkPaidAt(now))
  {
    var p := PaidTransition(installment, true, now);
    var sel := InstallmentWithId(installment.id);
    UpdateWhereTwice(s, sel, MarkPaidAt(paymentTime), WritePaid(p.isPaid, p.paidAt));
    assert forall x :: WritePaid(p.isPaid, p.paidAt)(x) == MarkPaidAt(now)(x);
    var a := UpdateWhere(s, sel, WritePaid(p.isPaid, p.paidAt));
    var b := UpdateWhere(s, sel, MarkPaidAt(now));
    assert forall k :: 0 <= k < |s| ==> a[k] == b[k];
  }

  /** markAllUnpaidAsPaid(accountId): one `updateMany` with one clock reading. */
  method MarkAllUnpaidAsPaid(db: Db, accountId: Id, now: Instant)
    requires db.Valid()
    modifies db`installments
    ensures db.Valid()
    ensures db.installments == UpdateWhere(old(db.installments), UnpaidOf(accountId), MarkPaidAt(now))
  {
    UpdateKeyed(db.installments, UnpaidOf(accountId), MarkPaidAt(now), InstallmentKey, db.nextId);
    db.SetInstallments(UpdateWhere(db.installments, UnpaidOf(accountId), MarkPaidAt(now)));
  }

  /** After the bulk update every installment of the account is paid; the rows it
      changed are exactly those that were unpaid, and all carry the same paidAt. */
  lemma MarkAllUnpaidAsPaidEffect(s: seq<Installment>, accountId: Id, now: Instant, k: int)
    requires 0 <= k < |s|
    ensures var r := UpdateWhere(s, UnpaidOf(accountId), MarkPaidAt(now));
      (s[k].accountId == accountId ==> r[k].isPaid) &&
      (r[k] != s[k] <==> s[k].accountId == accountId && !s[k].isPaid) &&
      (r[k] != s[k] ==> r[k].paidAt == Some(now)) &&
      r[k].id == s[k].id
  {
  }

  // ---------------------------------------------------------------------
  // buildPaginatedResult

  /** `page < Math.ceil(total / limit)` for every integer limit: a limit of 0 makes the
      page count Infinity (or NaN when total is 0), and a negative limit makes it
      `-floor(total / -limit)`. */
  function HasNextPage(total: nat, limit: int, page: int): bool {
    if limit > 0 then page < TotalPages(total, limit)
    else if limit == 0 then total > 0
    else page < -(total / -limit)
  }

  /** Whether a later page exists, in terms of the rows up to the end of this page. */
  lemma HasNextPageIff(total: nat, limit: int, page: int)
    ensures limit >= 0 ==> (HasNextPage(total, limit, page) <==> page * limit < total)
    ensures limit < 0 ==> (HasNextPage(total, limit, page) <==> total < page * limit)
  {
    if limit > 0 {
      if page >= 0 {
        PageBeforeLastIff(total, limit, page);
      } else {
        MulMonotone(page, -1, limit);
      }
    } else if limit < 0 {
      NegativeLimitPages(total, -limit, page);
    }
  }

  /** The page record of the list queries. The query arguments reach it unvalidated,
      so it is defined for every limit and page. */
  function BuildPaginatedResult<T>(docs: seq<T>, total: nat, limit: int, page: int, offset: int): (r: Page<T>)
    ensures r.docs == docs && r.total == total && r.limit == limit && r.page == page && r.offset == offset
    ensures limit >= 0 ==> (r.hasNextPage <==> page * limit < total)
    ensures limit < 0 ==> (r.hasNextPage <==> total < page * limit)
    ensures r.hasPrevPage <==> page > 1
  {
    HasNextPageIff(total, limit, page);
    Page(docs, total, limit, page, offset, HasNextPage(total, limit, page), page > 1)
  }

  /** With `l = -limit > 0`: `page < -floor(total / l)` exactly when `total < page * -l`. */
  lemma NegativeLimitPages(total: nat, l: int, page: int)
    requires l >= 1
    ensures page < -(total / l) <==> total < page * -l
  {
    var q := total / l;
    assert total == q * l + total % l && 0 <= total % l < l;
    assert page * -l == -page * l;
    if page < -q {
      MulMonotone(q + 1, -page, l);
      assert (q + 1) * l == q * l + l;
    } else {
      MulMonotone(-page, q, l);
    }
  }

  /** With `offset = (page - 1) * limit` this agrees with the `offset + limit < total`
      rule of the other list endpoints for every limit that is not negative. */
  lemma PaginatedResultAgrees<T>(docs: seq<T>, total: nat, limit: int, page: int)
    requires limit >= 0
    ensures BuildPaginatedResult(docs, total, limit, page, (page - 1) * limit).hasNextPage <==>
      (page - 1) * limit + limit < total
  {
    assert (page - 1) * limit + limit == page * limit;
  }
}
