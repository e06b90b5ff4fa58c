// The accounts service: creating, updating and deleting bills, loans and
// credit cards together with their installment schedules, their card links
// and the monthly summaries they feed, and the read models built on them.
module Accounts {
  import opened Common
  import opened Calendar
  import opened Entities
  import opened Store
  import opened Pagination
  import Summaries = MonthlySummaries
  import Transactions
  import Installments
  import CreditCardItems

  // ---------------------------------------------------------------------
  // Inputs and messages

  /** The create body. `startDate` is the parsed date string. */
  datatype CreateInput = CreateInput(
    userId: Id,
    name: string,
    kind: AccountType,
    startDate: CalendarDate,
    dueDay: int,
    totalAmount: Option<int>,
    installmentAmount: Option<int>,
    installments: Option<int>,
    isPaid: Option<bool>,
    isPreview: Option<bool>,
    referenceMonth: Option<int>,
    referenceYear: Option<int>,
    creditLimit: Option<int>,
    creditCardId: Option<Id>,
    closingDate: Option<int>)

  /** The update body: `None` is a field left undefined. `creditCardId` may also be
      set to null, so it carries one more level of option. */
  datatype AccountPatch = AccountPatch(
    name: Option<string>,
    kind: Option<AccountType>,
    startDate: Option<CalendarDate>,
    dueDay: Option<int>,
    totalAmount: Option<int>,
    installmentAmount: Option<int>,
    installments: Option<int>,
    isPaid: Option<bool>,
    isPreview: Option<bool>,
    referenceMonth: Option<int>,
    referenceYear: Option<int>,
    creditLimit: Option<int>,
    creditCardId: Option<Option<Id>>,
    closingDate: Option<int>)

  /** A patch that sets nothing, e.g. `{ creditCardId: undefined }`. */
  function EmptyPatch(): AccountPatch {
    AccountPatch(None, None, None, None, None, None, None, None, None, None, None, None, None, None)
  }

  /** The ranges the request validators enforce. */
  predicate ValidCreateInput(i: CreateInput) {
    ValidDate(i.startDate) && 1 <= i.dueDay <= 31 &&
    (i.installments.Some? ==> i.installments.value >= 1) &&
    (i.totalAmount.Some? ==> i.totalAmount.value >= 0) &&
    (i.installmentAmount.Some? ==> i.installmentAmount.value >= 0) &&
    (i.referenceMonth.Some? ==> 1 <= i.referenceMonth.value <= 12) &&
    (i.closingDate.Some? ==> 1 <= i.closingDate.value <= 31)
  }

  predicate ValidPatch(p: AccountPatch) {
    (p.startDate.Some? ==> ValidDate(p.startDate.value)) &&
    (p.dueDay.Some? ==> 1 <= p.dueDay.value <= 31) &&
    (p.installments.Some? ==> p.installments.value >= 1) &&
    (p.totalAmount.Some? ==> p.totalAmount.value >= 0) &&
    (p.installmentAmount.Some? ==> p.installmentAmount.value >= 0) &&
    (p.referenceMonth.Some? ==> 1 <= p.referenceMonth.value <= 12) &&
    (p.closingDate.Some? ==> 1 <= p.closingDate.value <= 31)
  }

  /** What every stored account satisfies because it was written from a validated body. */
  predicate WellFormed(a: Account) {
    ValidDate(a.startDate) && (a.installments.Some? ==> a.installments.value >= 1)
  }

  predicate AllWellFormed(accounts: seq<Account>) {
    forall k :: 0 <= k < |accounts| ==> WellFormed(accounts[k])
  }

  function MissingAccount(id: Id): string {
    "Account with ID " + NatText(id) + " not found"
  }

  function NotOwned(id: Id, userId: Id): string {
    "Account with ID " + NatText(id) + " not found for user " + NatText(userId)
  }

  function NotAssociated(accountId: Id, creditCardId: Id): string {
    "Account " + NatText(accountId) + " is not associated with credit card " + NatText(creditCardId)
  }

  const FixedNeedsInstallmentAmount := "FIXED accounts with installments require installmentAmount"
  const LoanNeedsAllAmounts := "LOAN accounts require totalAmount, installments, and installmentAmount"
  const AlreadyPaid := "Account is already paid"
  const Underpaid := "Payment amount is less than account total amount"

  // ---------------------------------------------------------------------
  // Reference period

  type Period = Summaries.Period

  /** Months counted from year 0, so that consecutive months differ by one. */
  function MonthIndex(p: Period): int { 12 * p.year + p.month - 1 }

  /** The period a card closing on day `closingDate` bills on `today`: this month up to
      and including the closing day, the next month after it. */
  function ClosingPeriod(today: CalendarDate, closingDate: int): (r: Period)
    requires ValidDate(today)
    ensures 1 <= r.month <= 12
    ensures MonthIndex(r) == MonthIndex(Summaries.Period(today.month, today.year)) + (if today.day <= closingDate then 0 else 1)
  {
    if today.day <= closingDate then Summaries.Period(today.month, today.year)
    else if today.month == 12 then Summaries.Period(1, today.year + 1)
    else Summaries.Period(today.month + 1, today.year)
  }

  /** The period an account is filed under: the given month and year when both are set,
      otherwise the closing-day rule for a card with a closing day, otherwise the start
      date's month. */
  function ReferencePeriod(month: Option<int>, year: Option<int>, kind: AccountType, closingDate: Option<int>,
                           startDate: CalendarDate, today: CalendarDate): (r: Period)
    requires ValidDate(startDate) && ValidDate(today)
    ensures Truthy(month) && Truthy(year) ==> r == Summaries.Period(month.value, year.value)
    ensures !(Truthy(month) && Truthy(year)) ==> 1 <= r.month <= 12
    ensures !(Truthy(month) && Truthy(year)) && kind == CreditCard && Truthy(closingDate) ==>
      MonthIndex(r) - MonthIndex(Summaries.Period(today.month, today.year)) == (if today.day <= closingDate.value then 0 else 1)
    ensures !(Truthy(month) && Truthy(year)) && !(kind == CreditCard && Truthy(closingDate)) ==>
      r.month == startDate.month && r.year == startDate.year
  {
    if Truthy(month) && Truthy(year) then Summaries.Period(month.value, year.value)
    else if kind == CreditCard && Truthy(closingDate) then ClosingPeriod(today, closingDate.value)
    else Summaries.Period(startDate.month, startDate.year)
  }

  function CreatePeriod(i: CreateInput, today: CalendarDate): Period
    requires ValidDate(i.startDate) && ValidDate(today)
  {
    ReferencePeriod(i.referenceMonth, i.referenceYear, i.kind, i.closingDate, i.startDate, today)
  }

  /** On update the stored period fills in for a missing one before the rule applies, and
      the closing day comes from the patch only. */
  function UpdatePeriod(existing: Account, patch: AccountPatch, today: CalendarDate): Period
    requires ValidDate(existing.startDate) && ValidPatch(patch) && ValidDate(today)
  {
    ReferencePeriod(OrOption(patch.referenceMonth, existing.referenceMonth),
                    OrOption(patch.referenceYear, existing.referenceYear),
                    OrElse(patch.kind, existing.kind), patch.closingDate,
                    OrElse(patch.startDate, existing.startDate), today)
  }

  // ---------------------------------------------------------------------
  // Loan arithmetic (the integer parts of calculateLoanAmounts)

  datatype LoanCalculation = LoanCalculation(totalAmount: int, monthlyPayment: int, totalInterest: int, monthlyInterestRate: real)

  /** The monthly rate: exactly zero when the installments repay the principal, and
      otherwise `solved`, the value of the numeric solver, which is not modelled. */
  function CalculateMonthlyInterestRate(principal: int, installments: int, installmentAmount: int, solved: real): (r: real)
    ensures installmentAmount * installments == principal ==> r == 0.0
  {
    if installmentAmount * installments == principal then 0.0 else solved
  }

  /** The stored total is the principal; the interest is what the installments pay on top of it. */
  function CalculateLoanAmounts(principal: int, installments: int, installmentAmount: int, solved: real): (r: LoanCalculation)
    ensures r.totalAmount == principal && r.monthlyPayment == installmentAmount
    ensures r.totalAmount + r.totalInterest == installments * r.monthlyPayment
    ensures r.totalInterest == 0 ==> r.monthlyInterestRate == 0.0
  {
    var totalWithInterest := installmentAmount * installments;
    LoanCalculation(principal, installmentAmount, totalWithInterest - principal,
                    CalculateMonthlyInterestRate(principal, installments, installmentAmount, solved))
  }

  // ---------------------------------------------------------------------
  // Amount rules

  datatype Amounts = Amounts(totalAmount: Option<int>, installmentAmount: Option<int>)

  /** The amounts a create stores and schedules with. A FIXED account with installments
      needs an installment amount and totals it; a LOAN needs all three amounts and keeps
      its principal. The interest rate is computed and thrown away, so any solver value
      gives the same result. */
  function CreateAmounts(i: CreateInput): (r: Result<Amounts>)
    ensures r.Err? <==>
      (i.kind == Fixed && Truthy(i.installments) && !Truthy(i.installmentAmount)) ||
      (i.kind == Loan && !(Truthy(i.totalAmount) && Truthy(i.installments) && Truthy(i.installmentAmount)))
    ensures r.Err? && i.kind == Fixed ==> r.error == BadRequest(FixedNeedsInstallmentAmount)
    ensures r.Err? && i.kind == Loan ==> r.error == BadRequest(LoanNeedsAllAmounts)
    ensures r.Ok? ==> r.value.installmentAmount == i.installmentAmount
    ensures r.Ok? && i.kind == Fixed && Truthy(i.installments) ==>
      r.value.totalAmount == Some(i.installmentAmount.value * i.installments.value)
    ensures r.Ok? && !(i.kind == Fixed && Truthy(i.installments)) ==> r.value.totalAmount == i.totalAmount
  {
    if i.kind == Fixed && Truthy(i.installments) then
      if !Truthy(i.installmentAmount) then Err(BadRequest(FixedNeedsInstallmentAmount))
      else Ok(Amounts(Some(i.installmentAmount.value * i.installments.value), i.installmentAmount))
    else if i.kind == Loan then
      if !Truthy(i.totalAmount) || !Truthy(i.installments) || !Truthy(i.installmentAmount) then
        Err(BadRequest(LoanNeedsAllAmounts))
      else
        var loan := CalculateLoanAmounts(i.totalAmount.value, i.installments.value, i.installmentAmount.value, 0.0);
        Ok(Amounts(Some(loan.totalAmount), i.installmentAmount))
    else Ok(Amounts(i.totalAmount, i.installmentAmount))
  }

  datatype Totals = Totals(totalAmount: int, installmentAmount: Option<int>)

  /** `data.totalAmount ?? Number(existing.totalAmount ?? 0)`. */
  function PatchedTotal(existing: Account, patch: AccountPatch): int {
    OrElse(patch.totalAmount, OrElse(existing.totalAmount, 0))
  }

  /** The amounts an update stores and schedules with. The LOAN check reads the
      installment amount from the patch alone, so a patch without one is always
      rejected for a loan, whatever else it changes. */
  function UpdateAmounts(existing: Account, patch: AccountPatch): (r: Result<Totals>)
    ensures var kind := OrElse(patch.kind, existing.kind);
      r.Err? <==>
        (kind == Fixed && Truthy(patch.installments) && !Truthy(patch.installmentAmount) && !Truthy(existing.totalAmount)) ||
        (kind == Loan && (PatchedTotal(existing, patch) == 0 ||
                          OrElse(patch.installments, OrElse(existing.installments, 0)) == 0 ||
                          !Truthy(patch.installmentAmount)))
    ensures OrElse(patch.kind, existing.kind) == Loan && !Truthy(patch.installmentAmount) ==>
      r == Err(BadRequest(LoanNeedsAllAmounts))
    ensures r.Err? && OrElse(patch.kind, existing.kind) == Fixed ==> r.error == BadRequest(FixedNeedsInstallmentAmount)
    ensures r.Ok? ==> r.value.installmentAmount == patch.installmentAmount
    ensures r.Ok? && OrElse(patch.kind, existing.kind) == Fixed && Truthy(patch.installments) && Truthy(patch.installmentAmount) ==>
      r.value.totalAmount == patch.installmentAmount.value * patch.installments.value
    ensures r.Ok? && !(OrElse(patch.kind, existing.kind) == Fixed && Truthy(patch.installments) && Truthy(patch.installmentAmount)) ==>
      r.value.totalAmount == PatchedTotal(existing, patch)
  {
    var kind := OrElse(patch.kind, existing.kind);
    var total := PatchedTotal(existing, patch);
    if kind == Fixed && Truthy(patch.installments) then
      if !Truthy(patch.installmentAmount) && !Truthy(existing.totalAmount) then Err(BadRequest(FixedNeedsInstallmentAmount))
      else if Truthy(patch.installmentAmount) then
        Ok(Totals(patch.installmentAmount.value * patch.installments.value, patch.installmentAmount))
      else Ok(Totals(total, patch.installmentAmount))
    else if kind == Loan then
      var n := OrElse(patch.installments, OrElse(existing.installments, 0));
      if total == 0 || n == 0 || !Truthy(patch.installmentAmount) then Err(BadRequest(LoanNeedsAllAmounts))
      else
        var loan := CalculateLoanAmounts(total, n, patch.installmentAmount.value, 0.0);
        Ok(Totals(loan.totalAmount, patch.installmentAmount))
    else Ok(Totals(total, patch.installmentAmount))
  }

  // ---------------------------------------------------------------------
  // The schedule an account gets

  /** Which generator runs for a stored account: the fixed amount for a FIXED or LOAN
      account with an installment amount, else the even split of a non-zero total, and
      nothing for an account without installments. */
  function SchedulePlan(a: Account, installmentAmount: Option<int>): (r: Option<seq<Installments.InstallmentData>>)
    requires WellFormed(a)
    ensures r.Some? <==>
      Truthy(a.installments) && (((a.kind == Fixed || a.kind == Loan) && Truthy(installmentAmount)) || Truthy(a.totalAmount))
    ensures r.Some? ==> Installments.IsSchedule(r.value, a.id, a.installments.value,
                                                Installments.NormalizeStartDate(Installments.DateValue(a.startDate)), a.dueDay)
    ensures r.Some? && (a.kind == Fixed || a.kind == Loan) && Truthy(installmentAmount) ==>
      (forall k :: 0 <= k < |r.value| ==> r.value[k].amount == installmentAmount.value) &&
      SumWhere(r.value, AnyRow, Installments.DataAmount) == a.installments.value * installmentAmount.value
    ensures r.Some? && !((a.kind == Fixed || a.kind == Loan) && Truthy(installmentAmount)) ==>
      SumWhere(r.value, AnyRow, Installments.DataAmount) == a.totalAmount.value
  {
    var base := Installments.NormalizeStartDate(Installments.DateValue(a.startDate));
    if !Truthy(a.installments) then None
    else if (a.kind == Fixed || a.kind == Loan) && Truthy(installmentAmount) then
      Installments.FixedScheduleSum(a.id, installmentAmount.value, a.installments.value, base, a.dueDay);
      Some(Installments.FixedSchedule(a.id, installmentAmount.value, a.installments.value, base, a.dueDay))
    else if Truthy(a.totalAmount) then
      Installments.EvenSplitSum(a.id, a.totalAmount.value, a.installments.value, base, a.dueDay);
      Some(Installments.EvenSplit(a.id, a.totalAmount.value, a.installments.value, base, a.dueDay))
    else None
  }

  /** The rows the generator adds, numbered from `firstId`; none when it fails. */
  function Generated(a: Account, installmentAmount: Option<int>, firstId: nat, fails: bool): seq<Installment>
    requires WellFormed(a)
  {
    match SchedulePlan(a, installmentAmount)
    case None => []
    case Some(plan) => if fails then [] else Installments.Rows(plan, firstId)
  }

  // ---------------------------------------------------------------------
  // getByIdFull

  /** An account with its schedule and, for loans, what has been paid off. */
  datatype AccountView = AccountView(account: Account, installmentList: seq<Installment>, amountPaid: int, remainingAmount: int)

  function IsPaidInstallment(i: Installment): bool { i.isPaid }
  function AmountOf(i: Installment): int { i.amount }

  function PaidOf(accountId: Id): Installment -> bool {
    (i: Installment) => i.accountId == accountId && i.isPaid
  }

  /** getByIdFull. `listFails` is a failure of the schedule query, which leaves the
      list empty. */
  function GetByIdFull(accounts: seq<Account>, installments: seq<Installment>, id: Id, listFails: bool): (r: Result<AccountView>)
    ensures r.Err? <==> forall k :: 0 <= k < |accounts| ==> accounts[k].id != id
    ensures r.Err? ==> r.error == NotFound(MissingAccount(id))
    ensures r.Ok? ==> r.value.account in accounts && r.value.account.id == id
    ensures r.Ok? ==> Find(accounts, AccountWithId(id)) == Some(r.value.account)
    ensures r.Ok? ==> r.value.installmentList == if listFails then [] else Installments.AccountSchedule(installments, id)
    ensures r.Ok? ==> r.value.amountPaid + r.value.remainingAmount == OrElse(r.value.account.totalAmount, 0)
    ensures r.Ok? && r.value.account.kind != Loan ==> r.value.amountPaid == 0
    ensures r.Ok? && r.value.account.kind == Loan && !listFails ==>
      r.value.amountPaid == SumWhere(installments, PaidOf(id), AmountOf)
  {
    match Find(accounts, AccountWithId(id))
    case None => Err(NotFound(MissingAccount(id)))
    case Some(a) =>
      var list := if listFails then [] else Installments.AccountSchedule(installments, id);
      var total := OrElse(a.totalAmount, 0);
      if a.kind == Loan then
        var paid := SumWhere(list, IsPaidInstallment, AmountOf);
        AmountPaidCountsEachPaidRow(installments, id);
        Ok(AccountView(a, list, paid, total - paid))
      else Ok(AccountView(a, list, 0, total))
  }

  /** The full view of an account that is present carries that account. */
  lemma ViewOfFound(accounts: seq<Account>, installments: seq<Installment>, id: Id, listFails: bool, a: Account)
    requires Find(accounts, AccountWithId(id)) == Some(a)
    ensures GetByIdFull(accounts, installments, id, listFails).Ok?
    ensures GetByIdFull(accounts, installments, id, listFails).value.account == a
  {
  }

  /** The schedule's paid sum counts each paid installment of the account once, whatever
      the order of the schedule. */
  lemma AmountPaidCountsEachPaidRow(installments: seq<Installment>, id: Id)
    ensures SumWhere(Installments.AccountSchedule(installments, id), IsPaidInstallment, AmountOf)
         == SumWhere(installments, PaidOf(id), AmountOf)
  {
    var f := Filter(installments, InstallmentsOf(id));
    SortByFacts(f, Installments.InstallmentNumber);
    SumWhereMultiset(Installments.AccountSchedule(installments, id), f, IsPaidInstallment, AmountOf);
    SumWhereFilter(installments, InstallmentsOf(id), IsPaidInstallment, PaidOf(id), AmountOf);
  }

  // ---------------------------------------------------------------------
  // list

  datatype AccountList = AccountList(accounts: seq<Account>, total: nat, page: int, limit: int, totalPages: nat)

  predicate ListMatches(userId: Option<Id>, isPaid: Option<bool>, a: Account) {
    (userId.Some? ==> a.userId == userId.value) && (isPaid.Some? ==> a.isPaid == isPaid.value)
  }

  function ListFilter(userId: Option<Id>, isPaid: Option<bool>): Account -> bool {
    (a: Account) => ListMatches(userId, isPaid, a)
  }

  /** list: the matching accounts newest first, one page of them, and the page count.
      The query validator demands page >= 1 and limit >= 1. */
  function List(accounts: seq<Account>, userId: Option<Id>, isPaid: Option<bool>, page: Option<int>, limit: Option<int>)
    : (r: AccountList)
    requires page.Some? ==> page.value >= 1
    requires limit.Some? ==> limit.value >= 1
    ensures r.page == OrElse(page, 1) && r.limit == OrElse(limit, 10)
    ensures r.total == CountWhere(accounts, ListFilter(userId, isPaid))
    ensures |r.accounts| <= r.limit
    ensures r.totalPages * r.limit >= r.total
    ensures r.totalPages == 0 || (r.totalPages - 1) * r.limit < r.total
    ensures r.page * r.limit < r.total ==> |r.accounts| == r.limit
  {
    var l: nat := OrElse(limit, 10);
    var p: nat := OrElse(page, 1);
    var rows := Filter(accounts, ListFilter(userId, isPaid));
    FilterLength(accounts, ListFilter(userId, isPaid));
    TotalPagesIsCeiling(|rows|, l);
    ReversedMultiset(rows);
    assert |Reversed(rows)| == |multiset(Reversed(rows))| == |rows|;
    AccountList(PageOf(Reversed(rows), p, l), |rows|, p, l, TotalPages(|rows|, l))
  }

  /** Every listed account exists and passes the filters. */
  lemma ListReturnsMatches(accounts: seq<Account>, userId: Option<Id>, isPaid: Option<bool>,
                           page: Option<int>, limit: Option<int>, a: Account)
    requires page.Some? ==> page.value >= 1
    requires limit.Some? ==> limit.value >= 1
    requires a in List(accounts, userId, isPaid, page, limit).accounts
    ensures a in accounts && ListMatches(userId, isPaid, a)
  {
    var rows := Filter(accounts, ListFilter(userId, isPaid));
    var w := List(accounts, userId, isPaid, page, limit).accounts;
    assert a in Reversed(rows);
    ReversedMultiset(rows);
    assert a in multiset(rows);
    FilterMember(accounts, ListFilter(userId, isPaid), a);
  }

  /** Which accounts a page holds: the matches newest first, that is from the end of the
      table backwards, starting `(page - 1) * limit` matches in; the page is full unless
      the matches run out, and empty past them. */
  lemma ListPageHoldsNewest(accounts: seq<Account>, userId: Option<Id>, isPaid: Option<bool>,
                            page: nat, limit: nat, skip: nat)
    requires page >= 1 && limit >= 1 && skip == (page - 1) * limit
    ensures HoldsNewest(List(accounts, userId, isPaid, Some(page), Some(limit)).accounts,
                        Filter(accounts, ListFilter(userId, isPaid)), limit, skip)
  {
    var m := Filter(accounts, ListFilter(userId, isPaid));
    assert List(accounts, userId, isPaid, Some(page), Some(limit)).accounts == PageOf(Reversed(m), page, limit);
    NewestPage(m, page, limit, skip);
  }

  /** Every match is listed: the j-th newest (counting from 0) is on page `j / limit + 1` at
      position `j % limit`. */
  lemma ListShowsEveryMatch(accounts: seq<Account>, userId: Option<Id>, isPaid: Option<bool>, limit: int, j: nat)
    requires limit >= 1 && j < CountWhere(accounts, ListFilter(userId, isPaid))
    ensures var m := Filter(accounts, ListFilter(userId, isPaid));
      var pg := List(accounts, userId, isPaid, Some(PageOfRow(j, limit)), Some(limit)).accounts;
      PlaceOnPage(j, limit) < |pg| && pg[PlaceOnPage(j, limit)] == m[|m| - 1 - j]
  {
    var m := Filter(accounts, ListFilter(userId, isPaid));
    assert List(accounts, userId, isPaid, Some(PageOfRow(j, limit)), Some(limit)).accounts
        == PageOf(Reversed(m), PageOfRow(j, limit), limit);
    FilterLength(accounts, ListFilter(userId, isPaid));
    NewestRowOnItsPage(m, limit, j);
  }

  // ---------------------------------------------------------------------
  // getPeriodStatisticsTyped

  datatype PeriodStatistics = PeriodStatistics(
    referenceMonth: int,
    referenceYear: int,
    totalAccounts: nat,
    paidAccounts: nat,
    unpaidAccounts: int,
    totalAmount: int,
    paidAmount: int,
    unpaidAmount: int)

  function InPeriod(userId: Id, month: int, year: int): Account -> bool {
    (a: Account) => a.userId == userId && a.referenceMonth == Some(month) && a.referenceYear == Some(year)
  }

  function PaidInPeriod(userId: Id, month: int, year: int): Account -> bool {
    (a: Account) => InPeriod(userId, month, year)(a) && a.isPaid
  }

  function UnpaidInPeriod(userId: Id, month: int, year: int): Account -> bool {
    (a: Account) => InPeriod(userId, month, year)(a) && !a.isPaid
  }

  function IsPaidAccount(a: Account): bool { a.isPaid }
  function AmountOrZero(a: Account): int { OrElse(a.totalAmount, 0) }

  /** getPeriodStatisticsTyped: the period's accounts split into paid and unpaid, by
      count and by amount; the differences the service reports are the unpaid rows. */
  function GetPeriodStatisticsTyped(accounts: seq<Account>, userId: Id, month: int, year: int): (r: PeriodStatistics)
    ensures r.referenceMonth == month && r.referenceYear == year
    ensures r.totalAccounts == CountWhere(accounts, InPeriod(userId, month, year))
    ensures r.paidAccounts == CountWhere(accounts, PaidInPeriod(userId, month, year))
    ensures r.unpaidAccounts == CountWhere(accounts, UnpaidInPeriod(userId, month, year))
    ensures r.paidAccounts + r.unpaidAccounts == r.totalAccounts
    ensures r.totalAmount == SumWhere(accounts, InPeriod(userId, month, year), AmountOrZero)
    ensures r.paidAmount == SumWhere(accounts, PaidInPeriod(userId, month, year), AmountOrZero)
    ensures r.unpaidAmount == SumWhere(accounts, UnpaidInPeriod(userId, month, year), AmountOrZero)
    ensures r.paidAmount + r.unpaidAmount == r.totalAmount
  {
    var inPeriod := InPeriod(userId, month, year);
    var rows := Filter(accounts, inPeriod);
    var totalAccounts := |rows|;
    var paidAccounts := CountWhere(rows, IsPaidAccount);
    var totalAmount := SumWhere(rows, AnyRow, AmountOrZero);
    var paidAmount := SumWhere(rows, IsPaidAccount, AmountOrZero);
    FilterLength(accounts, inPeriod);
    CountWhereFilter(accounts, inPeriod, IsPaidAccount, PaidInPeriod(userId, month, year));
    CountWhereSplit(accounts, inPeriod, IsPaidAccount, PaidInPeriod(userId, month, year), UnpaidInPeriod(userId, month, year));
    SumWhereFilter(accounts, inPeriod, AnyRow, inPeriod, AmountOrZero);
    SumWhereFilter(accounts, inPeriod, IsPaidAccount, PaidInPeriod(userId, month, year), AmountOrZero);
    SumWhereSplit(accounts, inPeriod, IsPaidAccount, PaidInPeriod(userId, month, year), UnpaidInPeriod(userId, month, year), AmountOrZero);
    PeriodStatistics(month, year, totalAccounts, paidAccounts, totalAccounts - paidAccounts,
                     totalAmount, paidAmount, totalAmount - paidAmount)
  }

  // ---------------------------------------------------------------------
  // Writes

  /** The steps whose failures the service logs and swallows. */
  datatype Faults = Faults(
    scheduleFails: bool,      // creating the installment rows
    summaryFails: bool,       // recalculating the monthly summaries
    listFails: bool,          // loading the schedule for the returned view
    linksFail: bool,          // removing card links on delete
    installmentsFail: bool,   // marking the installments paid
    paymentFails: bool)       // recording the payment transaction

  /** A first row with a fresh key is the one the search finds. */
  lemma FindFresh(accounts: seq<Account>, a: Account)
    requires KeyedBelow(accounts, AccountKey, a.id)
    ensures Find(accounts + [a], AccountWithId(a.id)) == Some(a)
  {
    var s := accounts + [a];
    forall j | 0 <= j < |s| && j != |accounts| ensures !AccountWithId(a.id)(s[j]) {
      assert s[j] == accounts[j];
    }
    FindSingle(s, AccountWithId(a.id), |accounts|);
  }

  /** The row `create` writes. */
  function NewAccount(i: CreateInput, amounts: Amounts, period: Period, id: Id): (r: Account)
    ensures r.id == id && r.userId == i.userId && r.kind == i.kind
    ensures r.isPaid == OrElse(i.isPaid, false) && r.isPreview == OrElse(i.isPreview, false)
    ensures r.referenceMonth == Some(period.month) && r.referenceYear == Some(period.year)
  {
    Account(id, i.userId, i.name, i.kind, OrElse(i.isPaid, false), OrElse(i.isPreview, false),
            amounts.totalAmount, i.installments, i.startDate, i.dueDay,
            Some(period.month), Some(period.year), i.creditLimit, i.creditCardId)
  }

  /** Runs the generator `SchedulePlan` picks for `a`; a failure adds no rows. */
  method GenerateSchedule(db: Db, a: Account, installmentAmount: Option<int>, fails: bool)
    requires db.Valid() && WellFormed(a)
    modifies db`installments, db`nextId
    ensures db.Valid()
    ensures db.installments == old(db.installments) + Generated(a, installmentAmount, old(db.nextId), fails)
    ensures db.nextId == old(db.nextId) + |Generated(a, installmentAmount, old(db.nextId), fails)|
  {
    if !Truthy(a.installments) {
      return;
    }
    var start := Installments.DateValue(a.startDate);
    if (a.kind == Fixed || a.kind == Loan) && Truthy(installmentAmount) {
      var created := Installments.CreateInstallmentsFromAmount(db, a.id, installmentAmount.value, a.installments.value,
                                                               start, a.dueDay, fails);
    } else if Truthy(a.totalAmount) {
      var created := Installments.CreateInstallmentsFromTotalAmount(db, a.id, a.totalAmount.value, a.installments.value,
                                                                    start, a.dueDay, fails);
    }
  }

  /** Stores the new row under a fresh key. */
  method AppendAccount(db: Db, input: CreateInput, amounts: Amounts, period: Period) returns (a: Account)
    requires db.Valid() && AllWellFormed(db.accounts) && ValidCreateInput(input)
    modifies db`accounts, db`nextId
    ensures a == NewAccount(input, amounts, period, old(db.nextId)) && WellFormed(a)
    ensures db.Valid() && AllWellFormed(db.accounts)
    ensures db.accounts == old(db.accounts) + [a] && db.nextId == old(db.nextId) + 1
    ensures Find(db.accounts, AccountWithId(a.id)) == Some(a)
  {
    var id := db.NewId();
    a := NewAccount(input, amounts, period, id);
    AppendKeyed(db.accounts, a, AccountKey, id);
    FindFresh(db.accounts, a);
    AppendedStayWellFormed(db.accounts, a);
    db.SetAccounts(db.accounts + [a]);
  }

  lemma AppendedStayWellFormed(accounts: seq<Account>, a: Account)
    requires AllWellFormed(accounts) && WellFormed(a)
    ensures AllWellFormed(accounts + [a])
  {
    var after := accounts + [a];
    forall k | 0 <= k < |after| ensures WellFormed(after[k]) {
      if k < |accounts| {
        assert after[k] == accounts[k];
      }
    }
  }

  /** The writes of an accepted create: the row, its schedule, its month's summary. */
  method InsertAccount(db: Db, input: CreateInput, amounts: Amounts, period: Period, now: Instant, faults: Faults)
    returns (a: Account)
    requires db.Valid() && AllWellFormed(db.accounts) && ValidCreateInput(input)
    modifies db`accounts, db`installments, db`summaries, db`nextId
    ensures a == NewAccount(input, amounts, period, old(db.nextId))
    ensures db.Valid() && AllWellFormed(db.accounts)
    ensures db.accounts == old(db.accounts) + [a]
    ensures db.installments == old(db.installments) + Generated(a, amounts.installmentAmount, old(db.nextId) + 1, faults.scheduleFails)
    ensures db.nextId == old(db.nextId) + 1 + |Generated(a, amounts.installmentAmount, old(db.nextId) + 1, faults.scheduleFails)|
    ensures db.summaries == (if faults.summaryFails then old(db.summaries)
                             else Summaries.RecalcMonths(old(db.summaries), db.accounts, db.installments, db.transactions,
                                                         input.userId, [period], now))
    ensures Find(db.accounts, AccountWithId(a.id)) == Some(a)
  {
    a := AppendAccount(db, input, amounts, period);
    GenerateSchedule(db, a, amounts.installmentAmount, faults.scheduleFails);
    if !faults.summaryFails {
      var generated := Summaries.GenerateSummariesForAccount(db, a.id, [period], now);
    }
  }

  /** create: validate the amounts, store the row, generate its schedule and its month's
      summary (both failures swallowed), and return the stored account's view. */
  method Create(db: Db, input: CreateInput, today: CalendarDate, now: Instant, faults: Faults) returns (r: Result<AccountView>)
    requires db.Valid() && AllWellFormed(db.accounts)
    requires ValidCreateInput(input) && ValidDate(today)
    modifies db`accounts, db`installments, db`summaries, db`nextId
    ensures db.Valid() && AllWellFormed(db.accounts)
    ensures db.transactions == old(db.transactions) && db.cardItems == old(db.cardItems)
    ensures CreateAmounts(input).Err? ==> r == Err(CreateAmounts(input).error) && unchanged(db)
    ensures CreateAmounts(input).Ok? ==>
      var period := CreatePeriod(input, today);
      var a := NewAccount(input, CreateAmounts(input).value, period, old(db.nextId));
      db.accounts == old(db.accounts) + [a] &&
      db.installments == old(db.installments) +
        Generated(a, input.installmentAmount, old(db.nextId) + 1, faults.scheduleFails) &&
      db.nextId == old(db.nextId) + 1 + |Generated(a, input.installmentAmount, old(db.nextId) + 1, faults.scheduleFails)| &&
      db.summaries == (if faults.summaryFails then old(db.summaries)
                       else Summaries.RecalcMonths(old(db.summaries), db.accounts, db.installments, db.transactions,
                                                   input.userId, [period], now)) &&
      r == GetByIdFull(db.accounts, db.installments, a.id, faults.listFails) &&
      r.Ok? && r.value.account == a
  {
    var amounts := CreateAmounts(input);
    if amounts.Err? {
      return Err(amounts.error);
    }
    var period := CreatePeriod(input, today);
    var a := InsertAccount(db, input, amounts.value, period, now, faults);
    r := GetByIdFull(db.accounts, db.installments, a.id, faults.listFails);
  }

  /** The row `update` writes: each field the patch sets, the recomputed total and period,
      and everything else as stored. */
  function ApplyPatch(a: Account, patch: AccountPatch, totalAmount: int, period: Period): (r: Account)
    ensures r.id == a.id && r.userId == a.userId
    ensures r.totalAmount == Some(totalAmount)
    ensures patch.creditCardId.None? ==> r.creditCardId == a.creditCardId
    ensures patch.creditCardId.Some? ==> r.creditCardId == patch.creditCardId.value
  {
    a.(name := OrElse(patch.name, a.name),
       kind := OrElse(patch.kind, a.kind),
       startDate := OrElse(patch.startDate, a.startDate),
       dueDay := OrElse(patch.dueDay, a.dueDay),
       totalAmount := Some(totalAmount),
       installments := OrOption(patch.installments, a.installments),
       isPaid := OrElse(patch.isPaid, a.isPaid),
       isPreview := OrElse(patch.isPreview, a.isPreview),
       referenceMonth := Some(period.month),
       referenceYear := Some(period.year),
       creditLimit := OrOption(patch.creditLimit, a.creditLimit),
       creditCardId := OrElse(patch.creditCardId, a.creditCardId))
  }

  function PatchWith(patch: AccountPatch, totalAmount: int, period: Period): Account -> Account {
    (a: Account) => ApplyPatch(a, patch, totalAmount, period)
  }

  /** The schedule is rebuilt when the patch touches one of the fields it is computed
      from and the updated account has installments. */
  predicate ShouldRecreate(patch: AccountPatch, updated: Account) {
    (patch.installments.Some? || patch.totalAmount.Some? || patch.installmentAmount.Some? ||
     patch.startDate.Some? || patch.dueDay.Some?) && Truthy(updated.installments)
  }

  function NotInstallmentOf(accountId: Id): Installment -> bool {
    (i: Installment) => i.accountId != accountId
  }

  /** The installments after the schedule step of an update: the account's rows replaced
      by a fresh schedule numbered from `firstId` when the step runs, else as they were. */
  function RebuiltInstallments(installments: seq<Installment>, patch: AccountPatch, updated: Account,
                               installmentAmount: Option<int>, firstId: nat, fails: bool): seq<Installment>
    requires WellFormed(updated)
  {
    if ShouldRecreate(patch, updated)
    then Filter(installments, NotInstallmentOf(updated.id)) + Generated(updated, installmentAmount, firstId, fails)
    else installments
  }

  /** The id counter after the schedule step: advanced past the fresh rows, if any. */
  function RebuiltCounter(nextId: nat, patch: AccountPatch, updated: Account,
                          installmentAmount: Option<int>, fails: bool): nat
    requires WellFormed(updated)
  {
    if ShouldRecreate(patch, updated) then nextId + |Generated(updated, installmentAmount, nextId, fails)|
    else nextId
  }

  /** The months whose summaries an update recalculates: the account's period, and the
      period it had before when that one was set and is a different month. */
  function AffectedMonths(existing: Account, period: Period): (r: seq<Period>)
    ensures |r| <= 2
    ensures forall q :: q in r <==>
      (q == period && period.month != 0 && period.year != 0) ||
      (Truthy(existing.referenceMonth) && Truthy(existing.referenceYear) &&
       q == Summaries.Period(existing.referenceMonth.value, existing.referenceYear.value) && q != period)
    ensures forall i, j :: 0 <= i < j < |r| ==> r[i] != r[j]
  {
    (if period.month != 0 && period.year != 0 then [period] else []) +
    (if Truthy(existing.referenceMonth) && Truthy(existing.referenceYear) &&
        (period.month != existing.referenceMonth.value || period.year != existing.referenceYear.value)
     then [Summaries.Period(existing.referenceMonth.value, existing.referenceYear.value)] else [])
  }

  /** A valid patch keeps an account well formed. */
  lemma PatchKeepsWellFormed(a: Account, patch: AccountPatch, totalAmount: int, period: Period)
    requires WellFormed(a) && ValidPatch(patch)
    ensures WellFormed(ApplyPatch(a, patch, totalAmount, period))
  {
  }

  lemma PatchedStayWellFormed(accounts: seq<Account>, id: Id, patch: AccountPatch, totalAmount: int,
                              period: Period)
    requires AllWellFormed(accounts) && ValidPatch(patch)
    ensures AllWellFormed(UpdateWhere(accounts, AccountWithId(id), PatchWith(patch, totalAmount, period)))
  {
    var after := UpdateWhere(accounts, AccountWithId(id), PatchWith(patch, totalAmount, period));
    forall k | 0 <= k < |after| ensures WellFormed(after[k]) {
      PatchKeepsWellFormed(accounts[k], patch, totalAmount, period);
    }
  }

  /** Writes the patched row. */
  method WritePatchedRow(db: Db, existing: Account, patch: AccountPatch, totalAmount: int, period: Period)
    requires db.Valid() && AllWellFormed(db.accounts) && ValidPatch(patch) && WellFormed(existing)
    modifies db`accounts
    ensures db.Valid() && AllWellFormed(db.accounts)
    ensures WellFormed(ApplyPatch(existing, patch, totalAmount, period))
    ensures db.accounts == UpdateWhere(old(db.accounts), AccountWithId(existing.id), PatchWith(patch, totalAmount, period))
  {
    var f := PatchWith(patch, totalAmount, period);
    UpdateKeyed(db.accounts, AccountWithId(existing.id), f, AccountKey, db.nextId);
    PatchedStayWellFormed(db.accounts, existing.id, patch, totalAmount, period);
    PatchKeepsWellFormed(existing, patch, totalAmount, period);
    db.SetAccounts(UpdateWhere(db.accounts, AccountWithId(existing.id), f));
  }

  /** The schedule part of an accepted update: when a schedule field changed, the
      account's installments are replaced by a freshly generated schedule. */
  method RebuildSchedule(db: Db, patch: AccountPatch, updated: Account, installmentAmount: Option<int>, fails: bool)
    requires db.Valid() && WellFormed(updated)
    modifies db`installments, db`nextId
    ensures db.Valid()
    ensures db.installments == RebuiltInstallments(old(db.installments), patch, updated, installmentAmount,
                                                   old(db.nextId), fails)
    ensures db.nextId == RebuiltCounter(old(db.nextId), patch, updated, installmentAmount, fails)
  {
    if ShouldRecreate(patch, updated) {
      FilterKeyed(db.installments, NotInstallmentOf(updated.id), InstallmentKey, db.nextId);
      db.SetInstallments(Filter(db.installments, NotInstallmentOf(updated.id)));
      GenerateSchedule(db, updated, installmentAmount, fails);
    }
  }

  /** The summaries after an update of `existing` to `period`: the affected months
      recalculated over the new tables, or the old rows when there are none or the
      recalculation fails. */
  function UpdatedSummaries(summaries: seq<MonthlySummary>, accounts: seq<Account>, installments: seq<Installment>,
                            transactions: seq<Transaction>, existing: Account, period: Period, now: Instant,
                            fails: bool): seq<MonthlySummary> {
    if |AffectedMonths(existing, period)| == 0 || fails then summaries
    else Summaries.RecalcMonths(summaries, accounts, installments, transactions,
                                existing.userId, AffectedMonths(existing, period), now)
  }

  /** The writes of an accepted update, in the service's order. */
  method WriteUpdate(db: Db, existing: Account, patch: AccountPatch, totals: Totals, period: Period,
                     now: Instant, faults: Faults)
    requires db.Valid() && AllWellFormed(db.accounts) && ValidPatch(patch) && WellFormed(existing)
    requires Find(db.accounts, AccountWithId(existing.id)) == Some(existing)
    modifies db`accounts, db`installments, db`summaries, db`nextId
    ensures db.Valid() && AllWellFormed(db.accounts)
    ensures var updated := ApplyPatch(existing, patch, totals.totalAmount, period);
      db.accounts == UpdateWhere(old(db.accounts), AccountWithId(existing.id), PatchWith(patch, totals.totalAmount, period)) &&
      db.installments == RebuiltInstallments(old(db.installments), patch, updated, totals.installmentAmount,
                                             old(db.nextId), faults.scheduleFails) &&
      db.nextId == RebuiltCounter(old(db.nextId), patch, updated, totals.installmentAmount, faults.scheduleFails) &&
      db.transactions == old(db.transactions) &&
      db.summaries == UpdatedSummaries(old(db.summaries), db.accounts, db.installments, db.transactions,
                                       existing, period, now, faults.summaryFails)
  {
    WritePatchedRow(db, existing, patch, totals.totalAmount, period);
    var updated := ApplyPatch(existing, patch, totals.totalAmount, period);
    RebuildSchedule(db, patch, updated, totals.installmentAmount, faults.scheduleFails);
    RecalculateMonths(db, existing.userId, AffectedMonths(existing, period), now, faults.summaryFails);
  }

  /** The summary step of a write: the months are recalculated unless there are none or
      the recalculation fails, which the caller swallows. */
  method RecalculateMonths(db: Db, userId: Id, months: seq<Summaries.Period>, now: Instant, fails: bool)
    requires db.Valid()
    modifies db`summaries
    ensures db.Valid()
    ensures db.summaries == (if |months| == 0 || fails then old(db.summaries)
                             else Summaries.RecalcMonths(old(db.summaries), db.accounts, db.installments,
                                                         db.transactions, userId, months, now))
  {
    if |months| > 0 && !fails {
      Summaries.RecalculateSummariesForMonths(db, userId, months, now);
    }
  }

  /** update: look the account up, validate and derive the amounts, write the patched
      row, rebuild the schedule when needed, recalculate the affected months (both
      failures swallowed), and return the view. */
  method Update(db: Db, id: Id, patch: AccountPatch, today: CalendarDate, now: Instant, faults: Faults)
    returns (r: Result<AccountView>)
    requires db.Valid() && AllWellFormed(db.accounts) && ValidPatch(patch) && ValidDate(today)
    modifies db`accounts, db`installments, db`summaries, db`nextId
    ensures db.Valid() && AllWellFormed(db.accounts)
    ensures db.transactions == old(db.transactions) && db.cardItems == old(db.cardItems)
    ensures Find(old(db.accounts), AccountWithId(id)).None? ==> r == Err(NotFound(MissingAccount(id))) && unchanged(db)
    ensures Find(old(db.accounts), AccountWithId(id)).Some? &&
            UpdateAmounts(Find(old(db.accounts), AccountWithId(id)).value, patch).Err? ==>
      r == Err(UpdateAmounts(Find(old(db.accounts), AccountWithId(id)).value, patch).error) && unchanged(db)
    ensures Find(old(db.accounts), AccountWithId(id)).Some? &&
            UpdateAmounts(Find(old(db.accounts), AccountWithId(id)).value, patch).Ok? ==>
      var existing := Find(old(db.accounts), AccountWithId(id)).value;
      var totals := UpdateAmounts(existing, patch).value;
      var period := UpdatePeriod(existing, patch, today);
      var updated := ApplyPatch(existing, patch, totals.totalAmount, period);
      db.accounts == UpdateWhere(old(db.accounts), AccountWithId(id), PatchWith(patch, totals.totalAmount, period)) &&
      db.installments == RebuiltInstallments(old(db.installments), patch, updated, totals.installmentAmount,
                                             old(db.nextId), faults.scheduleFails) &&
      db.nextId == RebuiltCounter(old(db.nextId), patch, updated, totals.installmentAmount, faults.scheduleFails) &&
      db.summaries == UpdatedSummaries(old(db.summaries), db.accounts, db.installments, db.transactions,
                                       existing, period, now, faults.summaryFails) &&
      r == GetByIdFull(db.accounts, db.installments, id, faults.listFails) &&
      r.Ok? && r.value.account == updated
  {
    var found := Find(db.accounts, AccountWithId(id));
    if found.None? {
      return Err(NotFound(MissingAccount(id)));
    }
    var existing := found.value;
    var k :| 0 <= k < |db.accounts| && db.accounts[k] == existing;
    assert WellFormed(existing);
    var totals := UpdateAmounts(existing, patch);
    if totals.Err? {
      return Err(totals.error);
    }
    r := WriteAccepted(db, existing, patch, totals.value, UpdatePeriod(existing, patch, today), now, faults);
  }

  /** An accepted update: the writes, then the view of the updated row. */
  method WriteAccepted(db: Db, existing: Account, patch: AccountPatch, totals: Totals, period: Period,
                       now: Instant, faults: Faults)
    returns (r: Result<AccountView>)
    requires db.Valid() && AllWellFormed(db.accounts) && ValidPatch(patch) && WellFormed(existing)
    requires Find(db.accounts, AccountWithId(existing.id)) == Some(existing)
    modifies db`accounts, db`installments, db`summaries, db`nextId
    ensures db.Valid() && AllWellFormed(db.accounts)
    ensures db.transactions == old(db.transactions) && db.cardItems == old(db.cardItems)
    ensures var updated := ApplyPatch(existing, patch, totals.totalAmount, period);
      db.accounts == UpdateWhere(old(db.accounts), AccountWithId(existing.id), PatchWith(patch, totals.totalAmount, period)) &&
      db.installments == RebuiltInstallments(old(db.installments), patch, updated, totals.installmentAmount,
                                             old(db.nextId), faults.scheduleFails) &&
      db.nextId == RebuiltCounter(old(db.nextId), patch, updated, totals.installmentAmount, faults.scheduleFails) &&
      db.summaries == UpdatedSummaries(old(db.summaries), db.accounts, db.installments, db.transactions,
                                       existing, period, now, faults.summaryFails) &&
      r == GetByIdFull(db.accounts, db.installments, existing.id, faults.listFails) &&
      r.Ok? && r.value.account == updated
  {
    FindUpdated(db.accounts, AccountWithId(existing.id), PatchWith(patch, totals.totalAmount, period));
    WriteUpdate(db, existing, patch, totals, period, now, faults);
    r := GetByIdFull(db.accounts, db.installments, existing.id, faults.listFails);
    ViewOfFound(db.accounts, db.installments, existing.id, faults.listFails,
                ApplyPatch(existing, patch, totals.totalAmount, period));
  }

  // ---------------------------------------------------------------------
  // delete

  /** The ids of the account's installments. */
  function InstallmentIds(installments: seq<Installment>, accountId: Id): set<Id> {
    set i | i in installments && i.accountId == accountId :: i.id
  }

  /** The transactions that survive the cascade: those paying none of the account's
      installments and not linked to the account itself. */
  function Survives(ids: set<Id>, accountId: Id): Transaction -> bool {
    (t: Transaction) => !(t.installmentId.Some? && t.installmentId.value in ids) && t.accountId != Some(accountId)
  }

  function OtherAccount(id: Id): Account -> bool {
    (a: Account) => a.id != id
  }

  /** The months whose summaries a delete recalculates. */
  function DeletedMonths(a: Account): seq<Summaries.Period> {
    if Truthy(a.referenceMonth) && Truthy(a.referenceYear)
    then [Summaries.Period(a.referenceMonth.value, a.referenceYear.value)] else []
  }

  /** Removes the card links of the account, by the card column for a card and by the
      account column otherwise. */
  method DeleteLinks(db: Db, a: Account)
    requires db.Valid()
    modifies db`cardItems
    ensures db.Valid()
    ensures db.cardItems == if a.kind == CreditCard then Filter(old(db.cardItems), CreditCardItems.OffCard(a.id))
                            else Filter(old(db.cardItems), CreditCardItems.NotOfAccount(a.id))
  {
    if a.kind == CreditCard {
      var removed := CreditCardItems.DeleteAllByCreditCard(db, a.id);
    } else {
      var removed := CreditCardItems.DeleteAllByAccount(db, a.id);
    }
  }

  /** The atomic part of the delete: payments of the installments, transactions of the
      account, the installments, the account. */
  method DeleteRows(db: Db, id: Id)
    requires db.Valid()
    modifies db`accounts, db`installments, db`transactions
    ensures db.Valid()
    ensures db.transactions == Filter(old(db.transactions), Survives(InstallmentIds(old(db.installments), id), id))
    ensures db.installments == Filter(old(db.installments), NotInstallmentOf(id))
    ensures db.accounts == Filter(old(db.accounts), OtherAccount(id))
    ensures AllWellFormed(old(db.accounts)) ==> AllWellFormed(db.accounts)
  {
    var ids := InstallmentIds(db.installments, id);
    DeleteRowsKeyed(db.accounts, db.installments, db.transactions, db.nextId, id);
    db.SetTransactions(Filter(db.transactions, Survives(ids, id)));
    db.SetInstallments(Filter(db.installments, NotInstallmentOf(id)));
    db.SetAccounts(Filter(db.accounts, OtherAccount(id)));
  }

  /** The three filtered tables keep their keys below the counter, and the accounts
      left keep their well-formedness. */
  lemma DeleteRowsKeyed(accounts: seq<Account>, installments: seq<Installment>,
                        transactions: seq<Transaction>, bound: nat, id: Id)
    requires KeyedBelow(accounts, AccountKey, bound)
    requires KeyedBelow(installments, InstallmentKey, bound)
    requires KeyedBelow(transactions, TransactionKey, bound)
    ensures KeyedBelow(Filter(accounts, OtherAccount(id)), AccountKey, bound)
    ensures KeyedBelow(Filter(installments, NotInstallmentOf(id)), InstallmentKey, bound)
    ensures KeyedBelow(Filter(transactions, Survives(InstallmentIds(installments, id), id)), TransactionKey, bound)
    ensures AllWellFormed(accounts) ==> AllWellFormed(Filter(accounts, OtherAccount(id)))
  {
    FilterKeyed(transactions, Survives(InstallmentIds(installments, id), id), TransactionKey, bound);
    FilterKeyed(installments, NotInstallmentOf(id), InstallmentKey, bound);
    FilterKeyed(accounts, OtherAccount(id), AccountKey, bound);
    var left := Filter(accounts, OtherAccount(id));
    if AllWellFormed(accounts) {
      forall k | 0 <= k < |left| ensures WellFormed(left[k]) {
        FilterMember(accounts, OtherAccount(id), left[k]);
      }
    }
  }

  /** delete: returns the account it removed. Removing the card links and recalculating
      the account's month may fail without failing the delete. */
  method Delete(db: Db, id: Id, now: Instant, faults: Faults) returns (r: Result<Account>)
    requires db.Valid()
    modifies db`accounts, db`installments, db`transactions, db`summaries, db`cardItems
    ensures db.Valid()
    ensures AllWellFormed(old(db.accounts)) ==> AllWellFormed(db.accounts)
    ensures Find(old(db.accounts), AccountWithId(id)).None? ==> r == Err(NotFound(MissingAccount(id))) && unchanged(db)
    ensures Find(old(db.accounts), AccountWithId(id)).Some? ==>
      var a := Find(old(db.accounts), AccountWithId(id)).value;
      r == Ok(a) &&
      db.cardItems == (if faults.linksFail then old(db.cardItems)
                       else if a.kind == CreditCard then Filter(old(db.cardItems), CreditCardItems.OffCard(id))
                       else Filter(old(db.cardItems), CreditCardItems.NotOfAccount(id))) &&
      db.transactions == Filter(old(db.transactions), Survives(InstallmentIds(old(db.installments), id), id)) &&
      db.installments == Filter(old(db.installments), NotInstallmentOf(id)) &&
      db.accounts == Filter(old(db.accounts), OtherAccount(id)) &&
      db.summaries == (if |DeletedMonths(a)| == 0 || faults.summaryFails then old(db.summaries)
                       else Summaries.RecalcMonths(old(db.summaries), db.accounts, db.installments, db.transactions,
                                                   a.userId, DeletedMonths(a), now))
  {
    var found := Find(db.accounts, AccountWithId(id));
    if found.None? {
      return Err(NotFound(MissingAccount(id)));
    }
    DeleteFound(db, found.value, now, faults);
    r := Ok(found.value);
  }

  /** The cascade of `Delete` once the account row `a` has been found. */
  method DeleteFound(db: Db, a: Account, now: Instant, faults: Faults)
    requires db.Valid()
    modifies db`accounts, db`installments, db`transactions, db`summaries, db`cardItems
    ensures db.Valid()
    ensures AllWellFormed(old(db.accounts)) ==> AllWellFormed(db.accounts)
    ensures db.cardItems == (if faults.linksFail then old(db.cardItems)
                             else if a.kind == CreditCard then Filter(old(db.cardItems), CreditCardItems.OffCard(a.id))
                             else Filter(old(db.cardItems), CreditCardItems.NotOfAccount(a.id)))
    ensures db.transactions == Filter(old(db.transactions), Survives(InstallmentIds(old(db.installments), a.id), a.id))
    ensures db.installments == Filter(old(db.installments), NotInstallmentOf(a.id))
    ensures db.accounts == Filter(old(db.accounts), OtherAccount(a.id))
    ensures db.summaries == (if |DeletedMonths(a)| == 0 || faults.summaryFails then old(db.summaries)
                             else Summaries.RecalcMonths(old(db.summaries), db.accounts, db.installments, db.transactions,
                                                         a.userId, DeletedMonths(a), now))
  {
    if !faults.linksFail {
      DeleteLinks(db, a);
    }
    DeleteRows(db, a.id);
    RecalculateMonths(db, a.userId, DeletedMonths(a), now, faults.summaryFails);
  }

  /** After the cascade no row refers to the deleted account through its own id: no
      account has the deleted id, its installments are gone, and so is every transaction
      linked to it or paying one of its installments; every other row is kept. A surviving
      account may still carry a deleted card's id in `creditCardId`. */
  lemma DeleteLeavesNoDanglingRows(accounts: seq<Account>, installments: seq<Installment>,
                                   transactions: seq<Transaction>, id: Id)
    ensures forall a :: a in Filter(accounts, OtherAccount(id)) <==> a in accounts && a.id != id
    ensures forall i :: i in Filter(installments, NotInstallmentOf(id)) <==> i in installments && i.accountId != id
    ensures forall t :: t in Filter(transactions, Survives(InstallmentIds(installments, id), id)) <==>
      t in transactions && t.accountId != Some(id) &&
      !(t.installmentId.Some? && exists i :: i in installments && i.accountId == id && i.id == t.installmentId.value)
  {
    forall a ensures a in Filter(accounts, OtherAccount(id)) <==> a in accounts && a.id != id {
      FilterMember(accounts, OtherAccount(id), a);
    }
    forall i ensures i in Filter(installments, NotInstallmentOf(id)) <==> i in installments && i.accountId != id {
      FilterMember(installments, NotInstallmentOf(id), i);
    }
    var ids := InstallmentIds(installments, id);
    forall t ensures t in Filter(transactions, Survives(ids, id)) <==>
      t in transactions && t.accountId != Some(id) &&
      !(t.installmentId.Some? && exists i :: i in installments && i.accountId == id && i.id == t.installmentId.value)
    {
      FilterMember(transactions, Survives(ids, id), t);
      if t.installmentId.Some? && t.installmentId.value in ids {
        var i :| i in installments && i.accountId == id && i.id == t.installmentId.value;
      }
    }
  }

  // ---------------------------------------------------------------------
  // markAsPaidFull

  datatype MarkPaidResult = MarkPaidResult(account: Account, transaction: Option<Transaction>)

  function Settle(a: Account): Account { a.(isPaid := true, isPreview := false) }

  /** What `markAsPaidFull` checks before writing: the account exists, belongs to the
      user, is unpaid, and the payment (the total when none is given) covers the total. */
  function MarkPaidCheck(accounts: seq<Account>, accountId: Id, userId: Id, paymentAmount: Option<int>): (r: Result<Account>)
    ensures r.Ok? <==> (Find(accounts, AccountWithId(accountId)).Some? &&
      var a := Find(accounts, AccountWithId(accountId)).value;
      a.userId == userId && !a.isPaid && OrElse(paymentAmount, OrElse(a.totalAmount, 0)) >= OrElse(a.totalAmount, 0))
    ensures r.Ok? ==> r.value in accounts && r.value.id == accountId && Some(r.value) == Find(accounts, AccountWithId(accountId))
    ensures Find(accounts, AccountWithId(accountId)).None? ==> r == Err(NotFound(MissingAccount(accountId)))
    ensures Find(accounts, AccountWithId(accountId)).Some? && Find(accounts, AccountWithId(accountId)).value.userId != userId ==>
      r == Err(NotFound(NotOwned(accountId, userId)))
  {
    match Find(accounts, AccountWithId(accountId))
    case None => Err(NotFound(MissingAccount(accountId)))
    case Some(a) =>
      var total := OrElse(a.totalAmount, 0);
      if a.userId != userId then Err(NotFound(NotOwned(accountId, userId)))
      else if a.isPaid then Err(BadRequest(AlreadyPaid))
      else if OrElse(paymentAmount, total) < total then Err(BadRequest(Underpaid))
      else Ok(a)
  }

  /** Marks the account paid and no longer a preview. */
  method SettleAccount(db: Db, accountId: Id, a: Account)
    requires db.Valid()
    requires Find(db.accounts, AccountWithId(accountId)) == Some(a)
    modifies db`accounts
    ensures db.Valid()
    ensures AllWellFormed(old(db.accounts)) ==> AllWellFormed(db.accounts)
    ensures db.accounts == UpdateWhere(old(db.accounts), AccountWithId(accountId), Settle)
    ensures Find(db.accounts, AccountWithId(accountId)) == Some(Settle(a))
  {
    UpdateKeyed(db.accounts, AccountWithId(accountId), Settle, AccountKey, db.nextId);
    FindUpdated(db.accounts, AccountWithId(accountId), Settle);
    SettledStayWellFormed(db.accounts, accountId);
    db.SetAccounts(UpdateWhere(db.accounts, AccountWithId(accountId), Settle));
  }

  lemma SettledStayWellFormed(accounts: seq<Account>, id: Id)
    ensures AllWellFormed(accounts) ==> AllWellFormed(UpdateWhere(accounts, AccountWithId(id), Settle))
  {
    var after := UpdateWhere(accounts, AccountWithId(id), Settle);
    if AllWellFormed(accounts) {
      forall k | 0 <= k < |after| ensures WellFormed(after[k]) {
        assert WellFormed(accounts[k]);
      }
    }
  }

  /** Records the payment of the settled account; a failure leaves no transaction. */
  method RecordPayment(db: Db, accountId: Id, userId: Id, amount: int, settled: Account, fails: bool)
    returns (t: Option<Transaction>)
    requires db.Valid()
    requires Find(db.accounts, AccountWithId(accountId)) == Some(settled)
    modifies db`transactions, db`nextId
    ensures db.Valid()
    ensures var payment := Transactions.RowOf(Transactions.AccountPayment(settled, userId, amount), old(db.nextId));
      db.transactions == old(db.transactions) + (if fails then [] else [payment]) &&
      db.nextId == old(db.nextId) + (if fails then 0 else 1) &&
      t == (if fails then None else Some(payment))
  {
    t := None;
    if !fails {
      var created := Transactions.CreateAccountPayment(db, accountId, userId, amount);
      t := Some(created.value);
    }
  }

  /** markAsPaidFull: settle the installments (failure swallowed), mark the account paid
      and no longer a preview, and record the payment against the settled row (failure
      swallowed, leaving no transaction). */
  method MarkAsPaidFull(db: Db, accountId: Id, userId: Id, paymentAmount: Option<int>, now: Instant, faults: Faults)
    returns (r: Result<MarkPaidResult>)
    requires db.Valid()
    modifies db`accounts, db`installments, db`transactions, db`nextId
    ensures db.Valid()
    ensures AllWellFormed(old(db.accounts)) ==> AllWellFormed(db.accounts)
    ensures MarkPaidCheck(old(db.accounts), accountId, userId, paymentAmount).Err? ==>
      r == Err(MarkPaidCheck(old(db.accounts), accountId, userId, paymentAmount).error) && unchanged(db)
    ensures MarkPaidCheck(old(db.accounts), accountId, userId, paymentAmount).Ok? ==>
      var a := MarkPaidCheck(old(db.accounts), accountId, userId, paymentAmount).value;
      var payment := Transactions.RowOf(Transactions.AccountPayment(Settle(a), userId, OrElse(paymentAmount, OrElse(a.totalAmount, 0))),
                                        old(db.nextId));
      db.installments == (if Truthy(a.installments) && !faults.installmentsFail
                          then UpdateWhere(old(db.installments), UnpaidOf(accountId), Transactions.MarkPaidAt(now))
                          else old(db.installments)) &&
      db.accounts == UpdateWhere(old(db.accounts), AccountWithId(accountId), Settle) &&
      db.transactions == old(db.transactions) + (if faults.paymentFails then [] else [payment]) &&
      db.nextId == old(db.nextId) + (if faults.paymentFails then 0 else 1) &&
      r == Ok(MarkPaidResult(Settle(a), if faults.paymentFails then None else Some(payment)))
  {
    var checked := MarkPaidCheck(db.accounts, accountId, userId, paymentAmount);
    if checked.Err? {
      return Err(checked.error);
    }
    var a := checked.value;
    var payment := OrElse(paymentAmount, OrElse(a.totalAmount, 0));
    if Truthy(a.installments) && !faults.installmentsFail {
      Installments.MarkAllUnpaidAsPaid(db, accountId, now);
    }
    SettleAccount(db, accountId, a);
    var transaction := RecordPayment(db, accountId, userId, payment, Settle(a), faults.paymentFails);
    r := Ok(MarkPaidResult(Settle(a), transaction));
  }

  // ---------------------------------------------------------------------
  // associateAccountToCreditCardFull / disassociateAccountFromCreditCardFull

  /** `{ creditCardId }` */
  function LinkPatch(creditCardId: Id): AccountPatch {
    EmptyPatch().(creditCardId := Some(Some(creditCardId)))
  }

  /** `{ creditCardId: null }`, the patch that clears the column. */
  function ClearPatch(): AccountPatch {
    EmptyPatch().(creditCardId := Some(None))
  }

  /** associateAccountToCreditCardFull: the account must exist and belong to the user;
      the link is written, then the account row is updated with the card id through
      `update`. A failing `update` fails the association after the link is stored, and
      it always fails for a LOAN account, whose patch carries no installment amount. */
  method AssociateAccountToCreditCardFull(db: Db, userId: Id, creditCardId: Id, accountId: Id,
                                          today: CalendarDate, now: Instant, faults: Faults)
    returns (r: Result<CardLink>)
    requires db.Valid() && AllWellFormed(db.accounts) && ValidDate(today)
    modifies db`accounts, db`installments, db`summaries, db`nextId, db`cardItems
    ensures db.Valid() && AllWellFormed(db.accounts)
    ensures db.transactions == old(db.transactions)
    ensures Find(old(db.accounts), AccountWithId(accountId)).None? ==>
      r == Err(NotFound(MissingAccount(accountId))) && unchanged(db)
    ensures Find(old(db.accounts), AccountWithId(accountId)).Some? &&
            Find(old(db.accounts), AccountWithId(accountId)).value.userId != userId ==>
      r == Err(NotFound(NotOwned(accountId, userId))) && unchanged(db)
    ensures Find(old(db.accounts), AccountWithId(accountId)).Some? &&
            Find(old(db.accounts), AccountWithId(accountId)).value.userId == userId &&
            CreditCardItems.LinkCheck(old(db.accounts), old(db.cardItems), creditCardId, accountId).Err? ==>
      r == Err(CreditCardItems.LinkCheck(old(db.accounts), old(db.cardItems), creditCardId, accountId).error) &&
      unchanged(db)
    ensures Find(old(db.accounts), AccountWithId(accountId)).Some? &&
            Find(old(db.accounts), AccountWithId(accountId)).value.userId == userId &&
            CreditCardItems.LinkCheck(old(db.accounts), old(db.cardItems), creditCardId, accountId).Ok? ==>
      var existing := Find(old(db.accounts), AccountWithId(accountId)).value;
      db.cardItems == old(db.cardItems) + [CardLink(creditCardId, accountId)] &&
      (r.Ok? <==> UpdateAmounts(existing, LinkPatch(creditCardId)).Ok?) &&
      (r.Err? ==> r.error == UpdateAmounts(existing, LinkPatch(creditCardId)).error &&
                  db.accounts == old(db.accounts) && db.installments == old(db.installments) &&
                  db.summaries == old(db.summaries) && db.nextId == old(db.nextId)) &&
      (existing.kind == Loan ==> r == Err(BadRequest(LoanNeedsAllAmounts))) &&
      (r.Ok? ==> r.value == CardLink(creditCardId, accountId) &&
                 Find(db.accounts, AccountWithId(accountId)).Some? &&
                 Find(db.accounts, AccountWithId(accountId)).value.creditCardId == Some(creditCardId)) &&
      (r.Ok? ==> var totals := UpdateAmounts(existing, LinkPatch(creditCardId)).value;
                 var period := UpdatePeriod(existing, LinkPatch(creditCardId), today);
                 db.accounts == UpdateWhere(old(db.accounts), AccountWithId(accountId),
                                            PatchWith(LinkPatch(creditCardId), totals.totalAmount, period)) &&
                 db.installments == old(db.installments) && db.nextId == old(db.nextId) &&
                 db.summaries == UpdatedSummaries(old(db.summaries), db.accounts, db.installments, db.transactions,
                                                  existing, period, now, faults.summaryFails))
  {
    var found := Find(db.accounts, AccountWithId(accountId));
    if found.None? {
      return Err(NotFound(MissingAccount(accountId)));
    }
    if found.value.userId != userId {
      return Err(NotFound(NotOwned(accountId, userId)));
    }
    var link := CreditCardItems.LinkAccountToCreditCard(db, creditCardId, accountId);
    if link.Err? {
      return Err(link.error);
    }
    var updated := Update(db, accountId, LinkPatch(creditCardId), today, now, faults);
    if updated.Err? {
      return Err(updated.error);
    }
    // recalculateCreditCardInstallments has no effect
    r := Ok(CardLink(creditCardId, accountId));
  }

  /** The shared body of the disassociation: the account must exist and carry the card
      id, the link must exist and is removed, then `update` runs with `patch`. On
      success the stored card id is what the patch leaves there. */
  method Disassociate(db: Db, creditCardId: Id, accountId: Id, patch: AccountPatch,
                      today: CalendarDate, now: Instant, faults: Faults)
    returns (r: Result<()>)
    requires db.Valid() && AllWellFormed(db.accounts) && ValidPatch(patch) && ValidDate(today)
    modifies db`accounts, db`installments, db`summaries, db`nextId, db`cardItems
    ensures db.Valid() && AllWellFormed(db.accounts)
    ensures db.transactions == old(db.transactions)
    ensures Find(old(db.accounts), AccountWithId(accountId)).None? ==>
      r == Err(NotFound(MissingAccount(accountId))) && unchanged(db)
    ensures Find(old(db.accounts), AccountWithId(accountId)).Some? &&
            Find(old(db.accounts), AccountWithId(accountId)).value.creditCardId != Some(creditCardId) ==>
      r == Err(NotFound(NotAssociated(accountId, creditCardId))) && unchanged(db)
    ensures Find(old(db.accounts), AccountWithId(accountId)).Some? &&
            Find(old(db.accounts), AccountWithId(accountId)).value.creditCardId == Some(creditCardId) &&
            CardLink(creditCardId, accountId) !in old(db.cardItems) ==>
      r == Err(NotFound(CreditCardItems.NotLinked(creditCardId, accountId))) && unchanged(db)
    ensures Find(old(db.accounts), AccountWithId(accountId)).Some? &&
            Find(old(db.accounts), AccountWithId(accountId)).value.creditCardId == Some(creditCardId) &&
            CardLink(creditCardId, accountId) in old(db.cardItems) ==>
      var existing := Find(old(db.accounts), AccountWithId(accountId)).value;
      db.cardItems == Filter(old(db.cardItems), CreditCardItems.OtherThanPair(creditCardId, accountId)) &&
      (r.Ok? <==> UpdateAmounts(existing, patch).Ok?) &&
      (r.Err? ==> r.error == UpdateAmounts(existing, patch).error &&
                  db.accounts == old(db.accounts) && db.installments == old(db.installments) &&
                  db.summaries == old(db.summaries) && db.nextId == old(db.nextId)) &&
      (r.Ok? ==> Find(db.accounts, AccountWithId(accountId)).Some? &&
                 Find(db.accounts, AccountWithId(accountId)).value.creditCardId == OrElse(patch.creditCardId, Some(creditCardId))) &&
      (r.Ok? ==> var totals := UpdateAmounts(existing, patch).value;
                 var period := UpdatePeriod(existing, patch, today);
                 var updated := ApplyPatch(existing, patch, totals.totalAmount, period);
                 db.accounts == UpdateWhere(old(db.accounts), AccountWithId(accountId),
                                            PatchWith(patch, totals.totalAmount, period)) &&
                 db.installments == RebuiltInstallments(old(db.installments), patch, updated,
                                                        totals.installmentAmount, old(db.nextId), faults.scheduleFails) &&
                 db.nextId == RebuiltCounter(old(db.nextId), patch, updated, totals.installmentAmount,
                                             faults.scheduleFails) &&
                 db.summaries == UpdatedSummaries(old(db.summaries), db.accounts, db.installments, db.transactions,
                                                  existing, period, now, faults.summaryFails))
  {
    var found := Find(db.accounts, AccountWithId(accountId));
    if found.None? {
      return Err(NotFound(MissingAccount(accountId)));
    }
    if found.value.creditCardId != Some(creditCardId) {
      return Err(NotFound(NotAssociated(accountId, creditCardId)));
    }
    var unlinked := CreditCardItems.UnlinkAccountFromCreditCard(db, creditCardId, accountId);
    if unlinked.Err? {
      return Err(unlinked.error);
    }
    var updated := Update(db, accountId, patch, today, now, faults);
    if updated.Err? {
      return Err(updated.error);
    }
    // recalculateCreditCardInstallments has no effect
    r := Ok(());
  }

  /** disassociateAccountFromCreditCardFull as written: the patch `{ creditCardId:
      undefined }` sets no field, so a successful disassociation removes the link but
      leaves the card id on the account row. */
  method DisassociateAccountFromCreditCardFull(db: Db, creditCardId: Id, accountId: Id,
                                               today: CalendarDate, now: Instant, faults: Faults)
    returns (r: Result<()>)
    requires db.Valid() && AllWellFormed(db.accounts) && ValidDate(today)
    modifies db`accounts, db`installments, db`summaries, db`nextId, db`cardItems
    ensures db.Valid() && AllWellFormed(db.accounts)
    ensures db.transactions == old(db.transactions)
    ensures Find(old(db.accounts), AccountWithId(accountId)).None? ==>
      r == Err(NotFound(MissingAccount(accountId))) && unchanged(db)
    ensures Find(old(db.accounts), AccountWithId(accountId)).Some? &&
            Find(old(db.accounts), AccountWithId(accountId)).value.creditCardId != Some(creditCardId) ==>
      r == Err(NotFound(NotAssociated(accountId, creditCardId))) && unchanged(db)
    ensures Find(old(db.accounts), AccountWithId(accountId)).Some? &&
            Find(old(db.accounts), AccountWithId(accountId)).value.creditCardId == Some(creditCardId) &&
            CardLink(creditCardId, accountId) !in old(db.cardItems) ==>
      r == Err(NotFound(CreditCardItems.NotLinked(creditCardId, accountId))) && unchanged(db)
    ensures Find(old(db.accounts), AccountWithId(accountId)).Some? &&
            Find(old(db.accounts), AccountWithId(accountId)).value.creditCardId == Some(creditCardId) &&
            CardLink(creditCardId, accountId) in old(db.cardItems) ==>
      db.cardItems == Filter(old(db.cardItems), CreditCardItems.OtherThanPair(creditCardId, accountId)) &&
      (Find(old(db.accounts), AccountWithId(accountId)).value.kind == Loan ==>
         r == Err(BadRequest(LoanNeedsAllAmounts)) &&
         db.accounts == old(db.accounts) && db.installments == old(db.installments) &&
         db.summaries == old(db.summaries) && db.nextId == old(db.nextId)) &&
      (Find(old(db.accounts), AccountWithId(accountId)).value.kind != Loan ==>
         r.Ok? && Find(db.accounts, AccountWithId(accountId)).Some? &&
         Find(db.accounts, AccountWithId(accountId)).value.creditCardId == Some(creditCardId) &&
         var existing := Find(old(db.accounts), AccountWithId(accountId)).value;
         db.accounts == UpdateWhere(old(db.accounts), AccountWithId(accountId),
                                    PatchWith(EmptyPatch(), UpdateAmounts(existing, EmptyPatch()).value.totalAmount,
                                              UpdatePeriod(existing, EmptyPatch(), today))) &&
         db.installments == old(db.installments) && db.nextId == old(db.nextId) &&
         db.summaries == UpdatedSummaries(old(db.summaries), db.accounts, db.installments, db.transactions,
                                          existing, UpdatePeriod(existing, EmptyPatch(), today), now, faults.summaryFails))
  {
    r := Disassociate(db, creditCardId, accountId, EmptyPatch(), today, now, faults);
  }

  /** The disassociation with the patch `{ creditCardId: null }`: a successful call
      removes the link and clears the card id on the row. */
  method DisassociateAccountFromCreditCardCorrected(db: Db, creditCardId: Id, accountId: Id,
                                                    today: CalendarDate, now: Instant, faults: Faults)
    returns (r: Result<()>)
    requires db.Valid() && AllWellFormed(db.accounts) && ValidDate(today)
    modifies db`accounts, db`installments, db`summaries, db`nextId, db`cardItems
    ensures db.Valid() && AllWellFormed(db.accounts)
    ensures db.transactions == old(db.transactions)
    ensures Find(old(db.accounts), AccountWithId(accountId)).None? ==>
      r == Err(NotFound(MissingAccount(accountId))) && unchanged(db)
    ensures Find(old(db.accounts), AccountWithId(accountId)).Some? &&
            Find(old(db.accounts), AccountWithId(accountId)).value.creditCardId != Some(creditCardId) ==>
      r == Err(NotFound(NotAssociated(accountId, creditCardId))) && unchanged(db)
    ensures Find(old(db.accounts), AccountWithId(accountId)).Some? &&
            Find(old(db.accounts), AccountWithId(accountId)).value.creditCardId == Some(creditCardId) &&
            CardLink(creditCardId, accountId) !in old(db.cardItems) ==>
      r == Err(NotFound(CreditCardItems.NotLinked(creditCardId, accountId))) && unchanged(db)
    ensures Find(old(db.accounts), AccountWithId(accountId)).Some? &&
            Find(old(db.accounts), AccountWithId(accountId)).value.creditCardId == Some(creditCardId) &&
            CardLink(creditCardId, accountId) in old(db.cardItems) ==>
      db.cardItems == Filter(old(db.cardItems), CreditCardItems.OtherThanPair(creditCardId, accountId)) &&
      (Find(old(db.accounts), AccountWithId(accountId)).value.kind == Loan ==>
         r == Err(BadRequest(LoanNeedsAllAmounts)) &&
         db.accounts == old(db.accounts) && db.installments == old(db.installments) &&
         db.summaries == old(db.summaries) && db.nextId == old(db.nextId)) &&
      (Find(old(db.accounts), AccountWithId(accountId)).value.kind != Loan ==>
         r.Ok? && Find(db.accounts, AccountWithId(accountId)).Some? &&
         Find(db.accounts, AccountWithId(accountId)).value.creditCardId.None? &&
         var existing := Find(old(db.accounts), AccountWithId(accountId)).value;
         db.accounts == UpdateWhere(old(db.accounts), AccountWithId(accountId),
                                    PatchWith(ClearPatch(), UpdateAmounts(existing, ClearPatch()).value.totalAmount,
                                              UpdatePeriod(existing, ClearPatch(), today))) &&
         db.installments == old(db.installments) && db.nextId == old(db.nextId) &&
         db.summaries == UpdatedSummaries(old(db.summaries), db.accounts, db.installments, db.transactions,
                                          existing, UpdatePeriod(existing, ClearPatch(), today), now, faults.summaryFails))
  {
    r := Disassociate(db, creditCardId, accountId, ClearPatch(), today, now, faults);
  }

  /** The discrepancy on one row: with the empty patch the disassociated account keeps
      its card id; with the clearing patch it has none. */
  lemma DisassociationKeepsCardId(a: Account, creditCardId: Id, today: CalendarDate)
    requires WellFormed(a) && ValidDate(today) && a.kind != Loan && a.creditCardId == Some(creditCardId)
    ensures UpdateAmounts(a, EmptyPatch()).Ok? && UpdateAmounts(a, ClearPatch()).Ok?
    ensures ApplyPatch(a, EmptyPatch(), UpdateAmounts(a, EmptyPatch()).value.totalAmount,
                       UpdatePeriod(a, EmptyPatch(), today)).creditCardId == Some(creditCardId)
    ensures ApplyPatch(a, ClearPatch(), UpdateAmounts(a, ClearPatch()).value.totalAmount,
                       UpdatePeriod(a, ClearPatch(), today)).creditCardId.None?
  {
  }
}
