// The rows of the finance database: accounts (bills, loans, credit cards),
// the installments generated for them, money transactions, the per-user
// monthly summaries and the links between a credit card and the accounts
// charged to it.
module Entities {
  import opened Common
  import opened Calendar

  datatype AccountType =
    | Fixed | Loan | CreditCard | DebitCard | Subscription | Insurance
    | Tax | Pension | Education | Health | Other

  datatype Account = Account(
    id: Id,
    userId: Id,
    name: string,
    kind: AccountType,
    isPaid: bool,
    isPreview: bool,
    totalAmount: Option<int>,    // integer money; some services scale it by 100 to compare with cents
    installments: Option<int>,   // number of installments
    startDate: CalendarDate,
    dueDay: int,
    referenceMonth: Option<int>,
    referenceYear: Option<int>,
    creditLimit: Option<int>,
    creditCardId: Option<Id>)

  datatype Installment = Installment(
    id: Id,
    accountId: Id,
    number: int,                 // 1-based position in the schedule
    dueDate: CalendarDate,       // stored at 00:00 UTC
    amount: int,                 // cents
    isPaid: bool,
    paidAt: Option<Instant>,
    referenceMonth: int,
    referenceYear: int)

  datatype TransactionType = Income | Expense

  datatype Transaction = Transaction(
    id: Id,
    userId: Id,
    kind: TransactionType,
    category: Option<string>,
    description: string,
    value: int,                  // cents
    date: Instant,
    accountId: Option<Id>,
    installmentId: Option<Id>)

  datatype SummaryStatus = Excellent | Good | Warning | Critical

  datatype MonthlySummary = MonthlySummary(
    userId: Id,
    referenceMonth: int,
    referenceYear: int,
    totalIncome: int,
    totalExpenses: int,
    totalBalance: int,
    billsToPay: int,
    billsCount: int,
    status: SummaryStatus,
    lastCalculatedAt: Instant)

  /** A credit-card item: the account `accountId` is charged to the card `creditCardId`. */
  datatype CardLink = CardLink(creditCardId: Id, accountId: Id)

  function AccountKey(a: Account): nat { a.id }
  function InstallmentKey(i: Installment): nat { i.id }
  function TransactionKey(t: Transaction): nat { t.id }

  /** The enum value Prisma stores for an account type. */
  function AccountTypeKey(t: AccountType): string {
    match t
    case Fixed => "FIXED"
    case Loan => "LOAN"
    case CreditCard => "CREDIT_CARD"
    case DebitCard => "DEBIT_CARD"
    case Subscription => "SUBSCRIPTION"
    case Insurance => "INSURANCE"
    case Tax => "TAX"
    case Pension => "PENSION"
    case Education => "EDUCATION"
    case Health => "HEALTH"
    case Other => "OTHER"
  }

  // Row selectors: the `where` clauses the services query with.

  function AccountWithId(id: Id): Account -> bool {
    (a: Account) => a.id == id
  }

  function InstallmentWithId(id: Id): Installment -> bool {
    (i: Installment) => i.id == id
  }

  function TransactionWithId(id: Id): Transaction -> bool {
    (t: Transaction) => t.id == id
  }

  /** `where: { accountId }` on installments. */
  function InstallmentsOf(accountId: Id): Installment -> bool {
    (i: Installment) => i.accountId == accountId
  }

  /** `where: { accountId, isPaid: false }` on installments. */
  function UnpaidOf(accountId: Id): Installment -> bool {
    (i: Installment) => i.accountId == accountId && !i.isPaid
  }

  /** The unique key of the monthly summary table. */
  predicate SameSummaryKey(s: MonthlySummary, userId: Id, year: int, month: int) {
    s.userId == userId && s.referenceYear == year && s.referenceMonth == month
  }

  predicate SummaryKeysUnique(s: seq<MonthlySummary>) {
    forall i, j :: 0 <= i < j < |s| ==>
      !SameSummaryKey(s[j], s[i].userId, s[i].referenceYear, s[i].referenceMonth)
  }

  predicate LinksUnique(s: seq<CardLink>) {
    forall i, j :: 0 <= i < j < |s| ==> s[i] != s[j]
  }
}
