// The monthly summary service: one row per (user, year, month) holding the
// month's income, expenses, balance, the unpaid installments falling due in
// the month and a health status derived from balance and bills.
module MonthlySummaries {
  import opened Common
  import opened Calendar
  import opened Entities
  import opened Store

  /** A balance down to minus R$ 500,00 is a warning; below that it is critical. */
  const WarningFloor: int := -50000

  /** calculateStatus. Note the fall-through: a non-negative balance with a
      negative amount of bills to pay is neither EXCELLENT nor GOOD. */
  function CalculateStatus(totalBalance: int, billsToPay: int): (r: SummaryStatus)
    ensures r == Excellent <==> totalBalance >= 0 && billsToPay == 0
    ensures r == Good <==> totalBalance >= 0 && billsToPay > 0
    ensures r == Warning <==> WarningFloor <= totalBalance < 0
    ensures r == Critical <==> totalBalance < WarningFloor || (totalBalance >= 0 && billsToPay < 0)
  {
    if totalBalance >= 0 && billsToPay == 0 then Excellent
    else if totalBalance >= 0 && billsToPay > 0 then Good
    else if totalBalance < 0 && totalBalance >= WarningFloor then Warning
    else Critical
  }

  /** How bad a status is, EXCELLENT being the best. */
  function Severity(s: SummaryStatus): nat {
    match s
    case Excellent => 0
    case Good => 1
    case Warning => 2
    case Critical => 3
  }

  /** With bills that are not negative, a lower balance never gives a better status. */
  lemma StatusMonotoneInBalance(lower: int, higher: int, billsToPay: int)
    requires lower <= higher && billsToPay >= 0
    ensures Severity(CalculateStatus(lower, billsToPay)) >= Severity(CalculateStatus(higher, billsToPay))
  {
  }

  /** Once the balance is negative the bills no longer matter. */
  lemma NegativeBalanceIgnoresBills(totalBalance: int, bills: int, otherBills: int)
    requires totalBalance < 0
    ensures CalculateStatus(totalBalance, bills) == CalculateStatus(totalBalance, otherBills)
  {
  }

  lemma StatusBoundaries()
    ensures CalculateStatus(0, 0) == Excellent
    ensures CalculateStatus(0, 1) == Good
    ensures CalculateStatus(-1, 0) == Warning
    ensures CalculateStatus(-50000, 7) == Warning
    ensures CalculateStatus(-50001, 0) == Critical
    ensures CalculateStatus(10, -1) == Critical
  {
  }

  // ---------------------------------------------------------------------
  // upsertMonthlySummary

  datatype SummaryInput = SummaryInput(
    userId: Id,
    referenceMonth: int,
    referenceYear: int,
    totalIncome: int,
    totalExpenses: int,
    billsToPay: int,
    billsCount: int)

  /** The row `upsertMonthlySummary` writes for `input` at time `now`. */
  function SummaryRow(input: SummaryInput, now: Instant): (r: MonthlySummary)
    ensures SameSummaryKey(r, input.userId, input.referenceYear, input.referenceMonth)
    ensures r.totalBalance == input.totalIncome - input.totalExpenses
    ensures r.status == CalculateStatus(r.totalBalance, input.billsToPay)
    ensures r.lastCalculatedAt == now
  {
    var balance := input.totalIncome - input.totalExpenses;
    MonthlySummary(input.userId, input.referenceMonth, input.referenceYear,
      input.totalIncome, input.totalExpenses, balance, input.billsToPay,
      input.billsCount, CalculateStatus(balance, input.billsToPay), now)
  }

  function KeyOf(input: SummaryInput): MonthlySummary -> bool {
    (s: MonthlySummary) => SameSummaryKey(s, input.userId, input.referenceYear, input.referenceMonth)
  }

  /** The table after the upsert: the row with the input's key is replaced, or appended when absent. */
  function Upsert(rows: seq<MonthlySummary>, input: SummaryInput, now: Instant): (r: seq<MonthlySummary>)
    ensures |rows| <= |r| <= |rows| + 1
    ensures SummaryRow(input, now) in r
    ensures forall j :: 0 <= j < |r| && KeyOf(input)(r[j]) ==> r[j] == SummaryRow(input, now)
    ensures forall k :: 0 <= k < |rows| && !KeyOf(input)(rows[k]) ==> r[k] == rows[k]
  {
    var row := SummaryRow(input, now);
    if exists i :: 0 <= i < |rows| && KeyOf(input)(rows[i]) then
      UpdateWhere(rows, KeyOf(input), _ => row)
    else
      rows + [row]
  }

  /** In a table with unique keys, a row holding the key is the only one. */
  lemma OnlyRowWithKey(rows: seq<MonthlySummary>, input: SummaryInput, i: int)
    requires SummaryKeysUnique(rows) && 0 <= i < |rows| && KeyOf(input)(rows[i])
    ensures forall j :: 0 <= j < |rows| && j != i ==> !KeyOf(input)(rows[j])
  {
    forall j | 0 <= j < |rows| && j != i ensures !KeyOf(input)(rows[j]) {
      if j < i {
        assert !SameSummaryKey(rows[i], rows[j].userId, rows[j].referenceYear, rows[j].referenceMonth);
      } else {
        assert !SameSummaryKey(rows[j], rows[i].userId, rows[i].referenceYear, rows[i].referenceMonth);
      }
    }
  }

  lemma UpsertKeepsKeysUnique(rows: seq<MonthlySummary>, input: SummaryInput, now: Instant)
    requires SummaryKeysUnique(rows)
    ensures SummaryKeysUnique(Upsert(rows, input, now))
  {
    var r := Upsert(rows, input, now);
    var row := SummaryRow(input, now);
    if exists i :: 0 <= i < |rows| && KeyOf(input)(rows[i]) {
      forall j | 0 <= j < |rows|
        ensures (r[j].userId, r[j].referenceYear, r[j].referenceMonth) == (rows[j].userId, rows[j].referenceYear, rows[j].referenceMonth)
      {
      }
    } else {
      assert r == rows + [row];
    }
  }

  /** After the upsert the key has exactly one row, and it holds the input's figures. */
  lemma UpsertStores(rows: seq<MonthlySummary>, input: SummaryInput, now: Instant)
    requires SummaryKeysUnique(rows)
    ensures SummaryKeysUnique(Upsert(rows, input, now))
    ensures Find(Upsert(rows, input, now), KeyOf(input)) == Some(SummaryRow(input, now))
    ensures CountWhere(Upsert(rows, input, now), KeyOf(input)) == 1
  {
    UpsertKeepsKeysUnique(rows, input, now);
    var r := Upsert(rows, input, now);
    var key := KeyOf(input);
    if exists i :: 0 <= i < |rows| && key(rows[i]) {
      var i :| 0 <= i < |rows| && key(rows[i]);
      OnlyRowWithKey(rows, input, i);
      assert r[i] == SummaryRow(input, now);
      CountSingle(r, key, i);
      FindSingle(r, key, i);
    } else {
      CountSingle(r, key, |rows|);
      FindSingle(r, key, |rows|);
    }
  }

  /** Rows with any other key are left as they were. */
  lemma UpsertKeepsOthers(rows: seq<MonthlySummary>, input: SummaryInput, now: Instant, k: int)
    requires 0 <= k < |rows| && !KeyOf(input)(rows[k])
    ensures k < |Upsert(rows, input, now)| && Upsert(rows, input, now)[k] == rows[k]
  {
  }

  /** Upserting the same input twice is upserting it once, at the later time. */
  lemma UpsertIdempotent(rows: seq<MonthlySummary>, input: SummaryInput, t1: Instant, t2: Instant)
    ensures Upsert(Upsert(rows, input, t1), input, t2) == Upsert(rows, input, t2)
  {
    var key := KeyOf(input);
    var once := Upsert(rows, input, t1);
    assert SameSummaryKey(SummaryRow(input, t1), input.userId, input.referenceYear, input.referenceMonth);
    if exists i :: 0 <= i < |rows| && key(rows[i]) {
      var i :| 0 <= i < |rows| && key(rows[i]);
      assert key(once[i]);
    } else {
      assert key(once[|rows|]);
      assert Upsert(once, input, t2) == UpdateWhere(once, key, _ => SummaryRow(input, t2));
    }
  }

  /** Two upserts of the same input differ in `lastCalculatedAt` only. */
  lemma UpsertDiffersOnlyInTimestamp(rows: seq<MonthlySummary>, input: SummaryInput, t1: Instant, t2: Instant)
    ensures |Upsert(rows, input, t1)| == |Upsert(rows, input, t2)|
    ensures forall k :: 0 <= k < |Upsert(rows, input, t1)| ==>
      Upsert(rows, input, t1)[k].(lastCalculatedAt := t2) == Upsert(rows, input, t2)[k].(lastCalculatedAt := t2)
  {
  }

  method UpsertMonthlySummary(db: Db, input: SummaryInput, now: Instant) returns (row: MonthlySummary)
    requires db.Valid()
    modifies db`summaries
    ensures db.Valid()
    ensures db.summaries == Upsert(old(db.summaries), input, now)
    ensures row == SummaryRow(input, now)
  {
    UpsertStores(db.summaries, input, now);
    db.SetSummaries(Upsert(db.summaries, input, now));
    row := SummaryRow(input, now);
  }

  /** calculateMonthlySummary: a stub that resolves and changes nothing. */
  method CalculateMonthlySummary(db: Db, userId: Id, referenceMonth: int, referenceYear: int, forceRecalculate: bool)
    returns (r: Result<()>)
    ensures r == Ok(())
  {
    r := Ok(());
  }

  // ---------------------------------------------------------------------
  // recalculateSummaryForMonth

  /** The query on transactions: the user's transactions dated within the month. */
  function InMonthOf(userId: Id, year: int, month: int): Transaction -> bool {
    (t: Transaction) => t.userId == userId && InMonthWindow(t.date, year, month)
  }

  function IsIncome(t: Transaction): bool { t.kind == Income }
  function IsNotIncome(t: Transaction): bool { t.kind != Income }
  function TxValue(t: Transaction): int { t.value }

  /** The owner of an account, when the account exists. */
  function OwnerOf(accounts: seq<Account>, accountId: Id): Option<Id> {
    var a := Find(accounts, AccountWithId(accountId));
    if a.Some? then Some(a.value.userId) else None
  }

  /** The query on installments: unpaid, of an account of the user, due within the month. */
  function BillOf(accounts: seq<Account>, userId: Id, year: int, month: int): Installment -> bool {
    (i: Installment) => OwnerOf(accounts, i.accountId) == Some(userId) && !i.isPaid
         && InMonthWindow(StartOfDay(i.dueDate), year, month)
  }

  function InstallmentAmount(i: Installment): int { i.amount }

  /** What recalculating (user, month, year) hands to the upsert. */
  function MonthInput(accounts: seq<Account>, installments: seq<Installment>, transactions: seq<Transaction>,
                      userId: Id, month: int, year: int): SummaryInput
  {
    var txs := Filter(transactions, InMonthOf(userId, year, month));
    var bills := Filter(installments, BillOf(accounts, userId, year, month));
    SummaryInput(userId, month, year,
      SumWhere(txs, IsIncome, TxValue), SumWhere(txs, IsNotIncome, TxValue),
      SumWhere(bills, AnyRow, InstallmentAmount), |bills|)
  }

  function SignedValue(t: Transaction): int {
    if t.kind == Income then t.value else -t.value
  }

  /** The balance of a month is the signed sum of its transactions: income counts up, everything else down. */
  lemma {:induction false} BalanceIsSignedSum(txs: seq<Transaction>)
    ensures SumWhere(txs, IsIncome, TxValue) - SumWhere(txs, IsNotIncome, TxValue) == SumWhere(txs, AnyRow, SignedValue)
    decreases |txs|
  {
    if |txs| > 0 {
      BalanceIsSignedSum(txs[..|txs| - 1]);
    }
  }

  /** The bills of a month, counted and summed, are the unpaid installments of the
      user's accounts whose due date lies in that month. */
  lemma BillsAreDueInMonth(accounts: seq<Account>, userId: Id, year: int, month: int, i: Installment)
    requires ValidDate(i.dueDate) && 1 <= month <= 12
    ensures BillOf(accounts, userId, year, month)(i) <==>
      OwnerOf(accounts, i.accountId) == Some(userId) && !i.isPaid
      && i.dueDate.year == FullYear(year) && i.dueDate.month == month
  {
    InMonthWindowIff(i.dueDate, year, month);
  }

  /** The loops run over the two query results and accumulate the figures. */
  method ComputeMonthTotals(db: Db, userId: Id, month: int, year: int) returns (input: SummaryInput)
    ensures input == MonthInput(db.accounts, db.installments, db.transactions, userId, month, year)
  {
    var txs := Filter(db.transactions, InMonthOf(userId, year, month));
    var totalIncome, totalExpenses := 0, 0;
    var k := 0;
    while k < |txs|
      invariant 0 <= k <= |txs|
      invariant totalIncome == SumWhere(txs[..k], IsIncome, TxValue)
      invariant totalExpenses == SumWhere(txs[..k], IsNotIncome, TxValue)
    {
      assert txs[..k + 1][..k] == txs[..k];
      if txs[k].kind == Income {
        totalIncome := totalIncome + txs[k].value;
      } else {
        totalExpenses := totalExpenses + txs[k].value;
      }
      k := k + 1;
    }
    assert txs[..k] == txs;
    var bills := Filter(db.installments, BillOf(db.accounts, userId, year, month));
    var billsToPay := 0;
    k := 0;
    while k < |bills|
      invariant 0 <= k <= |bills|
      invariant billsToPay == SumWhere(bills[..k], AnyRow, InstallmentAmount)
    {
      assert bills[..k + 1][..k] == bills[..k];
      billsToPay := billsToPay + bills[k].amount;
      k := k + 1;
    }
    assert bills[..k] == bills;
    input := SummaryInput(userId, month, year, totalIncome, totalExpenses, billsToPay, |bills|);
  }

  method RecalculateSummaryForMonth(db: Db, userId: Id, month: int, year: int, now: Instant)
    requires db.Valid()
    modifies db`summaries
    ensures db.Valid()
    ensures db.summaries ==
      Upsert(old(db.summaries), MonthInput(db.accounts, db.installments, db.transactions, userId, month, year), now)
  {
    var input := ComputeMonthTotals(db, userId, month, year);
    var _ := UpsertMonthlySummary(db, input, now);
  }

  datatype Period = Period(month: int, year: int)

  /** The summary table after upserting `inputs` in order. */
  function UpsertAll(rows: seq<MonthlySummary>, inputs: seq<SummaryInput>, now: Instant): seq<MonthlySummary>
    decreases |inputs|
  {
    if |inputs| == 0 then rows
    else Upsert(UpsertAll(rows, inputs[..|inputs| - 1], now), inputs[|inputs| - 1], now)
  }

  function SummaryKey(input: SummaryInput): (Id, int, int) {
    (input.userId, input.referenceYear, input.referenceMonth)
  }

  lemma {:induction false} UpsertAllKeepsKeysUnique(rows: seq<MonthlySummary>, inputs: seq<SummaryInput>, now: Instant)
    requires SummaryKeysUnique(rows)
    ensures SummaryKeysUnique(UpsertAll(rows, inputs, now))
    decreases |inputs|
  {
    if |inputs| > 0 {
      UpsertAllKeepsKeysUnique(rows, inputs[..|inputs| - 1], now);
      UpsertKeepsKeysUnique(UpsertAll(rows, inputs[..|inputs| - 1], now), inputs[|inputs| - 1], now);
    }
  }

  /** After a batch of upserts, every input that no later input overrides is what its key finds. */
  lemma {:induction false} UpsertAllStores(rows: seq<MonthlySummary>, inputs: seq<SummaryInput>, now: Instant, k: int)
    requires SummaryKeysUnique(rows) && 0 <= k < |inputs|
    requires forall j :: k < j < |inputs| ==> SummaryKey(inputs[j]) != SummaryKey(inputs[k]) || inputs[j] == inputs[k]
    ensures SummaryKeysUnique(UpsertAll(rows, inputs, now))
    ensures Find(UpsertAll(rows, inputs, now), KeyOf(inputs[k])) == Some(SummaryRow(inputs[k], now))
    decreases |inputs|
  {
    var init, last, x := inputs[..|inputs| - 1], inputs[|inputs| - 1], inputs[k];
    var before := UpsertAll(rows, init, now);
    var after := UpsertAll(rows, inputs, now);
    assert after == Upsert(before, last, now);
    if k < |init| {
      assert init[k] == x;
      forall j | k < j < |init| ensures SummaryKey(init[j]) != SummaryKey(init[k]) || init[j] == init[k] {
        assert init[j] == inputs[j];
      }
      UpsertAllStores(rows, init, now, k);
      assert Find(before, KeyOf(x)) == Some(SummaryRow(x, now));
      if last != x {
        assert SummaryKey(last) != SummaryKey(x);
        UpsertKeepsKeysUnique(before, last, now);
        FindAfterOtherUpsert(before, x, last, now);
        assert Find(after, KeyOf(x)) == Find(before, KeyOf(x));
      } else {
        UpsertStores(before, last, now);
      }
    } else {
      assert last == x;
      UpsertAllKeepsKeysUnique(rows, init, now);
      UpsertStores(before, last, now);
    }
    assert Find(after, KeyOf(x)) == Some(SummaryRow(x, now));
  }

  /** What recalculating each of `months` hands to the upsert. */
  function MonthInputs(accounts: seq<Account>, installments: seq<Installment>, transactions: seq<Transaction>,
                       userId: Id, months: seq<Period>): (r: seq<SummaryInput>)
    ensures |r| == |months|
  {
    seq(|months|, k requires 0 <= k < |months| =>
      MonthInput(accounts, installments, transactions, userId, months[k].month, months[k].year))
  }

  /** The summary table after recalculating `months` in order. */
  function RecalcMonths(rows: seq<MonthlySummary>, accounts: seq<Account>, installments: seq<Installment>,
                        transactions: seq<Transaction>, userId: Id, months: seq<Period>, now: Instant): seq<MonthlySummary>
  {
    UpsertAll(rows, MonthInputs(accounts, installments, transactions, userId, months), now)
  }

  /** Recalculation keeps one row per key and leaves every month it recalculated with that month's figures. */
  lemma RecalcMonthsStores(rows: seq<MonthlySummary>, accounts: seq<Account>, installments: seq<Installment>,
                           transactions: seq<Transaction>, userId: Id, months: seq<Period>, now: Instant, k: int)
    requires SummaryKeysUnique(rows) && 0 <= k < |months|
    ensures SummaryKeysUnique(RecalcMonths(rows, accounts, installments, transactions, userId, months, now))
    ensures Find(RecalcMonths(rows, accounts, installments, transactions, userId, months, now),
                 KeyOf(MonthInput(accounts, installments, transactions, userId, months[k].month, months[k].year)))
            == Some(SummaryRow(MonthInput(accounts, installments, transactions, userId, months[k].month, months[k].year), now))
  {
    var inputs := MonthInputs(accounts, installments, transactions, userId, months);
    forall j | k < j < |inputs| ensures SummaryKey(inputs[j]) != SummaryKey(inputs[k]) || inputs[j] == inputs[k] {
      if SummaryKey(inputs[j]) == SummaryKey(inputs[k]) {
        assert months[j].month == months[k].month && months[j].year == months[k].year;
      }
    }
    UpsertAllStores(rows, inputs, now, k);
  }

  /** An upsert under another key leaves what a key lookup finds unchanged. */
  lemma FindAfterOtherUpsert(rows: seq<MonthlySummary>, input: SummaryInput, other: SummaryInput, now: Instant)
    requires SummaryKeysUnique(rows)
    requires SummaryKey(input) != SummaryKey(other)
    ensures Find(Upsert(rows, other, now), KeyOf(input)) == Find(rows, KeyOf(input))
  {
    var r := Upsert(rows, other, now);
    var key := KeyOf(input);
    assert !key(SummaryRow(other, now));
    forall j | 0 <= j < |rows| ensures key(r[j]) == key(rows[j]) && (key(rows[j]) ==> r[j] == rows[j]) {
    }
    FindPointwise(rows, r, key);
  }

  lemma {:induction false} FindPointwise<T>(s: seq<T>, r: seq<T>, p: T -> bool)
    requires |s| <= |r|
    requires forall j :: 0 <= j < |s| ==> p(r[j]) == p(s[j]) && (p(s[j]) ==> r[j] == s[j])
    requires |r| > |s| ==> (forall j :: |s| <= j < |r| ==> !p(r[j]))
    ensures Find(r, p) == Find(s, p)
    decreases |s|
  {
    if |s| == 0 {
      assert forall j :: 0 <= j < |r| ==> !p(r[j]);
    } else {
      FindPointwise(s[1..], r[1..], p);
    }
  }

  method RecalculateSummariesForMonths(db: Db, userId: Id, months: seq<Period>, now: Instant)
    requires db.Valid()
    modifies db`summaries
    ensures db.Valid()
    ensures db.summaries == RecalcMonths(old(db.summaries), db.accounts, db.installments, db.transactions, userId, months, now)
  {
    ghost var inputs := MonthInputs(db.accounts, db.installments, db.transactions, userId, months);
    ghost var rows0 := db.summaries;
    var k := 0;
    while k < |months|
      invariant 0 <= k <= |months|
      invariant db.Valid()
      invariant db.summaries == UpsertAll(rows0, inputs[..k], now)
    {
      assert inputs[..k + 1][..k] == inputs[..k];
      assert UpsertAll(rows0, inputs[..k + 1], now) == Upsert(UpsertAll(rows0, inputs[..k], now), inputs[k], now);
      RecalculateSummaryForMonth(db, userId, months[k].month, months[k].year, now);
      k := k + 1;
    }
    assert inputs[..k] == inputs;
  }

  function AccountMissing(accountId: Id): string {
    "Account " + NatText(accountId) + " not found"
  }

  /** generateSummariesForAccount: recalculate each listed month for the account's owner. */
  method GenerateSummariesForAccount(db: Db, accountId: Id, months: seq<Period>, now: Instant) returns (r: Result<()>)
    requires db.Valid()
    modifies db`summaries
    ensures db.Valid()
    ensures OwnerOf(db.accounts, accountId).None? ==> r == Err(Failed(AccountMissing(accountId))) && db.summaries == old(db.summaries)
    ensures OwnerOf(db.accounts, accountId).Some? ==>
      r == Ok(()) &&
      db.summaries == RecalcMonths(old(db.summaries), db.accounts, db.installments, db.transactions,
                                   OwnerOf(db.accounts, accountId).value, months, now)
  {
    var owner := OwnerOf(db.accounts, accountId);
    if owner.None? {
      return Err(Failed(AccountMissing(accountId)));
    }
    RecalculateSummariesForMonths(db, owner.value, months, now);
    r := Ok(());
  }
}
