// The transactions service: money movements, the payments that settle
// installments and accounts, the reversal of those payments when a
// transaction is deleted, and the balance and per-category reports.
module Transactions {
  import opened Common
  import opened Calendar
  import opened Entities
  import opened Store
  import opened MonthlySummaries
  import opened Pagination
  import opened CategoryColors

  /** A CreateTransactionDto with its date string already read as an instant. */
  datatype NewTransaction = NewTransaction(
    userId: Id,
    accountId: Option<Id>,
    installmentId: Option<Id>,
    kind: TransactionType,
    category: Option<string>,
    description: string,
    value: int,
    date: Instant)

  /** The row `create` inserts for `data` under the key `id`. */
  function RowOf(data: NewTransaction, id: Id): Transaction {
    Transaction(id, data.userId, data.kind, data.category, data.description,
      data.value, data.date, data.accountId, data.installmentId)
  }

  function OtherThan(id: Id): Transaction -> bool {
    (t: Transaction) => t.id != id
  }

  /** `where: { installmentId }` on transactions. */
  function PaymentOf(installmentId: Id): Transaction -> bool {
    (t: Transaction) => t.installmentId == Some(installmentId)
  }

  function MarkPaidAt(now: Instant): Installment -> Installment {
    (i: Installment) => i.(isPaid := true, paidAt := Some(now))
  }

  function MarkUnpaid(i: Installment): Installment {
    i.(isPaid := false, paidAt := None)
  }

  function Reopen(a: Account): Account { a.(isPaid := false) }

  function SetPaid(a: Account): Account { a.(isPaid := true) }

  /** create: insert the row. The monthly recalculation it then requests is
      `calculateMonthlySummary`, which has no effect. */
  method Create(db: Db, data: NewTransaction) returns (t: Transaction)
    requires db.Valid()
    modifies db`transactions, db`nextId
    ensures db.Valid()
    ensures t == RowOf(data, old(db.nextId))
    ensures db.transactions == old(db.transactions) + [t] && db.nextId == old(db.nextId) + 1
  {
    var id := db.NewId();
    t := RowOf(data, id);
    AppendKeyed(db.transactions, t, TransactionKey, id);
    db.SetTransactions(db.transactions + [t]);
  }

  /** findById */
  function FindTransaction(transactions: seq<Transaction>, id: Id): (r: Result<Transaction>)
    ensures r.Ok? ==> r.value in transactions && r.value.id == id
    ensures r.Err? <==> forall i :: 0 <= i < |transactions| ==> transactions[i].id != id
    ensures r.Err? ==> r.error == NotFound("TRANSACTION_NOT_FOUND")
  {
    match Find(transactions, TransactionWithId(id))
    case Some(t) => Ok(t)
    case None => Err(NotFound("TRANSACTION_NOT_FOUND"))
  }

  /** A freshly created transaction is what findById returns for its key. */
  lemma CreatedIsFound(transactions: seq<Transaction>, data: NewTransaction, bound: nat)
    requires KeyedBelow(transactions, TransactionKey, bound)
    ensures FindTransaction(transactions + [RowOf(data, bound)], bound) == Ok(RowOf(data, bound))
  {
    var s := transactions + [RowOf(data, bound)];
    FindSingle(s, TransactionWithId(bound), |transactions|);
  }

  // ---------------------------------------------------------------------
  // delete

  /** Step one of delete: the transaction's installment, if it exists, is unpaid again. */
  function RevertInstallment(installments: seq<Installment>, t: Transaction): seq<Installment> {
    if t.installmentId.Some? then UpdateWhere(installments, InstallmentWithId(t.installmentId.value), MarkUnpaid)
    else installments
  }

  /** A paid account is reopened when it has no installments or one of them is unpaid. */
  predicate MustReopen(a: Account, installments: seq<Installment>) {
    a.isPaid && (CountWhere(installments, InstallmentsOf(a.id)) == 0 || CountWhere(installments, UnpaidOf(a.id)) > 0)
  }

  /** Step two: the transaction's account, judged on the installments after step one. */
  function RevertAccount(accounts: seq<Account>, installments: seq<Installment>, t: Transaction): seq<Account> {
    if t.accountId.None? then accounts
    else match Find(accounts, AccountWithId(t.accountId.value))
      case None => accounts
      case Some(a) =>
        if MustReopen(a, installments) then UpdateWhere(accounts, AccountWithId(a.id), Reopen) else accounts
  }

  /** delete, first step: reset the installment the transaction paid, when it still exists. */
  method ResetInstallment(db: Db, t: Transaction)
    requires db.Valid()
    modifies db`installments
    ensures db.Valid()
    ensures db.installments == RevertInstallment(old(db.installments), t)
  {
    if t.installmentId.Some? {
      var inst := Find(db.installments, InstallmentWithId(t.installmentId.value));
      if inst.Some? {
        UpdateKeyed(db.installments, InstallmentWithId(inst.value.id), MarkUnpaid, InstallmentKey, db.nextId);
        db.SetInstallments(UpdateWhere(db.installments, InstallmentWithId(inst.value.id), MarkUnpaid));
      } else {
        UpdateWhereNone(db.installments, InstallmentWithId(t.installmentId.value), MarkUnpaid);
      }
    }
  }

  /** delete, second step: reopen the transaction's paid account unless all of its
      installments are still paid. */
  method ReopenAccount(db: Db, t: Transaction)
    requires db.Valid()
    modifies db`accounts
    ensures db.Valid()
    ensures db.accounts == RevertAccount(old(db.accounts), db.installments, t)
  {
    if t.accountId.Some? {
      var acc := Find(db.accounts, AccountWithId(t.accountId.value));
      if acc.Some? && acc.value.isPaid {
        var a := acc.value;
        UpdateKeyed(db.accounts, AccountWithId(a.id), Reopen, AccountKey, db.nextId);
        var all := Filter(db.installments, InstallmentsOf(a.id));
        FilterLength(db.installments, InstallmentsOf(a.id));
        if |all| > 0 {
          var unpaid := Filter(db.installments, UnpaidOf(a.id));
          FilterLength(db.installments, UnpaidOf(a.id));
          if |unpaid| > 0 {
            db.SetAccounts(UpdateWhere(db.accounts, AccountWithId(a.id), Reopen));
          }
        } else {
          db.SetAccounts(UpdateWhere(db.accounts, AccountWithId(a.id), Reopen));
        }
      }
    }
  }

  method Delete(db: Db, id: Id) returns (r: Result<()>)
    requires db.Valid()
    modifies db`installments, db`accounts, db`transactions
    ensures db.Valid()
    ensures FindTransaction(old(db.transactions), id).Err? ==>
      r == Err(NotFound("TRANSACTION_NOT_FOUND")) && db.installments == old(db.installments) &&
      db.accounts == old(db.accounts) && db.transactions == old(db.transactions)
    ensures FindTransaction(old(db.transactions), id).Ok? ==>
      var t := FindTransaction(old(db.transactions), id).value;
      r == Ok(()) &&
      db.installments == RevertInstallment(old(db.installments), t) &&
      db.accounts == RevertAccount(old(db.accounts), db.installments, t) &&
      db.transactions == Filter(old(db.transactions), OtherThan(id))
  {
    var found := FindTransaction(db.transactions, id);
    if found.Err? {
      return Err(found.error);
    }
    var t := found.value;
    ResetInstallment(db, t);
    ReopenAccount(db, t);
    FilterKeyed(db.transactions, OtherThan(id), TransactionKey, db.nextId);
    db.SetTransactions(Filter(db.transactions, OtherThan(id)));
    r := Ok(());
  }

  /** Delete removes exactly the row with that key. */
  lemma DeleteRemovesOnlyThatRow(transactions: seq<Transaction>, id: Id, y: Transaction)
    ensures y in Filter(transactions, OtherThan(id)) <==> y in transactions && y.id != id
  {
    FilterMember(transactions, OtherThan(id), y);
  }

  /** A paid account linked to the deleted transaction stays paid exactly when it has
      installments and, after the installment reset, every one of them is paid; every
      other account row is left as it was. */
  lemma DeleteReopensAccountIff(accounts: seq<Account>, bound: nat, installments: seq<Installment>, t: Transaction, k: int)
    requires KeyedBelow(accounts, AccountKey, bound) && 0 <= k < |accounts|
    requires t.accountId == Some(accounts[k].id) && accounts[k].isPaid
    ensures |RevertAccount(accounts, installments, t)| == |accounts|
    ensures RevertAccount(accounts, installments, t)[k].isPaid <==>
      (exists j :: 0 <= j < |installments| && installments[j].accountId == accounts[k].id) &&
      (forall j :: 0 <= j < |installments| && installments[j].accountId == accounts[k].id ==> installments[j].isPaid)
    ensures forall j :: 0 <= j < |accounts| && j != k ==> RevertAccount(accounts, installments, t)[j] == accounts[j]
  {
    var a := accounts[k];
    FindSingle(accounts, AccountWithId(a.id), k);
    CountWherePositive(installments, InstallmentsOf(a.id));
    CountWherePositive(installments, UnpaidOf(a.id));
  }

  /** Deleting the payment of one of an account's installments always leaves the account unpaid. */
  lemma DeletingInstallmentPaymentReopens(accounts: seq<Account>, bound: nat, installments: seq<Installment>,
                                          t: Transaction, k: int, m: int)
    requires KeyedBelow(accounts, AccountKey, bound) && 0 <= k < |accounts| && 0 <= m < |installments|
    requires t.accountId == Some(accounts[k].id) && t.installmentId == Some(installments[m].id)
    requires installments[m].accountId == accounts[k].id
    ensures !RevertAccount(accounts, RevertInstallment(installments, t), t)[k].isPaid
  {
    var reset := RevertInstallment(installments, t);
    assert !reset[m].isPaid && reset[m].accountId == accounts[k].id;
    if accounts[k].isPaid {
      DeleteReopensAccountIff(accounts, bound, reset, t, k);
    } else {
      FindSingle(accounts, AccountWithId(accounts[k].id), k);
    }
  }

  // ---------------------------------------------------------------------
  // createInstallmentPayment

  /** The EXPENSE that pays an installment: its amount, dated at its due date. */
  function InstallmentPayment(i: Installment, userId: Id): NewTransaction {
    NewTransaction(userId, Some(i.accountId), Some(i.id), Expense, Some("INSTALLMENT_PAYMENT"),
      "Pagamento da parcela " + NumberText(i.number), i.amount, StartOfDay(i.dueDate))
  }

  method CreateInstallmentPayment(db: Db, installmentId: Id, userId: Id, now: Instant) returns (r: Result<Transaction>)
    requires db.Valid()
    modifies db`transactions, db`nextId, db`installments
    ensures db.Valid()
    ensures Find(old(db.transactions), PaymentOf(installmentId)).Some? ==>
      r == Err(BadRequest("Transaction already exists for this installment")) &&
      db.transactions == old(db.transactions) && db.installments == old(db.installments) && db.nextId == old(db.nextId)
    ensures Find(old(db.transactions), PaymentOf(installmentId)).None? &&
            Find(old(db.installments), InstallmentWithId(installmentId)).None? ==>
      r == Err(NotFound("INSTALLMENT_NOT_FOUND")) &&
      db.transactions == old(db.transactions) && db.installments == old(db.installments) && db.nextId == old(db.nextId)
    ensures Find(old(db.transactions), PaymentOf(installmentId)).None? &&
            Find(old(db.installments), InstallmentWithId(installmentId)).Some? ==>
      var i := Find(old(db.installments), InstallmentWithId(installmentId)).value;
      r == Ok(RowOf(InstallmentPayment(i, userId), old(db.nextId))) &&
      db.transactions == old(db.transactions) + [r.value] && db.nextId == old(db.nextId) + 1 &&
      db.installments == UpdateWhere(old(db.installments), InstallmentWithId(installmentId), MarkPaidAt(now))
  {
    var existing := Find(db.transactions, PaymentOf(installmentId));
    if existing.Some? {
      return Err(BadRequest("Transaction already exists for this installment"));
    }
    var inst := Find(db.installments, InstallmentWithId(installmentId));
    if inst.None? {
      return Err(NotFound("INSTALLMENT_NOT_FOUND"));
    }
    var i := inst.value;
    var t := Create(db, InstallmentPayment(i, userId));
    UpdateKeyed(db.installments, InstallmentWithId(i.id), MarkPaidAt(now), InstallmentKey, db.nextId);
    db.SetInstallments(UpdateWhere(db.installments, InstallmentWithId(i.id), MarkPaidAt(now)));
    r := Ok(t);
  }

  /** After a payment is created it is the installment's only payment, and a second
      request for the same installment is rejected. */
  lemma OnePaymentPerInstallment(transactions: seq<Transaction>, i: Installment, userId: Id, bound: nat)
    requires Find(transactions, PaymentOf(i.id)).None?
    ensures CountWhere(transactions + [RowOf(InstallmentPayment(i, userId), bound)], PaymentOf(i.id)) == 1
    ensures Find(transactions + [RowOf(InstallmentPayment(i, userId), bound)], PaymentOf(i.id)).Some?
  {
    var s := transactions + [RowOf(InstallmentPayment(i, userId), bound)];
    assert PaymentOf(i.id)(s[|transactions|]);
    CountSingle(s, PaymentOf(i.id), |transactions|);
  }

  /** Deleting the payment undoes it: the transaction table is back as it was, and the
      installment is unpaid with no payment time. */
  lemma PaymentThenDeleteRestores(installments: seq<Installment>, transactions: seq<Transaction>, bound: nat,
                                  i: Installment, userId: Id, now: Instant)
    requires KeyedBelow(transactions, TransactionKey, bound)
    ensures var t := RowOf(InstallmentPayment(i, userId), bound);
      Filter(transactions + [t], OtherThan(t.id)) == transactions &&
      RevertInstallment(UpdateWhere(installments, InstallmentWithId(i.id), MarkPaidAt(now)), t)
        == UpdateWhere(installments, InstallmentWithId(i.id), MarkUnpaid)
    ensures (forall j :: 0 <= j < |installments| && installments[j].id == i.id ==>
               !installments[j].isPaid && installments[j].paidAt.None?) ==>
      RevertInstallment(UpdateWhere(installments, InstallmentWithId(i.id), MarkPaidAt(now)),
                        RowOf(InstallmentPayment(i, userId), bound)) == installments
  {
    var t := RowOf(InstallmentPayment(i, userId), bound);
    FilterAppend(transactions, [t], OtherThan(t.id));
    FilterAll(transactions, OtherThan(t.id));
    assert Filter([t], OtherThan(t.id)) == [];
  }

  // ---------------------------------------------------------------------
  // createAccountPayment

  /** The payment's date: (referenceYear, referenceMonth, dueDay) through Date's
      normalisation when both reference fields are set, else the start date. */
  function AccountPaymentDate(a: Account): CalendarDate {
    if Truthy(a.referenceMonth) && Truthy(a.referenceYear) then
      DateUtc(a.referenceYear.value, a.referenceMonth.value - 1, a.dueDay)
    else a.startDate
  }

  lemma AccountPaymentDateIs(a: Account)
    ensures !(Truthy(a.referenceMonth) && Truthy(a.referenceYear)) ==> AccountPaymentDate(a) == a.startDate
    ensures Truthy(a.referenceMonth) && Truthy(a.referenceYear) &&
            1 <= a.referenceMonth.value <= 12 && 1 <= a.dueDay <= DaysInMonth(FullYear(a.referenceYear.value), a.referenceMonth.value) ==>
      AccountPaymentDate(a) == CalendarDate(FullYear(a.referenceYear.value), a.referenceMonth.value, a.dueDay)
    ensures Truthy(a.referenceMonth) && Truthy(a.referenceYear) &&
            1 <= a.referenceMonth.value <= 12 && DaysInMonth(FullYear(a.referenceYear.value), a.referenceMonth.value) < a.dueDay <= 31 ==>
      var y := FullYear(a.referenceYear.value);
      var next := NextMonth(y, a.referenceMonth.value);
      AccountPaymentDate(a) == CalendarDate(next.0, next.1, a.dueDay - DaysInMonth(y, a.referenceMonth.value))
  {
    if Truthy(a.referenceMonth) && Truthy(a.referenceYear) && 1 <= a.referenceMonth.value <= 12 {
      var y, m := FullYear(a.referenceYear.value), a.referenceMonth.value;
      if 1 <= a.dueDay <= DaysInMonth(y, m) {
        DateUtcOfValid(a.referenceYear.value, m, a.dueDay);
      } else if DaysInMonth(y, m) < a.dueDay <= 31 {
        DateUtcRollsOver(a.referenceYear.value, m - 1, a.dueDay);
      }
    }
  }

  function AccountPayment(a: Account, userId: Id, paymentAmount: int): NewTransaction {
    NewTransaction(userId, Some(a.id), None, Expense, Some("ACCOUNT_PAYMENT"),
      "Payment for account: " + a.name, paymentAmount, StartOfDay(AccountPaymentDate(a)))
  }

  method CreateAccountPayment(db: Db, accountId: Id, userId: Id, paymentAmount: int) returns (r: Result<Transaction>)
    requires db.Valid()
    modifies db`transactions, db`nextId
    ensures db.Valid()
    ensures Find(old(db.accounts), AccountWithId(accountId)).None? ==>
      r == Err(NotFound("ACCOUNT_NOT_FOUND")) && db.transactions == old(db.transactions) && db.nextId == old(db.nextId)
    ensures Find(old(db.accounts), AccountWithId(accountId)).Some? ==>
      var a := Find(old(db.accounts), AccountWithId(accountId)).value;
      r == Ok(RowOf(AccountPayment(a, userId, paymentAmount), old(db.nextId))) &&
      db.transactions == old(db.transactions) + [r.value] && db.nextId == old(db.nextId) + 1
  {
    var found := Find(db.accounts, AccountWithId(accountId));
    if found.None? {
      return Err(NotFound("ACCOUNT_NOT_FOUND"));
    }
    var t := Create(db, AccountPayment(found.value, userId, paymentAmount));
    r := Ok(t);
  }

  // ---------------------------------------------------------------------
  // _validateAccountPayment

  /** What the validation answers and the two tables it leaves behind. */
  datatype Validation = Validation(result: Result<()>, accounts: seq<Account>, installments: seq<Installment>)

  /** The sum of the account's unpaid installments. */
  function UnpaidTotal(installments: seq<Installment>, accountId: Id): int {
    SumWhere(Filter(installments, UnpaidOf(accountId)), AnyRow, InstallmentAmount)
  }

  /** The checks in order: the account exists, is not paid, the payment covers the
      unpaid installments (which are then marked paid), and covers `totalAmount * 100`
      (which marks the account paid). */
  function PaymentValidation(accounts: seq<Account>, installments: seq<Installment>, accountId: Id,
                             paymentValue: int, now: Instant): Validation
  {
    match Find(accounts, AccountWithId(accountId))
    case None => Validation(Err(NotFound("ACCOUNT_NOT_FOUND")), accounts, installments)
    case Some(a) =>
      if a.isPaid then Validation(Err(BadRequest("ACCOUNT_ALREADY_PAID")), accounts, installments)
      else if Truthy(a.installments) && paymentValue < UnpaidTotal(installments, a.id) then
        Validation(Err(BadRequest("INSUFFICIENT_PAYMENT_AMOUNT")), accounts, installments)
      else
        var marked := if Truthy(a.installments) then UpdateWhere(installments, UnpaidOf(a.id), MarkPaidAt(now)) else installments;
        if !Truthy(a.totalAmount) then Validation(Ok(()), accounts, marked)
        else if paymentValue < a.totalAmount.value * 100 then
          Validation(Err(BadRequest("INSUFFICIENT_PAYMENT_AMOUNT")), accounts, marked)
        else Validation(Ok(()), UpdateWhere(accounts, AccountWithId(a.id), SetPaid), marked)
  }

  /** A rejection before the installment loop changes nothing. */
  lemma EarlyRejectionChangesNothing(accounts: seq<Account>, installments: seq<Installment>, accountId: Id,
                                     paymentValue: int, now: Instant)
    requires Find(accounts, AccountWithId(accountId)).None? ||
             Find(accounts, AccountWithId(accountId)).value.isPaid ||
             (Truthy(Find(accounts, AccountWithId(accountId)).value.installments) &&
              paymentValue < UnpaidTotal(installments, accountId))
    ensures PaymentValidation(accounts, installments, accountId, paymentValue, now).result.Err?
    ensures PaymentValidation(accounts, installments, accountId, paymentValue, now).accounts == accounts
    ensures PaymentValidation(accounts, installments, accountId, paymentValue, now).installments == installments
  {
  }

  /** Once the unpaid installments are covered they are all paid afterwards, at the
      shared time `now`, even when the `totalAmount` check then rejects the payment;
      other accounts' installments are untouched. */
  lemma CoveredInstallmentsEndPaid(accounts: seq<Account>, installments: seq<Installment>, accountId: Id,
                                   paymentValue: int, now: Instant, j: int)
    requires Find(accounts, AccountWithId(accountId)).Some?
    requires !Find(accounts, AccountWithId(accountId)).value.isPaid
    requires Truthy(Find(accounts, AccountWithId(accountId)).value.installments)
    requires paymentValue >= UnpaidTotal(installments, accountId)
    requires 0 <= j < |installments|
    ensures var v := PaymentValidation(accounts, installments, accountId, paymentValue, now);
      |v.installments| == |installments| &&
      (installments[j].accountId == accountId ==> v.installments[j].isPaid) &&
      (installments[j].accountId == accountId && !installments[j].isPaid ==> v.installments[j].paidAt == Some(now)) &&
      (installments[j].accountId != accountId || installments[j].isPaid ==> v.installments[j] == installments[j])
  {
    var a := Find(accounts, AccountWithId(accountId)).value;
    assert a.id == accountId;
  }

  /** An accepted payment was for an unpaid account, covered what it had to, and marks the
      account paid exactly when the account has a `totalAmount`. */
  lemma AcceptedPayment(accounts: seq<Account>, bound: nat, installments: seq<Installment>, accountId: Id,
                        paymentValue: int, now: Instant, k: int)
    requires KeyedBelow(accounts, AccountKey, bound) && 0 <= k < |accounts| && accounts[k].id == accountId
    requires PaymentValidation(accounts, installments, accountId, paymentValue, now).result.Ok?
    ensures !accounts[k].isPaid
    ensures Truthy(accounts[k].installments) ==> paymentValue >= UnpaidTotal(installments, accountId)
    ensures Truthy(accounts[k].totalAmount) ==> paymentValue >= accounts[k].totalAmount.value * 100
    ensures var v := PaymentValidation(accounts, installments, accountId, paymentValue, now);
      |v.accounts| == |accounts| && (v.accounts[k].isPaid <==> Truthy(accounts[k].totalAmount))
  {
    FindSingle(accounts, AccountWithId(accountId), k);
  }

  /** One turn of the loop: updating the k-th queried row by its key marks exactly that row. */
  lemma MarkStep(before: seq<Installment>, current: seq<Installment>, unpaid: seq<Installment>, k: int,
                 accountId: Id, now: Instant, bound: nat)
    requires KeyedBelow(before, InstallmentKey, bound)
    requires unpaid == Filter(before, UnpaidOf(accountId)) && 0 <= k < |unpaid|
    requires |current| == |before|
    requires forall j :: 0 <= j < |before| ==>
      current[j] == if before[j] in unpaid[..k] then MarkPaidAt(now)(before[j]) else before[j]
    ensures forall j :: 0 <= j < |before| ==>
      UpdateWhere(current, InstallmentWithId(unpaid[k].id), MarkPaidAt(now))[j]
        == if before[j] in unpaid[..k + 1] then MarkPaidAt(now)(before[j]) else before[j]
  {
    var u := unpaid[k];
    FilterKeyed(before, UnpaidOf(accountId), InstallmentKey, bound);
    FilterMember(before, UnpaidOf(accountId), u);
    var m :| 0 <= m < |before| && before[m] == u;
    KeyedNotBefore(unpaid, InstallmentKey, bound, k);
    forall j | 0 <= j < |before|
      ensures UpdateWhere(current, InstallmentWithId(u.id), MarkPaidAt(now))[j]
        == if before[j] in unpaid[..k + 1] then MarkPaidAt(now)(before[j]) else before[j]
    {
      MarkStepRow(before, current, unpaid, k, now, bound, m, j);
    }
  }

  /** The same for one row `j`, given the row `m` the k-th queried row sits in. */
  lemma MarkStepRow(before: seq<Installment>, current: seq<Installment>, unpaid: seq<Installment>, k: int,
                    now: Instant, bound: nat, m: int, j: int)
    requires KeyedBelow(before, InstallmentKey, bound)
    requires 0 <= k < |unpaid| && unpaid[k] !in unpaid[..k]
    requires 0 <= m < |before| && before[m] == unpaid[k]
    requires 0 <= j < |before| && |current| == |before|
    requires current[j] == if before[j] in unpaid[..k] then MarkPaidAt(now)(before[j]) else before[j]
    ensures UpdateWhere(current, InstallmentWithId(unpaid[k].id), MarkPaidAt(now))[j]
      == if before[j] in unpaid[..k + 1] then MarkPaidAt(now)(before[j]) else before[j]
  {
    var u := unpaid[k];
    var w := UpdateWhere(current, InstallmentWithId(u.id), MarkPaidAt(now));
    assert unpaid[..k + 1] == unpaid[..k] + [u];
    assert current[j].id == before[j].id;
    if before[j].id == u.id {
      KeyedSame(before, InstallmentKey, bound, j, m);
      assert current[j] == before[j];
      assert w[j] == MarkPaidAt(now)(before[j]);
    } else {
      assert before[j] != u;
      assert w[j] == current[j];
    }
  }

  /** The loop of `_validateAccountPayment`: each unpaid installment from the query is
      updated by its key; together the updates are the bulk update of that query. */
  method MarkEachPaid(db: Db, unpaid: seq<Installment>, ghost accountId: Id, now: Instant)
    requires db.Valid()
    requires unpaid == Filter(db.installments, UnpaidOf(accountId))
    modifies db`installments
    ensures db.Valid()
    ensures db.installments == UpdateWhere(old(db.installments), UnpaidOf(accountId), MarkPaidAt(now))
  {
    ghost var before := db.installments;
    FilterKeyed(before, UnpaidOf(accountId), InstallmentKey, db.nextId);
    var k := 0;
    while k < |unpaid|
      invariant 0 <= k <= |unpaid|
      invariant db.Valid()
      invariant |db.installments| == |before|
      invariant forall j :: 0 <= j < |before| ==>
        db.installments[j] == if before[j] in unpaid[..k] then MarkPaidAt(now)(before[j]) else before[j]
    {
      MarkStep(before, db.installments, unpaid, k, accountId, now, db.nextId);
      UpdateKeyed(db.installments, InstallmentWithId(unpaid[k].id), MarkPaidAt(now), InstallmentKey, db.nextId);
      db.SetInstallments(UpdateWhere(db.installments, InstallmentWithId(unpaid[k].id), MarkPaidAt(now)));
      k := k + 1;
    }
    forall j | 0 <= j < |before| ensures (before[j] in unpaid) == UnpaidOf(accountId)(before[j]) {
      FilterMember(before, UnpaidOf(accountId), before[j]);
    }
    assert unpaid[..k] == unpaid;
  }

  method ValidateAccountPayment(db: Db, accountId: Id, paymentValue: int, now: Instant) returns (r: Result<()>)
    requires db.Valid()
    modifies db`accounts, db`installments
    ensures db.Valid()
    ensures var v := PaymentValidation(old(db.accounts), old(db.installments), accountId, paymentValue, now);
      r == v.result && db.accounts == v.accounts && db.installments == v.installments
  {
    var found := Find(db.accounts, AccountWithId(accountId));
    if found.None? {
      return Err(NotFound("ACCOUNT_NOT_FOUND"));
    }
    var a := found.value;
    if a.isPaid {
      return Err(BadRequest("ACCOUNT_ALREADY_PAID"));
    }
    if Truthy(a.installments) {
      var unpaid := Filter(db.installments, UnpaidOf(a.id));
      var unpaidTotal := SumWhere(unpaid, AnyRow, InstallmentAmount);
      if paymentValue < unpaidTotal {
        return Err(BadRequest("INSUFFICIENT_PAYMENT_AMOUNT"));
      }
      MarkEachPaid(db, unpaid, a.id, now);
    }
    if Truthy(a.totalAmount) {
      var accountTotalCents := a.totalAmount.value * 100;
      if paymentValue < accountTotalCents {
        return Err(BadRequest("INSUFFICIENT_PAYMENT_AMOUNT"));
      }
      UpdateKeyed(db.accounts, AccountWithId(a.id), SetPaid, AccountKey, db.nextId);
      db.SetAccounts(UpdateWhere(db.accounts, AccountWithId(a.id), SetPaid));
    }
    r := Ok(());
  }

  /** createExpense: an expense naming an account must pass the account payment
      validation first; the category check is an always-accepting stub. */
  method CreateExpense(db: Db, data: NewTransaction, now: Instant) returns (r: Result<Transaction>)
    requires db.Valid()
    modifies db`accounts, db`installments, db`transactions, db`nextId
    ensures db.Valid()
    ensures var v := if data.accountId.Some?
                     then PaymentValidation(old(db.accounts), old(db.installments), data.accountId.value, data.value, now)
                     else Validation(Ok(()), old(db.accounts), old(db.installments));
      db.accounts == v.accounts && db.installments == v.installments &&
      (v.result.Err? ==> r == Err(v.result.error) && db.transactions == old(db.transactions)) &&
      (v.result.Ok? ==> r == Ok(RowOf(data.(kind := Expense), old(db.nextId))) &&
                        db.transactions == old(db.transactions) + [r.value])
  {
    if data.accountId.Some? {
      var check := ValidateAccountPayment(db, data.accountId.value, data.value, now);
      if check.Err? {
        return Err(check.error);
      }
    }
    var t := Create(db, data.(kind := Expense));
    r := Ok(t);
  }

  method CreateIncome(db: Db, data: NewTransaction) returns (t: Transaction)
    requires db.Valid()
    modifies db`transactions, db`nextId
    ensures db.Valid()
    ensures t == RowOf(data.(kind := Income), old(db.nextId))
    ensures db.transactions == old(db.transactions) + [t]
  {
    t := Create(db, data.(kind := Income));
  }

  // ---------------------------------------------------------------------
  // getAll

  datatype ListFilters = ListFilters(
    kind: Option<TransactionType>,
    category: Option<string>,
    accountId: Option<Id>,
    startDate: Option<Instant>,
    endDate: Option<Instant>,
    page: Option<int>,
    limit: Option<int>)

  /** The `where` of getAll: the user's rows, narrowed by each filter that is set
      (an empty category string sets none). */
  predicate Matches(userId: Id, f: ListFilters, t: Transaction) {
    t.userId == userId &&
    (f.kind.Some? ==> t.kind == f.kind.value) &&
    (TruthyString(f.category) ==> t.category == f.category) &&
    (f.accountId.Some? ==> t.accountId == f.accountId) &&
    (f.startDate.Some? ==> f.startDate.value <= t.date) &&
    (f.endDate.Some? ==> t.date <= f.endDate.value)
  }

  function MatchesFilters(userId: Id, f: ListFilters): Transaction -> bool {
    (t: Transaction) => Matches(userId, f, t)
  }

  /** The sort key of `date desc`. */
  function DateDesc(t: Transaction): int { -t.date }

  /** `orderBy: [{ date: 'desc' }, { createdAt: 'desc' }]`: rows sit in creation order,
      so reversing them and sorting stably by descending date puts the newest first
      among equal dates. */
  function NewestFirst(rows: seq<Transaction>): seq<Transaction> {
    SortBy(Reversed(rows), DateDesc)
  }

  /** The ordering loses and adds no row, and lists dates from newest to oldest. */
  lemma NewestFirstFacts(rows: seq<Transaction>)
    ensures |NewestFirst(rows)| == |rows|
    ensures multiset(NewestFirst(rows)) == multiset(rows)
    ensures SortedBy(NewestFirst(rows), DateDesc)
  {
    ReversedMultiset(rows);
    SortByFacts(Reversed(rows), DateDesc);
  }

  /** A page cut from a sorted sequence is sorted. */
  lemma WindowSorted(s: seq<Transaction>, offset: nat, limit: nat)
    requires SortedBy(s, DateDesc)
    ensures SortedBy(Window(s, offset, limit), DateDesc)
  {
    var w := Window(s, offset, limit);
    forall i, j | 0 <= i < j < |w| ensures DateDesc(w[i]) <= DateDesc(w[j]) {
      assert w[i] == s[offset + i] && w[j] == s[offset + j];
    }
  }

  /** getAll. The DTO validates page >= 1 and limit >= 1. */
  function GetAll(transactions: seq<Transaction>, userId: Id, f: ListFilters): (r: Page<Transaction>)
    requires f.page.Some? ==> f.page.value >= 1
    requires f.limit.Some? ==> f.limit.value >= 1
    ensures r.limit == OrElse(f.limit, 10) && r.page == OrElse(f.page, 1)
    ensures r.offset == (r.page - 1) * r.limit
    ensures r.total == CountWhere(transactions, MatchesFilters(userId, f))
    ensures |r.docs| <= r.limit
    ensures r.hasNextPage <==> r.offset + |r.docs| < r.total
    ensures r.hasNextPage ==> |r.docs| == r.limit
    ensures r.hasPrevPage <==> r.page > 1
    ensures SortedBy(r.docs, DateDesc)
  {
    var limit: nat := OrElse(f.limit, 10);
    var page: nat := OrElse(f.page, 1);
    var offset: nat := (page - 1) * limit;
    var rows := Filter(transactions, MatchesFilters(userId, f));
    FilterLength(transactions, MatchesFilters(userId, f));
    NewestFirstFacts(rows);
    WindowSorted(NewestFirst(rows), offset, limit);
    var total := |rows|;
    Page(Window(NewestFirst(rows), offset, limit), total, limit, page, offset, offset + limit < total, page > 1)
  }

  /** Every listed row is one of the user's rows that passes the filters. */
  lemma GetAllReturnsMatches(transactions: seq<Transaction>, userId: Id, f: ListFilters, t: Transaction)
    requires f.page.Some? ==> f.page.value >= 1
    requires f.limit.Some? ==> f.limit.value >= 1
    requires t in GetAll(transactions, userId, f).docs
    ensures t in transactions && Matches(userId, f, t)
  {
    var rows := Filter(transactions, MatchesFilters(userId, f));
    NewestFirstFacts(rows);
    var w := GetAll(transactions, userId, f).docs;
    var i :| 0 <= i < |w| && w[i] == t;
    assert t in NewestFirst(rows);
    assert t in multiset(rows);
    FilterMember(transactions, MatchesFilters(userId, f), t);
  }

  /** Which rows a page holds: the matches in newest-first order, from row `offset` on;
      the page is full unless the matches run out, and empty past them. */
  lemma GetAllPageHoldsNewest(transactions: seq<Transaction>, userId: Id, f: ListFilters)
    requires f.page.Some? ==> f.page.value >= 1
    requires f.limit.Some? ==> f.limit.value >= 1
    ensures var r := GetAll(transactions, userId, f);
      HoldsFrom(r.docs, NewestFirst(Filter(transactions, MatchesFilters(userId, f))), r.limit, r.offset)
  {
    var limit: nat := OrElse(f.limit, 10);
    var page: nat := OrElse(f.page, 1);
    var offset: nat := (page - 1) * limit;
    var m := NewestFirst(Filter(transactions, MatchesFilters(userId, f)));
    var r := GetAll(transactions, userId, f);
    assert r.limit == limit && r.offset == offset;
    assert r.docs == Window(m, offset, limit);
    WindowHolds(m, offset, limit);
  }

  /** Every match is listed: the j-th in newest-first order (counting from 0) is on page
      `j / limit + 1` at position `j % limit`. */
  lemma GetAllShowsEveryMatch(transactions: seq<Transaction>, userId: Id, f: ListFilters, limit: nat, j: nat)
    requires limit >= 1 && f.page == Some(PageOfRow(j, limit)) && f.limit == Some(limit)
    requires j < CountWhere(transactions, MatchesFilters(userId, f))
    ensures var m := NewestFirst(Filter(transactions, MatchesFilters(userId, f)));
      var pg := GetAll(transactions, userId, f).docs;
      PlaceOnPage(j, limit) < |pg| && j < |m| && pg[PlaceOnPage(j, limit)] == m[j]
  {
    var rows := Filter(transactions, MatchesFilters(userId, f));
    var p := PageOfRow(j, limit);
    var r := GetAll(transactions, userId, f);
    GetAllPageHoldsNewest(transactions, userId, f);
    assert r.limit == limit && r.page == p;
    assert r.offset == (r.page - 1) * r.limit;
    assert (r.page - 1) * r.limit == (p - 1) * limit;
    FilterLength(transactions, MatchesFilters(userId, f));
    NewestFirstFacts(rows);
    FromOnItsPage(r.docs, NewestFirst(rows), limit, j);
  }

  // ---------------------------------------------------------------------
  // getUserBalance

  datatype PeriodInfo = PeriodInfo(year: int, month: int, startDate: CalendarDate, endDate: CalendarDate, isCurrentMonth: bool)

  datatype UserBalance = UserBalance(
    income: int,
    expense: int,
    linkedExpenses: int,
    standaloneExpenses: int,
    balance: int,
    fixedAccountsTotal: int,
    loanAccountsTotal: int,
    totalAccounts: int,
    period: PeriodInfo)

  function IsLinked(t: Transaction): bool { t.accountId.Some? || t.installmentId.Some? }
  function IsLinkedExpense(t: Transaction): bool { t.kind != Income && IsLinked(t) }
  function IsStandaloneExpense(t: Transaction): bool { t.kind != Income && !IsLinked(t) }

  function OwnedBy(userId: Id): Account -> bool {
    (a: Account) => a.userId == userId
  }

  /** `Number(account.totalAmount) * 100` */
  function TotalCents(a: Account): int {
    if a.totalAmount.Some? then a.totalAmount.value * 100 else 0
  }

  function HasTotal(a: Account): bool { Truthy(a.totalAmount) }
  function IsLoanWithTotal(a: Account): bool { a.kind == Loan && Truthy(a.totalAmount) }
  function NotLoanWithTotal(a: Account): bool { a.kind != Loan && Truthy(a.totalAmount) }
  function IsFixedWithTotal(a: Account): bool { a.kind == Fixed && Truthy(a.totalAmount) }
  function NeitherWithTotal(a: Account): bool { a.kind != Loan && a.kind != Fixed && Truthy(a.totalAmount) }

  /** The reported period: the first and the last day of the month, and whether it is the current one. */
  function BalancePeriod(y: int, m: int, today: CalendarDate): PeriodInfo {
    PeriodInfo(y, m, DateUtc(y, m - 1, 1), DateUtc(y, m, 0), y == today.year && m == today.month)
  }

  /** getUserBalance: the month defaults to the current one; the loops accumulate the
      month's transactions and the user's accounts. */
  method GetUserBalance(db: Db, userId: Id, year: Option<int>, month: Option<int>, today: CalendarDate)
    returns (b: UserBalance)
    ensures var y := OrElse(year, today.year);
            var m := OrElse(month, today.month);
            var txs := Filter(db.transactions, InMonthOf(userId, y, m));
            var accs := Filter(db.accounts, OwnedBy(userId));
      b.income == SumWhere(txs, IsIncome, TxValue) &&
      b.expense == SumWhere(txs, IsNotIncome, TxValue) &&
      b.linkedExpenses == SumWhere(txs, IsLinkedExpense, TxValue) &&
      b.standaloneExpenses == b.expense - b.linkedExpenses &&
      b.balance == b.income - b.expense &&
      b.loanAccountsTotal == SumWhere(accs, IsLoanWithTotal, TotalCents) &&
      b.totalAccounts == SumWhere(accs, HasTotal, TotalCents) &&
      b.fixedAccountsTotal == SumWhere(accs, IsFixedWithTotal, TotalCents) &&
      b.period == BalancePeriod(y, m, today)
  {
    var y := OrElse(year, today.year);
    var m := OrElse(month, today.month);
    var period := BalancePeriod(y, m, today);
    var income, expense, linkedExpenses := SumTransactions(Filter(db.transactions, InMonthOf(userId, y, m)));
    var loanAccountsTotal, totalAccounts, fixedAccountsTotal := SumAccounts(Filter(db.accounts, OwnedBy(userId)));
    b := UserBalance(income, expense, linkedExpenses, expense - linkedExpenses, income - expense,
      fixedAccountsTotal, loanAccountsTotal, totalAccounts, period);
  }

  /** The first loop of getUserBalance. */
  method SumTransactions(txs: seq<Transaction>) returns (income: int, expense: int, linkedExpenses: int)
    ensures income == SumWhere(txs, IsIncome, TxValue)
    ensures expense == SumWhere(txs, IsNotIncome, TxValue)
    ensures linkedExpenses == SumWhere(txs, IsLinkedExpense, TxValue)
  {
    income, expense, linkedExpenses := 0, 0, 0;
    var k := 0;
    while k < |txs|
      invariant 0 <= k <= |txs|
      invariant income == SumWhere(txs[..k], IsIncome, TxValue)
      invariant expense == SumWhere(txs[..k], IsNotIncome, TxValue)
      invariant linkedExpenses == SumWhere(txs[..k], IsLinkedExpense, TxValue)
    {
      assert txs[..k + 1][..k] == txs[..k];
      var value := txs[k].value;
      if txs[k].kind == Income {
        income := income + value;
      } else {
        expense := expense + value;
        if txs[k].accountId.Some? || txs[k].installmentId.Some? {
          linkedExpenses := linkedExpenses + value;
        }
      }
      k := k + 1;
    }
    assert txs[..k] == txs;
  }

  /** The three account loops of getUserBalance; both branches of the FIXED case add `totalAmount * 100`. */
  method SumAccounts(accs: seq<Account>) returns (loanAccountsTotal: int, totalAccounts: int, fixedAccountsTotal: int)
    ensures loanAccountsTotal == SumWhere(accs, IsLoanWithTotal, TotalCents)
    ensures totalAccounts == SumWhere(accs, HasTotal, TotalCents)
    ensures fixedAccountsTotal == SumWhere(accs, IsFixedWithTotal, TotalCents)
  {
    loanAccountsTotal, totalAccounts, fixedAccountsTotal := 0, 0, 0;
    var k := 0;
    while k < |accs|
      invariant 0 <= k <= |accs|
      invariant loanAccountsTotal == SumWhere(accs[..k], IsLoanWithTotal, TotalCents)
      invariant totalAccounts == SumWhere(accs[..k], HasTotal, TotalCents)
      invariant fixedAccountsTotal == SumWhere(accs[..k], IsFixedWithTotal, TotalCents)
    {
      assert accs[..k + 1][..k] == accs[..k];
      var a := accs[k];
      if a.kind == Loan && Truthy(a.totalAmount) {
        loanAccountsTotal := loanAccountsTotal + a.totalAmount.value * 100;
      }
      if Truthy(a.totalAmount) {
        totalAccounts := totalAccounts + a.totalAmount.value * 100;
      }
      if a.kind == Fixed {
        if Truthy(a.installments) && Truthy(a.totalAmount) {
          fixedAccountsTotal := fixedAccountsTotal + a.totalAmount.value * 100;
        } else if Truthy(a.totalAmount) {
          fixedAccountsTotal := fixedAccountsTotal + a.totalAmount.value * 100;
        }
      }
      k := k + 1;
    }
    assert accs[..k] == accs;
  }

  /** The balance report's income and expense are the month's summary figures. */
  lemma BalanceAgreesWithSummary(accounts: seq<Account>, installments: seq<Installment>, transactions: seq<Transaction>,
                                 userId: Id, month: int, year: int)
    ensures MonthInput(accounts, installments, transactions, userId, month, year).totalIncome
            == SumWhere(Filter(transactions, InMonthOf(userId, year, month)), IsIncome, TxValue)
    ensures MonthInput(accounts, installments, transactions, userId, month, year).totalExpenses
            == SumWhere(Filter(transactions, InMonthOf(userId, year, month)), IsNotIncome, TxValue)
  {
  }

  /** The standalone expenses are the expenses tied to neither an account nor an installment. */
  lemma StandaloneExpensesAreUnlinked(txs: seq<Transaction>)
    ensures SumWhere(txs, IsNotIncome, TxValue) - SumWhere(txs, IsLinkedExpense, TxValue)
            == SumWhere(txs, IsStandaloneExpense, TxValue)
  {
    SumWhereSplit(txs, IsNotIncome, IsLinked, IsLinkedExpense, IsStandaloneExpense, TxValue);
  }

  /** The total over all accounts is the loan total, the fixed total and the rest. */
  lemma AccountTotalsSplit(accs: seq<Account>)
    ensures SumWhere(accs, HasTotal, TotalCents) ==
      SumWhere(accs, IsLoanWithTotal, TotalCents) + SumWhere(accs, IsFixedWithTotal, TotalCents) +
      SumWhere(accs, NeitherWithTotal, TotalCents)
  {
    var isLoan := (a: Account) => a.kind == Loan;
    var isFixed := (a: Account) => a.kind == Fixed;
    SumWhereSplit(accs, HasTotal, isLoan, IsLoanWithTotal, NotLoanWithTotal, TotalCents);
    SumWhereSplit(accs, NotLoanWithTotal, isFixed, IsFixedWithTotal, NeitherWithTotal, TotalCents);
  }

  // ---------------------------------------------------------------------
  // getExpensesByCategory and getAccountTypeName

  /** getAccountTypeName. The `?? 'Outros'` fallback cannot fire: the table names every type. */
  function AccountTypeName(t: AccountType): (r: string)
    ensures r != ""
    ensures r == "Outros" <==> t == Other
  {
    match t
    case Fixed => "Conta Fixa"
    case Loan => "Empréstimo"
    case CreditCard => "Cartão de Crédito"
    case DebitCard => "Cartão de Débito"
    case Subscription => "Assinatura"
    case Insurance => "Seguro"
    case Tax => "Imposto"
    case Pension => "Previdência"
    case Education => "Educação"
    case Health => "Saúde"
    case Other => "Outros"
  }

  /** Different types have different display names. */
  lemma AccountTypeNamesDistinct(a: AccountType, b: AccountType)
    requires a != b
    ensures AccountTypeName(a) != AccountTypeName(b)
  {
  }

  datatype ExpenseOptions = ExpenseOptions(startDate: Option<Instant>, endDate: Option<Instant>,
                                           year: Option<int>, month: Option<int>)

  datatype ItemSource = FromAccount | FromTransaction

  datatype CategoryItem = CategoryItem(
    category: string,
    name: string,
    nameEn: string,
    value: int,
    color: Lookup,
    source: ItemSource)

  /** Both dates when both are given, else the month (year, month) when both are set,
      else the current month. */
  function ExpenseRange(o: ExpenseOptions, today: CalendarDate): (Instant, Instant) {
    if o.startDate.Some? && o.endDate.Some? then (o.startDate.value, o.endDate.value)
    else if Truthy(o.year) && Truthy(o.month) then
      (MonthWindowStart(o.year.value, o.month.value), MonthWindowEnd(o.year.value, o.month.value))
    else (MonthWindowStart(today.year, today.month), MonthWindowEnd(today.year, today.month))
  }

  function ExpenseIn(userId: Id, lo: Instant, hi: Instant): Transaction -> bool {
    (t: Transaction) => t.userId == userId && t.kind == Expense && lo <= t.date <= hi
  }

  /** The `include: { account: true }` join. */
  function LinkedAccount(accounts: seq<Account>, t: Transaction): Option<Account> {
    if t.accountId.Some? then Find(accounts, AccountWithId(t.accountId.value)) else None
  }

  /** The grouping key: the linked account's type, else the category, else OTHER. */
  function CategoryKey(accounts: seq<Account>, t: Transaction): string {
    var a := LinkedAccount(accounts, t);
    if a.Some? then AccountTypeKey(a.value.kind)
    else if TruthyString(t.category) then t.category.value
    else "OTHER"
  }

  function KeyIs(accounts: seq<Account>, c: string): Transaction -> bool {
    (t: Transaction) => CategoryKey(accounts, t) == c
  }

  /** The entry a key gets when its first expense is seen; its colour is the lookup
      `getCategoryColor` performs as written. */
  function NewItem(accounts: seq<Account>, t: Transaction): CategoryItem {
    var a := LinkedAccount(accounts, t);
    var key := CategoryKey(accounts, t);
    if a.Some? then
      CategoryItem(key, AccountTypeName(a.value.kind), key, t.value, GetCategoryColorAsWritten(key), FromAccount)
    else if TruthyString(t.category) then
      CategoryItem(key, key, key, t.value, GetCategoryColorAsWritten(key), FromTransaction)
    else
      CategoryItem(key, "Outros", "Other", t.value, GetCategoryColorAsWritten(key), FromTransaction)
  }

  /** An item's colour is a table colour, the one `GetCategoryColor` picks, unless its key
      is a member name of `Object.prototype`, which only a free-text category can be. */
  lemma NewItemColour(accounts: seq<Account>, t: Transaction)
    ensures var key := CategoryKey(accounts, t);
      key !in PrototypeKeys ==> NewItem(accounts, t).color == Colour(GetCategoryColor(key))
    ensures LinkedAccount(accounts, t).Some? || !TruthyString(t.category) ==>
      CategoryKey(accounts, t) !in PrototypeKeys
  {
    var key := CategoryKey(accounts, t);
    if key !in PrototypeKeys {
      CorrectedAgreesAsWritten(key);
    }
  }

  /** A free-text category "constructor" puts the inherited member in the item's colour. */
  lemma InheritedCategoryColour(accounts: seq<Account>, t: Transaction)
    requires LinkedAccount(accounts, t).None? && t.category == Some("constructor")
    ensures NewItem(accounts, t).color == Inherited("constructor")
  {
    assert TruthyString(t.category);
    assert "constructor" !in OwnKeys;
  }

  /** `categoryMap.get(key)`: where the entry with that key sits. */
  function IndexOfKey(items: seq<CategoryItem>, key: string): (r: Option<nat>)
    ensures r.Some? ==> r.value < |items| && items[r.value].category == key
    ensures r.None? ==> forall i :: 0 <= i < |items| ==> items[i].category != key
    decreases |items|
  {
    if |items| == 0 then None
    else if items[|items| - 1].category == key then Some(|items| - 1)
    else IndexOfKey(items[..|items| - 1], key)
  }

  /** One turn of the grouping loop: add to the key's entry, or open one. */
  function AddExpense(items: seq<CategoryItem>, accounts: seq<Account>, t: Transaction): seq<CategoryItem> {
    var existing := IndexOfKey(items, CategoryKey(accounts, t));
    if existing.Some? then Added(items, existing.value, t.value)
    else items + [NewItem(accounts, t)]
  }

  /** The entry at `i` with a value added to it. */
  function Added(items: seq<CategoryItem>, i: nat, value: int): (r: seq<CategoryItem>)
    requires i < |items|
  {
    items[i := items[i].(value := items[i].value + value)]
  }

  /** The map's entries, in insertion order, after grouping `txs`. */
  function Group(accounts: seq<Account>, txs: seq<Transaction>): seq<CategoryItem>
    decreases |txs|
  {
    if |txs| == 0 then [] else AddExpense(Group(accounts, txs[..|txs| - 1]), accounts, txs[|txs| - 1])
  }

  function ItemValue(c: CategoryItem): int { c.value }

  /** The sort key of `b.value - a.value`. */
  function ValueDesc(c: CategoryItem): int { -c.value }

  lemma {:induction false} GroupKeysUnique(accounts: seq<Account>, txs: seq<Transaction>)
    ensures forall i, j :: 0 <= i < j < |Group(accounts, txs)| ==>
      Group(accounts, txs)[i].category != Group(accounts, txs)[j].category
    decreases |txs|
  {
    if |txs| > 0 {
      GroupKeysUnique(accounts, txs[..|txs| - 1]);
    }
  }

  /** A key has an entry exactly when some expense carries it. */
  lemma {:induction false} GroupCoversKeys(accounts: seq<Account>, txs: seq<Transaction>, c: string)
    ensures (exists i :: 0 <= i < |Group(accounts, txs)| && Group(accounts, txs)[i].category == c)
            <==> CountWhere(txs, KeyIs(accounts, c)) > 0
    decreases |txs|
  {
    if |txs| > 0 {
      var init, last := txs[..|txs| - 1], txs[|txs| - 1];
      GroupCoversKeys(accounts, init, c);
      assert Group(accounts, txs) == AddExpense(Group(accounts, init), accounts, last);
      AddExpenseCovers(Group(accounts, init), accounts, last, c);
      CountLast(txs, KeyIs(accounts, c));
    }
  }

  lemma CountLast<T>(s: seq<T>, p: T -> bool)
    requires |s| > 0
    ensures CountWhere(s, p) > 0 <==> CountWhere(s[..|s| - 1], p) > 0 || p(s[|s| - 1])
  {
  }

  lemma AddExpenseCovers(items: seq<CategoryItem>, accounts: seq<Account>, t: Transaction, c: string)
    ensures (exists i :: 0 <= i < |AddExpense(items, accounts, t)| && AddExpense(items, accounts, t)[i].category == c)
            <==> (exists i :: 0 <= i < |items| && items[i].category == c) || CategoryKey(accounts, t) == c
  {
    var r := AddExpense(items, accounts, t);
    var key := CategoryKey(accounts, t);
    match IndexOfKey(items, key)
    case Some(idx) =>
      assert |r| == |items|;
      assert forall i :: 0 <= i < |r| ==> r[i].category == items[i].category;
      assert items[idx].category == key;
    case None =>
      assert r == items + [NewItem(accounts, t)];
      assert r[|items|].category == key;
      assert forall i :: 0 <= i < |items| ==> r[i] == items[i];
  }

  /** Each entry holds the sum of the expenses with its key. */
  lemma {:induction false} GroupValues(accounts: seq<Account>, txs: seq<Transaction>, i: int)
    requires 0 <= i < |Group(accounts, txs)|
    ensures Group(accounts, txs)[i].value == SumWhere(txs, KeyIs(accounts, Group(accounts, txs)[i].category), TxValue)
    decreases |txs|
  {
    var init, last := txs[..|txs| - 1], txs[|txs| - 1];
    var g0, g := Group(accounts, init), Group(accounts, txs);
    var key := CategoryKey(accounts, last);
    var c := g[i].category;
    match IndexOfKey(g0, key)
    case Some(idx) =>
      GroupValues(accounts, init, i);
      if i != idx {
        GroupKeysUnique(accounts, init);
        assert g0[i].category != g0[idx].category;
      }
    case None =>
      if i < |g0| {
        GroupValues(accounts, init, i);
      } else {
        GroupCoversKeys(accounts, init, key);
        SumWhereOfNone(init, KeyIs(accounts, key), TxValue);
      }
  }

  /** The entries' values add up to the total of the expenses. */
  lemma {:induction false} GroupTotal(accounts: seq<Account>, txs: seq<Transaction>)
    ensures SumWhere(Group(accounts, txs), AnyRow, ItemValue) == SumWhere(txs, AnyRow, TxValue)
    decreases |txs|
  {
    if |txs| > 0 {
      var init, last := txs[..|txs| - 1], txs[|txs| - 1];
      GroupTotal(accounts, init);
      AddExpenseTotal(Group(accounts, init), accounts, last);
    }
  }

  lemma AddExpenseTotal(items: seq<CategoryItem>, accounts: seq<Account>, t: Transaction)
    ensures SumWhere(AddExpense(items, accounts, t), AnyRow, ItemValue) == SumWhere(items, AnyRow, ItemValue) + t.value
  {
    match IndexOfKey(items, CategoryKey(accounts, t))
    case Some(idx) =>
      SumWhereUpdate(items, idx, items[idx].(value := items[idx].value + t.value), AnyRow, ItemValue);
    case None =>
      var r := items + [NewItem(accounts, t)];
      assert r[..|items|] == items;
  }

  /** The grouping loop of getExpensesByCategory. */
  method GroupExpenses(accounts: seq<Account>, txs: seq<Transaction>) returns (items: seq<CategoryItem>)
    ensures items == Group(accounts, txs)
  {
    items := [];
    var k := 0;
    while k < |txs|
      invariant 0 <= k <= |txs|
      invariant items == Group(accounts, txs[..k])
    {
      GroupStep(accounts, txs, k);
      var t := txs[k];
      var key := CategoryKey(accounts, t);
      var existing := IndexOfKey(items, key);
      if existing.Some? {
        var i := existing.value;
        AddExpenseTo(items, accounts, t, i);
        items := Added(items, i, t.value);
      } else {
        AddExpenseNew(items, accounts, t);
        items := items + [NewItem(accounts, t)];
      }
      k := k + 1;
    }
    assert txs[..k] == txs;
  }

  lemma AddExpenseTo(items: seq<CategoryItem>, accounts: seq<Account>, t: Transaction, i: nat)
    requires IndexOfKey(items, CategoryKey(accounts, t)) == Some(i)
    ensures i < |items| && AddExpense(items, accounts, t) == Added(items, i, t.value)
  {
    var existing := IndexOfKey(items, CategoryKey(accounts, t));
    assert existing.Some? && existing.value == i;
  }

  lemma AddExpenseNew(items: seq<CategoryItem>, accounts: seq<Account>, t: Transaction)
    requires IndexOfKey(items, CategoryKey(accounts, t)) == None
    ensures AddExpense(items, accounts, t) == items + [NewItem(accounts, t)]
  {
  }

  lemma GroupStep(accounts: seq<Account>, txs: seq<Transaction>, k: int)
    requires 0 <= k < |txs|
    ensures Group(accounts, txs[..k + 1]) == AddExpense(Group(accounts, txs[..k]), accounts, txs[k])
  {
    assert txs[..k + 1][..k] == txs[..k];
  }

  /** getExpensesByCategory without the percentages: group the period's expenses by key,
      then sort by value, largest first. */
  method GetExpensesByCategory(db: Db, userId: Id, options: ExpenseOptions, today: CalendarDate)
    returns (categories: seq<CategoryItem>)
    ensures var range := ExpenseRange(options, today);
      categories == SortBy(Group(db.accounts, Filter(db.transactions, ExpenseIn(userId, range.0, range.1))), ValueDesc)
    ensures SortedBy(categories, ValueDesc)
    ensures var range := ExpenseRange(options, today);
      multiset(categories) == multiset(Group(db.accounts, Filter(db.transactions, ExpenseIn(userId, range.0, range.1))))
  {
    var range := ExpenseRange(options, today);
    var txs := Filter(db.transactions, ExpenseIn(userId, range.0, range.1));
    var items := GroupExpenses(db.accounts, txs);
    SortByFacts(items, ValueDesc);
    categories := SortBy(items, ValueDesc);
  }
}
