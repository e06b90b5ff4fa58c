// The older accounts service. It shares the module copy's read side (getByIdFull,
// getPeriodStatisticsTyped) and its mark-paid guards, and differs in how it creates,
// updates and deletes: each reference field defaults on its own, a LOAN needs only
// one amount, schedules are always an even split and are appended on update, the
// delete removes the account row alone, and the summary and payment collaborators
// it calls always reject.
module LegacyAccounts {
  import opened Common
  import opened Calendar
  import opened Entities
  import opened Store
  import Accounts
  import Installments
  import Transactions
  import LegacySummaries
  import Summaries = MonthlySummaries

  const LoanNeedsAnAmount := "LOAN accounts require totalAmount or installmentAmount"

  // ---------------------------------------------------------------------
  // calculateLoanAmounts

  /** The placeholder loan maths, computed here in exact arithmetic (the service computes
      in doubles). */
  datatype LoanCalculation = LoanCalculation(totalAmount: real, monthlyPayment: real, totalInterest: real,
                                             monthlyInterestRate: real)

  /** calculateLoanAmounts: payment principal/n, interest payment·n − principal, total
      principal + interest, and the constant 1% rate. In exact arithmetic the interest is
      zero and the total is the principal; the service's doubles can leave a last-bit
      remainder in the interest and the total. */
  function CalculateLoanAmounts(principal: int, installments: int): (r: LoanCalculation)
    requires installments != 0
    ensures r.monthlyPayment * installments as real == principal as real
    ensures r.totalInterest == 0.0 && r.totalAmount == principal as real
    ensures r.monthlyInterestRate == 0.01
  {
    var payment := principal as real / installments as real;
    var interest := payment * installments as real - principal as real;
    LoanCalculation(principal as real + interest, payment, interest, 0.01)
  }

  // ---------------------------------------------------------------------
  // create

  /** `referenceMonth ?? startDate month` and `referenceYear ?? startDate year`, each on its own. */
  function CreatePeriod(i: Accounts.CreateInput): (r: Accounts.Period)
    ensures r.month == (if i.referenceMonth.Some? then i.referenceMonth.value else i.startDate.month)
    ensures r.year == (if i.referenceYear.Some? then i.referenceYear.value else i.startDate.year)
  {
    Summaries.Period(OrElse(i.referenceMonth, i.startDate.month), OrElse(i.referenceYear, i.startDate.year))
  }

  /** The two copies pick the same period when both reference fields are given, and when
      neither is given for an account the closing-day rule does not apply to. They differ
      when only one is given: this copy keeps it, the module copy uses the start date. */
  lemma PeriodsAgree(i: Accounts.CreateInput, today: CalendarDate)
    requires ValidDate(today) && Accounts.ValidCreateInput(i)
    ensures Truthy(i.referenceMonth) && Truthy(i.referenceYear) ==> CreatePeriod(i) == Accounts.CreatePeriod(i, today)
    ensures i.referenceMonth.None? && i.referenceYear.None? && !(i.kind == CreditCard && Truthy(i.closingDate)) ==>
      CreatePeriod(i) == Accounts.CreatePeriod(i, today)
    ensures Truthy(i.referenceMonth) && i.referenceYear.None? && !(i.kind == CreditCard && Truthy(i.closingDate)) ==>
      CreatePeriod(i) == Summaries.Period(i.referenceMonth.value, i.startDate.year) &&
      Accounts.CreatePeriod(i, today) == Summaries.Period(i.startDate.month, i.startDate.year)
  {
  }

  /** The stored totalAmount: a LOAN with installments takes the loan total when it has a
      totalAmount, else installmentAmount × installments, and is rejected with neither. */
  function CreateTotal(i: Accounts.CreateInput): (r: Result<Option<int>>)
    ensures r.Err? <==>
      i.kind == Loan && Truthy(i.installments) && !Truthy(i.totalAmount) && !Truthy(i.installmentAmount)
    ensures r.Err? ==> r.error == BadRequest(LoanNeedsAnAmount)
    ensures r.Ok? && i.kind == Loan && Truthy(i.installments) && !Truthy(i.totalAmount) ==>
      r.value == Some(i.installmentAmount.value * i.installments.value)
    ensures r.Ok? && !(i.kind == Loan && Truthy(i.installments) && !Truthy(i.totalAmount)) ==>
      r.value == i.totalAmount
  {
    if i.kind == Loan && Truthy(i.installments) then
      if Truthy(i.totalAmount) then
        var loan := CalculateLoanAmounts(i.totalAmount.value, i.installments.value);
        Ok(Some(loan.totalAmount.Floor))
      else if Truthy(i.installmentAmount) then Ok(Some(i.installmentAmount.value * i.installments.value))
      else Err(BadRequest(LoanNeedsAnAmount))
    else Ok(i.totalAmount)
  }

  /** The schedule this copy generates: always the even split of totalAmount, and only
      when both installments and totalAmount are set. */
  function EvenSchedule(a: Account, firstId: nat, fails: bool): (r: seq<Installment>)
    requires Accounts.WellFormed(a)
    ensures |r| == if Truthy(a.installments) && Truthy(a.totalAmount) && !fails then a.installments.value else 0
    ensures forall k :: 0 <= k < |r| ==> r[k].accountId == a.id && r[k].number == k + 1 && !r[k].isPaid
    ensures SumWhere(r, AnyRow, Accounts.AmountOf) == if |r| == 0 then 0 else a.totalAmount.value
  {
    if Truthy(a.installments) && Truthy(a.totalAmount) && !fails then
      var base := Installments.NormalizeStartDate(Installments.DateValue(a.startDate));
      var plan := Installments.EvenSplit(a.id, a.totalAmount.value, a.installments.value, base, a.dueDay);
      Installments.EvenSplitSum(a.id, a.totalAmount.value, a.installments.value, base, a.dueDay);
      RowsSum(plan, firstId);
      Installments.Rows(plan, firstId)
    else []
  }

  /** Storing a plan keeps its amounts. */
  lemma {:induction false} RowsSum(plan: seq<Installments.InstallmentData>, firstId: nat)
    ensures SumWhere(Installments.Rows(plan, firstId), AnyRow, Accounts.AmountOf) ==
            SumWhere(plan, AnyRow, Installments.DataAmount)
    decreases |plan|
  {
    if |plan| > 0 {
      var n := |plan|;
      assert Installments.Rows(plan, firstId)[..n - 1] == Installments.Rows(plan[..n - 1], firstId);
      RowsSum(plan[..n - 1], firstId);
    }
  }

  /** The shared generator, given no installment amount, is this copy's even split. */
  lemma EvenScheduleIsGenerated(a: Account, firstId: nat, fails: bool)
    requires Accounts.WellFormed(a)
    ensures Accounts.Generated(a, None, firstId, fails) == EvenSchedule(a, firstId, fails)
  {
  }

  /** create: store the row, generate the even split (a failure is swallowed), request the
      summary (the stub rejects; swallowed) and return the full view. */
  method Create(db: Db, input: Accounts.CreateInput, faults: Accounts.Faults) returns (r: Result<Accounts.AccountView>)
    requires db.Valid() && Accounts.AllWellFormed(db.accounts) && Accounts.ValidCreateInput(input)
    modifies db`accounts, db`installments, db`nextId
    ensures db.Valid() && Accounts.AllWellFormed(db.accounts)
    ensures CreateTotal(input).Err? ==> r == Err(CreateTotal(input).error) && unchanged(db)
    ensures CreateTotal(input).Ok? ==>
      var a := Accounts.NewAccount(input, Accounts.Amounts(CreateTotal(input).value, input.installmentAmount),
                                   CreatePeriod(input), old(db.nextId));
      db.accounts == old(db.accounts) + [a] &&
      db.installments == old(db.installments) + EvenSchedule(a, old(db.nextId) + 1, faults.scheduleFails) &&
      r == Accounts.GetByIdFull(db.accounts, db.installments, a.id, faults.listFails) &&
      r.Ok? && r.value.account == a
  {
    var total := CreateTotal(input);
    if total.Err? {
      return Err(total.error);
    }
    var period := CreatePeriod(input);
    var a := Accounts.AppendAccount(db, input, Accounts.Amounts(total.value, input.installmentAmount), period);
    EvenScheduleIsGenerated(a, db.nextId, faults.scheduleFails);
    Accounts.GenerateSchedule(db, a, None, faults.scheduleFails);
    var summaries := LegacySummaries.GenerateSummariesForAccount(db, a.id, [period]);
    FindAppended(old(db.accounts), a, db.installments, faults.listFails);
    r := Accounts.GetByIdFull(db.accounts, db.installments, a.id, faults.listFails);
  }

  /** A freshly appended row is what the full view finds. */
  lemma FindAppended(accounts: seq<Account>, a: Account, installments: seq<Installment>, listFails: bool)
    requires Find(accounts + [a], AccountWithId(a.id)) == Some(a)
    ensures Accounts.GetByIdFull(accounts + [a], installments, a.id, listFails).Ok?
    ensures Accounts.GetByIdFull(accounts + [a], installments, a.id, listFails).value.account == a
  {
  }

  // ---------------------------------------------------------------------
  // update

  /** Whether the LOAN recomputation runs. */
  predicate RecalculatesLoan(existing: Account, patch: Accounts.AccountPatch) {
    patch.kind == Some(Loan) || (existing.kind == Loan && (patch.totalAmount.Some? || patch.installments.Some?))
  }

  /** The totalAmount the update writes. The LOAN recomputation, when it runs with a
      positive total and count, writes the loan total, which in exact arithmetic is the
      total it started from, so the stored value is the patch's or else the existing one
      (up to the last-bit drift of the service's doubles). */
  function UpdatedTotal(existing: Account, patch: Accounts.AccountPatch): (r: Option<int>)
    ensures r == OrOption(patch.totalAmount, existing.totalAmount)
  {
    var written := OrOption(patch.totalAmount, existing.totalAmount);
    if RecalculatesLoan(existing, patch) then
      var total := OrElse(patch.totalAmount, OrElse(existing.totalAmount, 0));
      var n := OrElse(patch.installments, OrElse(existing.installments, 0));
      if total > 0 && n > 0 then Some(CalculateLoanAmounts(total, n).totalAmount.Floor) else written
    else written
  }

  /** `updateData`, built field by field: a field the patch leaves undefined is not written. */
  function ApplyPatch(a: Account, patch: Accounts.AccountPatch): (r: Account)
    ensures r.id == a.id && r.userId == a.userId
    ensures r.totalAmount == UpdatedTotal(a, patch)
    ensures patch == Accounts.EmptyPatch() ==> r == a
  {
    a.(name := OrElse(patch.name, a.name),
       kind := OrElse(patch.kind, a.kind),
       startDate := OrElse(patch.startDate, a.startDate),
       dueDay := OrElse(patch.dueDay, a.dueDay),
       totalAmount := UpdatedTotal(a, patch),
       installments := OrOption(patch.installments, a.installments),
       isPaid := OrElse(patch.isPaid, a.isPaid),
       isPreview := OrElse(patch.isPreview, a.isPreview),
       referenceMonth := OrOption(patch.referenceMonth, a.referenceMonth),
       referenceYear := OrOption(patch.referenceYear, a.referenceYear),
       creditLimit := OrOption(patch.creditLimit, a.creditLimit),
       creditCardId := OrElse(patch.creditCardId, a.creditCardId))
  }

  function PatchWith(patch: Accounts.AccountPatch): Account -> Account {
    (a: Account) => ApplyPatch(a, patch)
  }

  /** Whether the update generates a schedule: a schedule field is in the patch and the
      updated row has installments and a totalAmount. */
  predicate Regenerates(patch: Accounts.AccountPatch, updated: Account) {
    (patch.installments.Some? || patch.totalAmount.Some? || patch.startDate.Some? || patch.dueDay.Some?) &&
    Truthy(updated.installments) && Truthy(updated.totalAmount)
  }

  /** The months the update asks the (rejecting) recalculation for. */
  function UpdateMonths(updated: Account, today: CalendarDate): seq<Summaries.Period> {
    [Summaries.Period(OrElse(updated.referenceMonth, today.month), OrElse(updated.referenceYear, today.year))]
  }

  /** Writes the patched row. */
  method WritePatch(db: Db, id: Id, patch: Accounts.AccountPatch, existing: Account)
    requires db.Valid() && Accounts.AllWellFormed(db.accounts) && Accounts.ValidPatch(patch)
    requires Find(db.accounts, AccountWithId(id)) == Some(existing)
    modifies db`accounts
    ensures db.Valid() && Accounts.AllWellFormed(db.accounts)
    ensures db.accounts == UpdateWhere(old(db.accounts), AccountWithId(id), PatchWith(patch))
    ensures Find(db.accounts, AccountWithId(id)) == Some(ApplyPatch(existing, patch))
    ensures Accounts.WellFormed(ApplyPatch(existing, patch))
  {
    UpdateKeyed(db.accounts, AccountWithId(id), PatchWith(patch), AccountKey, db.nextId);
    FindUpdated(db.accounts, AccountWithId(id), PatchWith(patch));
    PatchedStayWellFormed(db.accounts, id, patch);
    PatchKeepsWellFormed(existing, patch);
    db.SetAccounts(UpdateWhere(db.accounts, AccountWithId(id), PatchWith(patch)));
  }

  /** A valid patch keeps an account well formed. */
  lemma PatchKeepsWellFormed(a: Account, patch: Accounts.AccountPatch)
    requires Accounts.WellFormed(a) && Accounts.ValidPatch(patch)
    ensures Accounts.WellFormed(ApplyPatch(a, patch))
  {
  }

  lemma PatchedStayWellFormed(accounts: seq<Account>, id: Id, patch: Accounts.AccountPatch)
    requires Accounts.AllWellFormed(accounts) && Accounts.ValidPatch(patch)
    ensures Accounts.AllWellFormed(UpdateWhere(accounts, AccountWithId(id), PatchWith(patch)))
  {
    var after := UpdateWhere(accounts, AccountWithId(id), PatchWith(patch));
    forall k | 0 <= k < |after| ensures Accounts.WellFormed(after[k]) {
      PatchKeepsWellFormed(accounts[k], patch);
    }
  }

  /** The schedule part of the update: a fresh even split is appended when a schedule
      field changed. */
  method AppendSchedule(db: Db, patch: Accounts.AccountPatch, updated: Account, fails: bool)
    requires db.Valid() && Accounts.WellFormed(updated)
    modifies db`installments, db`nextId
    ensures db.Valid()
    ensures db.installments == old(db.installments) +
      (if Regenerates(patch, updated) then EvenSchedule(updated, old(db.nextId), fails) else [])
  {
    if Regenerates(patch, updated) {
      EvenScheduleIsGenerated(updated, db.nextId, fails);
      Accounts.GenerateSchedule(db, updated, None, fails);
    }
  }

  /** update: write the fields the patch sets, append a fresh even split when a schedule
      field changed (the old rows are not deleted; a failure is swallowed), request the
      summary (rejected; swallowed) and return the full view. */
  method Update(db: Db, id: Id, patch: Accounts.AccountPatch, today: CalendarDate, faults: Accounts.Faults)
    returns (r: Result<Accounts.AccountView>)
    requires db.Valid() && Accounts.AllWellFormed(db.accounts) && Accounts.ValidPatch(patch)
    modifies db`accounts, db`installments, db`nextId
    ensures db.Valid() && Accounts.AllWellFormed(db.accounts)
    ensures Find(old(db.accounts), AccountWithId(id)).None? ==>
      r == Err(NotFound(Accounts.MissingAccount(id))) && unchanged(db)
    ensures Find(old(db.accounts), AccountWithId(id)).Some? ==>
      var updated := ApplyPatch(Find(old(db.accounts), AccountWithId(id)).value, patch);
      Accounts.WellFormed(updated) &&
      db.accounts == UpdateWhere(old(db.accounts), AccountWithId(id), PatchWith(patch)) &&
      db.installments == old(db.installments) +
        (if Regenerates(patch, updated) then EvenSchedule(updated, old(db.nextId), faults.scheduleFails) else []) &&
      r == Accounts.GetByIdFull(db.accounts, db.installments, id, faults.listFails) &&
      r.Ok? && r.value.account == updated
  {
    var found := Find(db.accounts, AccountWithId(id));
    if found.None? {
      return Err(NotFound(Accounts.MissingAccount(id)));
    }
    r := UpdateFound(db, id, patch, found.value, today, faults);
  }

  /** The update of an account that exists. */
  method UpdateFound(db: Db, id: Id, patch: Accounts.AccountPatch, existing: Account, today: CalendarDate,
                     faults: Accounts.Faults)
    returns (r: Result<Accounts.AccountView>)
    requires db.Valid() && Accounts.AllWellFormed(db.accounts) && Accounts.ValidPatch(patch)
    requires Find(db.accounts, AccountWithId(id)) == Some(existing)
    modifies db`accounts, db`installments, db`nextId
    ensures db.Valid() && Accounts.AllWellFormed(db.accounts)
    ensures var updated := ApplyPatch(existing, patch);
      Accounts.WellFormed(updated) &&
      db.accounts == UpdateWhere(old(db.accounts), AccountWithId(id), PatchWith(patch)) &&
      db.installments == old(db.installments) +
        (if Regenerates(patch, updated) then EvenSchedule(updated, old(db.nextId), faults.scheduleFails) else []) &&
      r == Accounts.GetByIdFull(db.accounts, db.installments, id, faults.listFails) &&
      r.Ok? && r.value.account == updated
  {
    WritePatch(db, id, patch, existing);
    var updated := ApplyPatch(existing, patch);
    AppendSchedule(db, patch, updated, faults.scheduleFails);
    var summaries := LegacySummaries.RecalculateSummariesForMonths(db, updated.userId, UpdateMonths(updated, today));
    r := Accounts.GetByIdFull(db.accounts, db.installments, id, faults.listFails);
    Accounts.ViewOfFound(db.accounts, db.installments, id, faults.listFails, updated);
  }

  /** Because the update appends, an account that already had a schedule ends up with two
      installments numbered 1 once a regeneration succeeds. */
  lemma {:induction false} AppendedScheduleRepeatsNumbers(installments: seq<Installment>, a: Account, firstId: nat)
    requires Accounts.WellFormed(a) && Truthy(a.installments) && Truthy(a.totalAmount)
    requires exists j :: 0 <= j < |installments| && installments[j].accountId == a.id && installments[j].number == 1
    ensures CountWhere(installments + EvenSchedule(a, firstId, false), NumberedOf(a.id, 1)) >= 2
  {
    var appended := EvenSchedule(a, firstId, false);
    CountWhereAppend(installments, appended, NumberedOf(a.id, 1));
    CountWherePositive(installments, NumberedOf(a.id, 1));
    assert NumberedOf(a.id, 1)(appended[0]);
    CountWherePositive(appended, NumberedOf(a.id, 1));
  }

  function NumberedOf(accountId: Id, number: int): Installment -> bool {
    (i: Installment) => i.accountId == accountId && i.number == number
  }

  // ---------------------------------------------------------------------
  // delete / deleteAccount

  /** delete: removes the account row alone; its installments and transactions stay.
      The summary request is rejected and swallowed. */
  method Delete(db: Db, id: Id) returns (r: Result<Account>)
    requires db.Valid()
    modifies db`accounts
    ensures db.Valid()
    ensures Accounts.AllWellFormed(old(db.accounts)) ==> Accounts.AllWellFormed(db.accounts)
    ensures Find(old(db.accounts), AccountWithId(id)).None? ==>
      r == Err(NotFound(Accounts.MissingAccount(id))) && unchanged(db)
    ensures Find(old(db.accounts), AccountWithId(id)).Some? ==>
      r == Ok(Find(old(db.accounts), AccountWithId(id)).value) &&
      db.accounts == Filter(old(db.accounts), Accounts.OtherAccount(id)) &&
      (forall a :: a in db.accounts <==> a in old(db.accounts) && a.id != id) &&
      db.installments == old(db.installments) && db.transactions == old(db.transactions)
  {
    var found := Find(db.accounts, AccountWithId(id));
    if found.None? {
      return Err(NotFound(Accounts.MissingAccount(id)));
    }
    var a := found.value;
    FilterKeyed(db.accounts, Accounts.OtherAccount(id), AccountKey, db.nextId);
    Accounts.DeleteLeavesNoDanglingRows(db.accounts, db.installments, db.transactions, id);
    ghost var before := db.accounts;
    db.SetAccounts(Filter(db.accounts, Accounts.OtherAccount(id)));
    if Accounts.AllWellFormed(before) {
      forall k | 0 <= k < |db.accounts| ensures Accounts.WellFormed(db.accounts[k]) {
        FilterMember(before, Accounts.OtherAccount(id), db.accounts[k]);
      }
    }
    var months := if Truthy(a.referenceMonth) && Truthy(a.referenceYear)
                  then [Summaries.Period(a.referenceMonth.value, a.referenceYear.value)] else [];
    if |months| > 0 {
      var summaries := LegacySummaries.RecalculateSummariesForMonths(db, a.userId, months);
    }
    r := Ok(a);
  }

  // ---------------------------------------------------------------------
  // markAsPaidFull

  /** markAsPaidFull: the module copy's guards, then the installments are settled
      (failure swallowed) and the account is marked paid and no longer a preview. The
      payment collaborator this copy calls always rejects, so no transaction is made. */
  method MarkAsPaidFull(db: Db, accountId: Id, userId: Id, paymentAmount: Option<int>, now: Instant,
                        faults: Accounts.Faults)
    returns (r: Result<Accounts.MarkPaidResult>)
    requires db.Valid()
    modifies db`accounts, db`installments
    ensures db.Valid()
    ensures Accounts.AllWellFormed(old(db.accounts)) ==> Accounts.AllWellFormed(db.accounts)
    ensures Accounts.MarkPaidCheck(old(db.accounts), accountId, userId, paymentAmount).Err? ==>
      r == Err(Accounts.MarkPaidCheck(old(db.accounts), accountId, userId, paymentAmount).error) && unchanged(db)
    ensures Accounts.MarkPaidCheck(old(db.accounts), accountId, userId, paymentAmount).Ok? ==>
      var a := Accounts.MarkPaidCheck(old(db.accounts), accountId, userId, paymentAmount).value;
      db.installments == (if Truthy(a.installments) && !faults.installmentsFail
                          then UpdateWhere(old(db.installments), UnpaidOf(accountId), Transactions.MarkPaidAt(now))
                          else old(db.installments)) &&
      db.accounts == UpdateWhere(old(db.accounts), AccountWithId(accountId), Accounts.Settle) &&
      db.transactions == old(db.transactions) &&
      r == Ok(Accounts.MarkPaidResult(Accounts.Settle(a), None))
  {
    var checked := Accounts.MarkPaidCheck(db.accounts, accountId, userId, paymentAmount);
    if checked.Err? {
      return Err(checked.error);
    }
    var a := checked.value;
    if Truthy(a.installments) && !faults.installmentsFail {
      Installments.MarkAllUnpaidAsPaid(db, accountId, now);
    }
    Accounts.SettleAccount(db, accountId, a);
    r := Ok(Accounts.MarkPaidResult(Accounts.Settle(a), None));
  }
}
