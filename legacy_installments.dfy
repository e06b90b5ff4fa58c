// The older installments service: lookups by account and a paid-status
// update that reads the row itself, by id, before writing it.
module LegacyInstallments {
  import opened Common
  import opened Calendar
  import opened Entities
  import opened Store
  import opened Installments

  function NotFoundMessage(id: Id): string {
    "Installment with id " + NatText(id) + " not found"
  }

  function FindById(installments: seq<Installment>, id: Id): (r: Result<Installment>)
    ensures r.Ok? ==> r.value in installments && r.value.id == id
    ensures r.Err? <==> forall k :: 0 <= k < |installments| ==> installments[k].id != id
    ensures r.Err? ==> r.error == NotFound(NotFoundMessage(id))
  {
    match Find(installments, InstallmentWithId(id))
    case None => Err(NotFound(NotFoundMessage(id)))
    case Some(i) => Ok(i)
  }

  /** `findMany({ where: { accountId }, orderBy: { number: 'asc' } })`. */
  function FindByAccount(installments: seq<Installment>, accountId: Id): (r: seq<Installment>)
    ensures SortedBy(r, InstallmentNumber)
    ensures forall x :: x in r <==> x in installments && x.accountId == accountId
    ensures multiset(r) == multiset(Filter(installments, InstallmentsOf(accountId)))
  {
    AccountScheduleFacts(installments, accountId);
    AccountSchedule(installments, accountId)
  }

  /** The account's unpaid installments in number order. */
  function FindUnpaidByAccount(installments: seq<Installment>, accountId: Id): (r: seq<Installment>)
    ensures SortedBy(r, InstallmentNumber)
    ensures forall x :: x in r <==> x in installments && x.accountId == accountId && !x.isPaid
    ensures multiset(r) == multiset(Filter(installments, UnpaidOf(accountId)))
  {
    SortedFilter(installments, UnpaidOf(accountId));
    SortBy(Filter(installments, UnpaidOf(accountId)), InstallmentNumber)
  }

  /** `where: { accountId, isPaid: false, dueDate: { lt: referenceDate } }`. */
  function OverdueOf(accountId: Id, referenceDate: Instant): Installment -> bool {
    (i: Installment) => i.accountId == accountId && !i.isPaid && StartOfDay(i.dueDate) < referenceDate
  }

  /** The account's unpaid installments due strictly before `referenceDate`, in number order. */
  function FindOverdueByAccount(installments: seq<Installment>, accountId: Id, referenceDate: Instant): (r: seq<Installment>)
    ensures SortedBy(r, InstallmentNumber)
    ensures forall x :: x in r <==>
      x in installments && x.accountId == accountId && !x.isPaid && StartOfDay(x.dueDate) < referenceDate
    ensures multiset(r) == multiset(Filter(installments, OverdueOf(accountId, referenceDate)))
  {
    SortedFilter(installments, OverdueOf(accountId, referenceDate));
    SortBy(Filter(installments, OverdueOf(accountId, referenceDate)), InstallmentNumber)
  }

  /** Sorting a filtered table keeps exactly the rows that pass the filter. */
  lemma SortedFilter(installments: seq<Installment>, p: Installment -> bool)
    ensures SortedBy(SortBy(Filter(installments, p), InstallmentNumber), InstallmentNumber)
    ensures multiset(SortBy(Filter(installments, p), InstallmentNumber)) == multiset(Filter(installments, p))
    ensures forall x :: x in SortBy(Filter(installments, p), InstallmentNumber) <==> x in installments && p(x)
  {
    var f := Filter(installments, p);
    SortByFacts(f, InstallmentNumber);
    forall x ensures x in SortBy(f, InstallmentNumber) <==> x in installments && p(x) {
      FilterMember(installments, p, x);
      assert x in multiset(SortBy(f, InstallmentNumber)) <==> x in multiset(f);
    }
  }

  /** Every overdue installment is also an unpaid one. */
  lemma OverdueAreUnpaid(installments: seq<Installment>, accountId: Id, referenceDate: Instant, x: Installment)
    requires x in FindOverdueByAccount(installments, accountId, referenceDate)
    ensures x in FindUnpaidByAccount(installments, accountId)
  {
  }

  /** The table after `updatePaidStatus(id, isPaid)`: unchanged when no row has the id. */
  function PaidStatusUpdate(installments: seq<Installment>, id: Id, isPaid: bool, now: Instant): seq<Installment> {
    match Find(installments, InstallmentWithId(id))
    case None => installments
    case Some(existing) =>
      var p := PaidTransition(existing, isPaid, now);
      UpdateWhere(installments, InstallmentWithId(id), WritePaid(p.isPaid, p.paidAt))
  }

  /** updatePaidStatus(id, isPaid): load the row, decide paidAt from it, write both fields. */
  method UpdatePaidStatus(db: Db, id: Id, isPaid: bool, now: Instant) returns (r: Result<Installment>)
    requires db.Valid()
    modifies db`installments
    ensures db.Valid()
    ensures db.installments == PaidStatusUpdate(old(db.installments), id, isPaid, now)
    ensures FindById(old(db.installments), id).Err? ==> r == Err(NotFound(NotFoundMessage(id)))
    ensures FindById(old(db.installments), id).Ok? ==>
      r == Ok(PaidTransition(FindById(old(db.installments), id).value, isPaid, now))
  {
    var existing := Find(db.installments, InstallmentWithId(id));
    if existing.None? {
      return Err(NotFound(NotFoundMessage(id)));
    }
    var wasPaid := existing.value.isPaid;
    var paidAt := existing.value.paidAt;
    if isPaid && !wasPaid {
      paidAt := Some(now);
    } else if !isPaid && wasPaid {
      paidAt := None;
    }
    UpdateKeyed(db.installments, InstallmentWithId(id), WritePaid(isPaid, paidAt), InstallmentKey, db.nextId);
    db.SetInstallments(UpdateWhere(db.installments, InstallmentWithId(id), WritePaid(isPaid, paidAt)));
    r := Ok(existing.value.(isPaid := isPaid, paidAt := paidAt));
  }

  method MarkAsPaid(db: Db, id: Id, now: Instant) returns (r: Result<Installment>)
    requires db.Valid()
    modifies db`installments
    ensures db.Valid()
    ensures db.installments == PaidStatusUpdate(old(db.installments), id, true, now)
    ensures FindById(old(db.installments), id).Err? ==> r == Err(NotFound(NotFoundMessage(id)))
    ensures FindById(old(db.installments), id).Ok? ==>
      r == Ok(PaidTransition(FindById(old(db.installments), id).value, true, now))
  {
    r := UpdatePaidStatus(db, id, true, now);
  }

  method MarkAsUnpaid(db: Db, id: Id, now: Instant) returns (r: Result<Installment>)
    requires db.Valid()
    modifies db`installments
    ensures db.Valid()
    ensures db.installments == PaidStatusUpdate(old(db.installments), id, false, now)
    ensures FindById(old(db.installments), id).Err? ==> r == Err(NotFound(NotFoundMessage(id)))
    ensures FindById(old(db.installments), id).Ok? ==>
      r == Ok(PaidTransition(FindById(old(db.installments), id).value, false, now))
  {
    r := UpdatePaidStatus(db, id, false, now);
  }

  /** A missing id changes nothing. */
  lemma MissingIdChangesNothing(installments: seq<Installment>, id: Id, isPaid: bool, now: Instant)
    requires FindById(installments, id).Err?
    ensures PaidStatusUpdate(installments, id, isPaid, now) == installments
  {
  }

  /** Marking paid (or unpaid) twice is marking it once: the second pass finds the
      status already set and keeps the first payment time. */
  lemma PaidStatusUpdateIdempotent(installments: seq<Installment>, id: Id, isPaid: bool, t1: Instant, t2: Instant)
    ensures PaidStatusUpdate(PaidStatusUpdate(installments, id, isPaid, t1), id, isPaid, t2)
      == PaidStatusUpdate(installments, id, isPaid, t1)
  {
    var sel := InstallmentWithId(id);
    match Find(installments, sel)
    case None =>
    case Some(existing) =>
      var p := PaidTransition(existing, isPaid, t1);
      var f := WritePaid(p.isPaid, p.paidAt);
      FindUpdated(installments, sel, f);
      UpdateWhereTwice(installments, sel, f, f);
  }

  /** The update touches only the row with that id, and only its two status fields. */
  lemma PaidStatusUpdateTouchesOnlyThatRow(installments: seq<Installment>, id: Id, isPaid: bool, now: Instant, k: int)
    requires 0 <= k < |installments|
    ensures |PaidStatusUpdate(installments, id, isPaid, now)| == |installments|
    ensures var r := PaidStatusUpdate(installments, id, isPaid, now)[k];
      r.(isPaid := installments[k].isPaid, paidAt := installments[k].paidAt) == installments[k]
    ensures installments[k].id != id ==> PaidStatusUpdate(installments, id, isPaid, now)[k] == installments[k]
    ensures installments[k].id == id ==> PaidStatusUpdate(installments, id, isPaid, now)[k].isPaid == isPaid
  {
  }
}
