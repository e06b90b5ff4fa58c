// The database the services share, as tables held by one object. Each
// table is the sequence of its rows in insertion order; `nextId` hands out
// fresh primary keys.
module Store {
  import opened Common
  import opened Entities

  class Db {
    var accounts: seq<Account>
    var installments: seq<Installment>
    var transactions: seq<Transaction>
    var summaries: seq<MonthlySummary>
    var cardItems: seq<CardLink>
    var nextId: nat

    /** Primary keys are unique and below `nextId`; at most one summary per
        (user, year, month); a card and an account are linked at most once. */
    ghost predicate Valid()
      reads this
    {
      KeyedBelow(accounts, AccountKey, nextId) &&
      KeyedBelow(installments, InstallmentKey, nextId) &&
      KeyedBelow(transactions, TransactionKey, nextId) &&
      SummaryKeysUnique(summaries) &&
      LinksUnique(cardItems)
    }

    constructor ()
      ensures Valid()
      ensures accounts == [] && installments == [] && transactions == []
      ensures summaries == [] && cardItems == [] && nextId == 0
    {
      accounts, installments, transactions := [], [], [];
      summaries, cardItems := [], [];
      nextId := 0;
    }

    /** Writes the accounts table; the rows keep their keys unique and below the counter. */
    method SetAccounts(rows: seq<Account>)
      requires Valid() && KeyedBelow(rows, AccountKey, nextId)
      modifies this`accounts
      ensures Valid() && accounts == rows
    {
      accounts := rows;
    }

    method SetInstallments(rows: seq<Installment>)
      requires Valid() && KeyedBelow(rows, InstallmentKey, nextId)
      modifies this`installments
      ensures Valid() && installments == rows
    {
      installments := rows;
    }

    method SetTransactions(rows: seq<Transaction>)
      requires Valid() && KeyedBelow(rows, TransactionKey, nextId)
      modifies this`transactions
      ensures Valid() && transactions == rows
    {
      transactions := rows;
    }

    method SetSummaries(rows: seq<MonthlySummary>)
      requires Valid() && SummaryKeysUnique(rows)
      modifies this`summaries
      ensures Valid() && summaries == rows
    {
      summaries := rows;
    }

    method SetCardItems(rows: seq<CardLink>)
      requires Valid() && LinksUnique(rows)
      modifies this`cardItems
      ensures Valid() && cardItems == rows
    {
      cardItems := rows;
    }

    /** A primary key no row uses yet. */
    method NewId() returns (id: Id)
      requires Valid()
      modifies this`nextId
      ensures Valid()
      ensures id == old(nextId) && nextId == id + 1
    {
      id := nextId;
      Advance(1);
    }

    /** Hands out the next `n` keys. */
    method Advance(n: nat)
      requires Valid()
      modifies this`nextId
      ensures Valid()
      ensures nextId == old(nextId) + n
    {
      WidenKeyed(accounts, AccountKey, nextId, nextId + n);
      WidenKeyed(installments, InstallmentKey, nextId, nextId + n);
      WidenKeyed(transactions, TransactionKey, nextId, nextId + n);
      nextId := nextId + n;
    }
  }

  /** Appending a row with a fresh key keeps keys unique and below the new bound. */
  lemma AppendKeyed<T>(s: seq<T>, x: T, key: T -> nat, bound: nat)
    requires KeyedBelow(s, key, bound) && key(x) == bound
    ensures KeyedBelow(s + [x], key, bound + 1)
  {
  }

  lemma WidenKeyed<T>(s: seq<T>, key: T -> nat, bound: nat, bound': nat)
    requires KeyedBelow(s, key, bound) && bound <= bound'
    ensures KeyedBelow(s, key, bound')
  {
  }

  /** An update that keeps every row's key keeps the keys unique. */
  lemma UpdateKeyed<T>(s: seq<T>, p: T -> bool, f: T -> T, key: T -> nat, bound: nat)
    requires KeyedBelow(s, key, bound)
    requires forall x :: key(f(x)) == key(x)
    ensures KeyedBelow(UpdateWhere(s, p, f), key, bound)
  {
    var r := UpdateWhere(s, p, f);
    forall i | 0 <= i < |r| ensures key(r[i]) == key(s[i]) {
    }
  }
}
