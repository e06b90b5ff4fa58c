// The credit-card items service: the table of (card, account) pairs saying
// which accounts are charged to which credit card.
module CreditCardItems {
  import opened Common
  import opened Entities
  import opened Store

  function CardNotFound(creditCardId: Id): string {
    "Credit card with ID " + NatText(creditCardId) + " not found"
  }

  function NotACard(creditCardId: Id, kind: AccountType): string {
    "Account with ID " + NatText(creditCardId) + " is not a credit card (type: " + AccountTypeKey(kind) + ")"
  }

  function AccountNotFound(accountId: Id): string {
    "Account with ID " + NatText(accountId) + " not found"
  }

  function AlreadyLinked(creditCardId: Id, accountId: Id): string {
    "Account " + NatText(accountId) + " is already linked to credit card " + NatText(creditCardId)
  }

  function NotLinked(creditCardId: Id, accountId: Id): string {
    "Account " + NatText(accountId) + " is not linked to credit card " + NatText(creditCardId)
  }

  /** The card check `link` and `getCreditCardLinkedAccounts` share: the account
      exists and is of type CREDIT_CARD. */
  function CheckCard(accounts: seq<Account>, creditCardId: Id): (r: Result<Account>)
    ensures r.Ok? <==> exists k :: 0 <= k < |accounts| && accounts[k].id == creditCardId && accounts[k].kind == CreditCard
                         && Find(accounts, AccountWithId(creditCardId)) == Some(accounts[k])
    ensures r.Ok? ==> r.value.id == creditCardId && r.value.kind == CreditCard && r.value in accounts
    ensures Find(accounts, AccountWithId(creditCardId)).None? ==> r == Err(NotFound(CardNotFound(creditCardId)))
  {
    match Find(accounts, AccountWithId(creditCardId))
    case None => Err(NotFound(CardNotFound(creditCardId)))
    case Some(card) =>
      if card.kind != CreditCard then Err(BadRequest(NotACard(creditCardId, card.kind)))
      else Ok(card)
  }

  /** isAccountLinkedToCreditCard */
  function IsAccountLinkedToCreditCard(links: seq<CardLink>, creditCardId: Id, accountId: Id): (r: bool)
    ensures r <==> CardLink(creditCardId, accountId) in links
  {
    Find(links, (l: CardLink) => l == CardLink(creditCardId, accountId)).Some?
  }

  /** The four checks of `link`, in the order the service makes them. */
  function LinkCheck(accounts: seq<Account>, links: seq<CardLink>, creditCardId: Id, accountId: Id): (r: Result<LinkResult>)
    ensures r.Ok? ==> r.value.item == CardLink(creditCardId, accountId) && CardLink(creditCardId, accountId) !in links
    ensures Find(accounts, AccountWithId(creditCardId)).None? ==> r == Err(NotFound(CardNotFound(creditCardId)))
    ensures CheckCard(accounts, creditCardId).Err? ==> r == Err(CheckCard(accounts, creditCardId).error)
    ensures CheckCard(accounts, creditCardId).Ok? && Find(accounts, AccountWithId(accountId)).None? ==>
      r == Err(NotFound(AccountNotFound(accountId)))
    ensures CheckCard(accounts, creditCardId).Ok? && Find(accounts, AccountWithId(accountId)).Some? ==>
      (r.Err? <==> CardLink(creditCardId, accountId) in links) &&
      (r.Err? ==> r.error == Conflict(AlreadyLinked(creditCardId, accountId)))
  {
    match CheckCard(accounts, creditCardId)
    case Err(e) => Err(e)
    case Ok(card) =>
      match Find(accounts, AccountWithId(accountId))
      case None => Err(NotFound(AccountNotFound(accountId)))
      case Some(linked) =>
        if IsAccountLinkedToCreditCard(links, creditCardId, accountId) then
          Err(Conflict(AlreadyLinked(creditCardId, accountId)))
        else Ok(LinkResult(CardLink(creditCardId, accountId), card, linked))
  }

  datatype LinkResult = LinkResult(item: CardLink, creditCard: Account, linkedAccount: Account)

  /** linkAccountToCreditCard: the checks, then one new pair. */
  method LinkAccountToCreditCard(db: Db, creditCardId: Id, accountId: Id) returns (r: Result<LinkResult>)
    requires db.Valid()
    modifies db`cardItems
    ensures db.Valid()
    ensures r == LinkCheck(old(db.accounts), old(db.cardItems), creditCardId, accountId)
    ensures r.Err? ==> db.cardItems == old(db.cardItems)
    ensures r.Ok? ==> db.cardItems == old(db.cardItems) + [CardLink(creditCardId, accountId)]
  {
    r := LinkCheck(db.accounts, db.cardItems, creditCardId, accountId);
    if r.Ok? {
      db.SetCardItems(db.cardItems + [r.value.item]);
    }
  }

  /** After a link the pair is linked, and it is in the table once. */
  lemma LinkedAfterLink(links: seq<CardLink>, creditCardId: Id, accountId: Id)
    requires CardLink(creditCardId, accountId) !in links
    ensures IsAccountLinkedToCreditCard(links + [CardLink(creditCardId, accountId)], creditCardId, accountId)
    ensures CountWhere(links + [CardLink(creditCardId, accountId)], IsPair(creditCardId, accountId)) == 1
  {
    var s := links + [CardLink(creditCardId, accountId)];
    assert s[|links|] == CardLink(creditCardId, accountId);
    assert s[..|s| - 1] == links;
    CountNone(links, IsPair(creditCardId, accountId));
  }

  function IsPair(creditCardId: Id, accountId: Id): CardLink -> bool {
    (l: CardLink) => l == CardLink(creditCardId, accountId)
  }

  function OtherThanPair(creditCardId: Id, accountId: Id): CardLink -> bool {
    (l: CardLink) => l != CardLink(creditCardId, accountId)
  }

  /** unlinkAccountFromCreditCard */
  method UnlinkAccountFromCreditCard(db: Db, creditCardId: Id, accountId: Id) returns (r: Result<()>)
    requires db.Valid()
    modifies db`cardItems
    ensures db.Valid()
    ensures CardLink(creditCardId, accountId) !in old(db.cardItems) ==>
      r == Err(NotFound(NotLinked(creditCardId, accountId))) && db.cardItems == old(db.cardItems)
    ensures CardLink(creditCardId, accountId) in old(db.cardItems) ==>
      r == Ok(()) && db.cardItems == Filter(old(db.cardItems), OtherThanPair(creditCardId, accountId))
  {
    if !IsAccountLinkedToCreditCard(db.cardItems, creditCardId, accountId) {
      return Err(NotFound(NotLinked(creditCardId, accountId)));
    }
    FilterDistinct(db.cardItems, OtherThanPair(creditCardId, accountId));
    assert LinksUnique(Filter(db.cardItems, OtherThanPair(creditCardId, accountId)));
    db.SetCardItems(Filter(db.cardItems, OtherThanPair(creditCardId, accountId)));
    r := Ok(());
  }

  /** Unlinking removes that one pair and keeps every other link. */
  lemma UnlinkRemovesOnlyThePair(links: seq<CardLink>, creditCardId: Id, accountId: Id)
    requires LinksUnique(links) && CardLink(creditCardId, accountId) in links
    ensures var r := Filter(links, OtherThanPair(creditCardId, accountId));
      |r| == |links| - 1 &&
      (forall l :: l in r <==> l in links && l != CardLink(creditCardId, accountId)) &&
      !IsAccountLinkedToCreditCard(r, creditCardId, accountId)
  {
    var pair, other := IsPair(creditCardId, accountId), OtherThanPair(creditCardId, accountId);
    var k :| 0 <= k < |links| && links[k] == CardLink(creditCardId, accountId);
    CountSingle(links, pair, k);
    CountWhereComplement(links, pair, other);
    FilterLength(links, other);
    forall l ensures l in Filter(links, other) <==> l in links && l != CardLink(creditCardId, accountId) {
      FilterMember(links, other, l);
    }
  }

  function OnCard(creditCardId: Id): CardLink -> bool {
    (l: CardLink) => l.creditCardId == creditCardId
  }

  function OffCard(creditCardId: Id): CardLink -> bool {
    (l: CardLink) => l.creditCardId != creditCardId
  }

  function OfAccount(accountId: Id): CardLink -> bool {
    (l: CardLink) => l.accountId == accountId
  }

  function NotOfAccount(accountId: Id): CardLink -> bool {
    (l: CardLink) => l.accountId != accountId
  }

  /** deleteAllByCreditCard: removes the card's links and reports how many. */
  method DeleteAllByCreditCard(db: Db, creditCardId: Id) returns (count: nat)
    requires db.Valid()
    modifies db`cardItems
    ensures db.Valid()
    ensures db.cardItems == Filter(old(db.cardItems), OffCard(creditCardId))
    ensures count == CountWhere(old(db.cardItems), OnCard(creditCardId))
    ensures count == |old(db.cardItems)| - |db.cardItems|
  {
    count := CountWhere(db.cardItems, OnCard(creditCardId));
    CountWhereComplement(db.cardItems, OnCard(creditCardId), OffCard(creditCardId));
    FilterLength(db.cardItems, OffCard(creditCardId));
    FilterDistinct(db.cardItems, OffCard(creditCardId));
    db.SetCardItems(Filter(db.cardItems, OffCard(creditCardId)));
  }

  /** deleteAllByAccount: removes the account's links and reports how many. */
  method DeleteAllByAccount(db: Db, accountId: Id) returns (count: nat)
    requires db.Valid()
    modifies db`cardItems
    ensures db.Valid()
    ensures db.cardItems == Filter(old(db.cardItems), NotOfAccount(accountId))
    ensures count == CountWhere(old(db.cardItems), OfAccount(accountId))
    ensures count == |old(db.cardItems)| - |db.cardItems|
  {
    count := CountWhere(db.cardItems, OfAccount(accountId));
    CountWhereComplement(db.cardItems, OfAccount(accountId), NotOfAccount(accountId));
    FilterLength(db.cardItems, NotOfAccount(accountId));
    FilterDistinct(db.cardItems, NotOfAccount(accountId));
    db.SetCardItems(Filter(db.cardItems, NotOfAccount(accountId)));
  }

  /** After either bulk delete no link of that card (or account) is left, and every
      other link is kept. */
  lemma DeleteAllKeepsTheRest(links: seq<CardLink>, creditCardId: Id, accountId: Id)
    ensures forall l :: l in Filter(links, OffCard(creditCardId)) <==> l in links && l.creditCardId != creditCardId
    ensures forall l :: l in Filter(links, NotOfAccount(accountId)) <==> l in links && l.accountId != accountId
  {
    forall l ensures l in Filter(links, OffCard(creditCardId)) <==> l in links && l.creditCardId != creditCardId {
      FilterMember(links, OffCard(creditCardId), l);
    }
    forall l ensures l in Filter(links, NotOfAccount(accountId)) <==> l in links && l.accountId != accountId {
      FilterMember(links, NotOfAccount(accountId), l);
    }
  }

  datatype LinkedAccounts = LinkedAccounts(creditCard: Account, linkedAccounts: seq<Id>, total: nat)

  function LinkedAccountId(l: CardLink): Id { l.accountId }

  function Map<T, U>(s: seq<T>, f: T -> U): (r: seq<U>)
    ensures |r| == |s| && forall i :: 0 <= i < |s| ==> r[i] == f(s[i])
  {
    seq(|s|, i requires 0 <= i < |s| => f(s[i]))
  }

  /** getCreditCardLinkedAccounts: the card check of `link`, then the card's linked
      accounts, newest link first, and their number. */
  function GetCreditCardLinkedAccounts(accounts: seq<Account>, links: seq<CardLink>, creditCardId: Id): (r: Result<LinkedAccounts>)
    ensures CheckCard(accounts, creditCardId).Err? ==> r == Err(CheckCard(accounts, creditCardId).error)
    ensures r.Ok? ==>
      r.value.creditCard == CheckCard(accounts, creditCardId).value &&
      r.value.total == |r.value.linkedAccounts| == CountWhere(links, OnCard(creditCardId)) &&
      forall a :: a in r.value.linkedAccounts <==> CardLink(creditCardId, a) in links
    ensures r.Ok? ==> var on := Filter(links, OnCard(creditCardId));
      |r.value.linkedAccounts| == |on| && forall i :: 0 <= i < |r.value.linkedAccounts| ==>
        r.value.linkedAccounts[i] == on[|on| - 1 - i].accountId
  {
    match CheckCard(accounts, creditCardId)
    case Err(e) => Err(e)
    case Ok(card) =>
      var items := Reversed(Filter(links, OnCard(creditCardId)));
      var ids := Map(items, LinkedAccountId);
      LinkedIds(links, creditCardId);
      ReversedAt(Filter(links, OnCard(creditCardId)));
      FilterLength(links, OnCard(creditCardId));
      Ok(LinkedAccounts(card, ids, |ids|))
  }

  /** Newest link first: of two listed accounts, the earlier one's link was created
      (stored) after the later one's. */
  lemma LinkedNewestFirst(accounts: seq<Account>, links: seq<CardLink>, creditCardId: Id, a: nat, b: nat)
    requires GetCreditCardLinkedAccounts(accounts, links, creditCardId).Ok?
    requires a < b < |GetCreditCardLinkedAccounts(accounts, links, creditCardId).value.linkedAccounts|
    ensures var ids := GetCreditCardLinkedAccounts(accounts, links, creditCardId).value.linkedAccounts;
      exists i, j :: 0 <= j < i < |links| &&
        links[i] == CardLink(creditCardId, ids[a]) && links[j] == CardLink(creditCardId, ids[b])
  {
    var ids := GetCreditCardLinkedAccounts(accounts, links, creditCardId).value.linkedAccounts;
    var on := Filter(links, OnCard(creditCardId));
    var x: nat, y: nat := |on| - 1 - b, |on| - 1 - a;
    FilterInOrder(links, OnCard(creditCardId), x, y);
    var j, i :| 0 <= j < i < |links| && links[j] == on[x] && links[i] == on[y];
    assert ids[a] == on[y].accountId && ids[b] == on[x].accountId;
    assert on[x] in on && on[y] in on;
    FilterMember(links, OnCard(creditCardId), on[x]);
    FilterMember(links, OnCard(creditCardId), on[y]);
    assert on[y] == CardLink(creditCardId, on[y].accountId);
    assert on[x] == CardLink(creditCardId, on[x].accountId);
  }

  lemma LinkedIds(links: seq<CardLink>, creditCardId: Id)
    ensures var ids := Map(Reversed(Filter(links, OnCard(creditCardId))), LinkedAccountId);
      |ids| == CountWhere(links, OnCard(creditCardId)) &&
      forall a :: a in ids <==> CardLink(creditCardId, a) in links
  {
    var f := Filter(links, OnCard(creditCardId));
    var items := Reversed(f);
    var ids := Map(items, LinkedAccountId);
    ReversedMultiset(f);
    FilterLength(links, OnCard(creditCardId));
    forall a ensures a in ids <==> CardLink(creditCardId, a) in links {
      FilterMember(links, OnCard(creditCardId), CardLink(creditCardId, a));
      if a in ids {
        var i :| 0 <= i < |ids| && ids[i] == a;
        assert items[i] in multiset(items);
        assert items[i] in f;
        FilterMember(links, OnCard(creditCardId), items[i]);
      }
      if CardLink(creditCardId, a) in links {
        assert CardLink(creditCardId, a) in multiset(items);
        var i :| 0 <= i < |items| && items[i] == CardLink(creditCardId, a);
        assert ids[i] == a;
      }
    }
  }
}
