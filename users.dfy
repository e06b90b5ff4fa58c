// The user table: creation guarded by the live CPF and e-mail, lookups that
// skip soft-deleted rows, profile and status edits that write only what the
// input carries, soft delete, and the paginated listing. Both copies of the
// users service behave alike for these operations.
module Users {
  import opened Common
  import opened Pagination
  import opened Store

  datatype CurrencyCode = BRL | OtherCurrency(code: string)
  datatype LanguageCode = PtBR | OtherLanguage(code: string)

  datatype User = User(
    id: Id,
    cpf: string,
    name: string,
    email: string,
    hashPassword: string,
    isActive: bool,
    emailVerified: bool,
    lastLogin: Option<Instant>,
    defaultCurrency: CurrencyCode,
    preferredLanguage: LanguageCode,
    pluggyItemId: Option<string>,
    createdAt: Instant,
    deletedAt: Option<Instant>)

  /** Every field of a user except the password hash. */
  datatype SafeUser = SafeUser(
    id: Id,
    cpf: string,
    name: string,
    email: string,
    isActive: bool,
    emailVerified: bool,
    lastLogin: Option<Instant>,
    defaultCurrency: CurrencyCode,
    preferredLanguage: LanguageCode,
    pluggyItemId: Option<string>,
    createdAt: Instant,
    deletedAt: Option<Instant>)

  const PasswordRequired := "Password is required for user creation"
  const CpfExists := "CPF already exists"
  const EmailExists := "Email already exists"
  const UserNotFound := "USER_NOT_FOUND"

  // ---------------------------------------------------------------------
  // toSafeUser

  /** toSafeUser: `const { hashPassword, ...safe } = user`. */
  function ToSafeUser(u: User): (r: SafeUser)
    ensures WithPassword(r, u.hashPassword) == u
  {
    SafeUser(u.id, u.cpf, u.name, u.email, u.isActive, u.emailVerified, u.lastLogin,
             u.defaultCurrency, u.preferredLanguage, u.pluggyItemId, u.createdAt, u.deletedAt)
  }

  /** The user a safe projection came from, given its hash back. */
  function WithPassword(s: SafeUser, hashPassword: string): User {
    User(s.id, s.cpf, s.name, s.email, hashPassword, s.isActive, s.emailVerified, s.lastLogin,
         s.defaultCurrency, s.preferredLanguage, s.pluggyItemId, s.createdAt, s.deletedAt)
  }

  /** The projection and the hash together give the user back, and the other way round. */
  lemma SafeUserRoundTrip(u: User, s: SafeUser, hashPassword: string)
    ensures WithPassword(ToSafeUser(u), u.hashPassword) == u
    ensures ToSafeUser(WithPassword(s, hashPassword)) == s && WithPassword(s, hashPassword).hashPassword == hashPassword
  {
  }

  /** The projection forgets exactly the hash: two users have the same projection
      if and only if they differ at most in their hash. */
  lemma SafeUserForgetsOnlyThePassword(u: User, v: User)
    ensures ToSafeUser(u) == ToSafeUser(v) <==> u == v.(hashPassword := u.hashPassword)
  {
    if ToSafeUser(u) == ToSafeUser(v) {
      SafeUserRoundTrip(u, ToSafeUser(v), u.hashPassword);
      SafeUserRoundTrip(v, ToSafeUser(v), u.hashPassword);
      calc {
        u;
        WithPassword(ToSafeUser(u), u.hashPassword);
        WithPassword(ToSafeUser(v), u.hashPassword);
        v.(hashPassword := u.hashPassword);
      }
    }
  }

  // ---------------------------------------------------------------------
  // lookups

  predicate Live(u: User) { u.deletedAt.None? }

  function UserKey(u: User): nat { u.id }

  function UserWithId(id: Id): User -> bool {
    (u: User) => u.id == id
  }

  /** `where: { id, deletedAt: null }` */
  function LiveWithId(id: Id): User -> bool {
    (u: User) => u.id == id && Live(u)
  }

  /** `where: { cpf, deletedAt: null }` */
  function LiveWithCpf(cpf: string): User -> bool {
    (u: User) => u.cpf == cpf && Live(u)
  }

  /** `where: { email, deletedAt: null }` */
  function LiveWithEmail(email: string): User -> bool {
    (u: User) => u.email == email && Live(u)
  }

  /** No two live users share a CPF. */
  predicate LiveCpfsUnique(users: seq<User>) {
    forall i, j :: 0 <= i < j < |users| && Live(users[i]) && Live(users[j]) ==> users[i].cpf != users[j].cpf
  }

  /** No two live users share an e-mail. */
  predicate LiveEmailsUnique(users: seq<User>) {
    forall i, j :: 0 <= i < j < |users| && Live(users[i]) && Live(users[j]) ==> users[i].email != users[j].email
  }

  /** findById: the live user with the id, without its hash. */
  function FindById(users: seq<User>, id: Id): (r: Result<SafeUser>)
    ensures r.Err? <==> forall k :: 0 <= k < |users| ==> !(users[k].id == id && Live(users[k]))
    ensures r.Err? ==> r == Err(NotFound(UserNotFound))
    ensures r.Ok? ==> exists u :: u in users && u.id == id && Live(u) && r.value == ToSafeUser(u)
  {
    match Find(users, LiveWithId(id))
    case None => Err(NotFound(UserNotFound))
    case Some(u) => Ok(ToSafeUser(u))
  }

  // ---------------------------------------------------------------------
  // create

  datatype CreateUserInput = CreateUserInput(
    cpf: string,
    name: string,
    email: string,
    hashPassword: Option<string>,
    defaultCurrency: Option<CurrencyCode>,
    preferredLanguage: Option<LanguageCode>,
    pluggyItemId: Option<string>)

  /** The checks of `create`, in order: a hash is given, no live user has the CPF, no
      live user has the e-mail. */
  function CreateCheck(users: seq<User>, input: CreateUserInput): (r: Result<()>)
    ensures r.Ok? <==> (TruthyString(input.hashPassword) &&
      (forall k :: 0 <= k < |users| ==> !LiveWithCpf(input.cpf)(users[k])) &&
      (forall k :: 0 <= k < |users| ==> !LiveWithEmail(input.email)(users[k])))
    ensures !TruthyString(input.hashPassword) ==> r == Err(BadRequest(PasswordRequired))
    ensures TruthyString(input.hashPassword) && Find(users, LiveWithCpf(input.cpf)).Some? ==> r == Err(BadRequest(CpfExists))
    ensures r.Err? && r.error == BadRequest(EmailExists) ==>
      TruthyString(input.hashPassword) && Find(users, LiveWithCpf(input.cpf)).None? && Find(users, LiveWithEmail(input.email)).Some?
  {
    if !TruthyString(input.hashPassword) then Err(BadRequest(PasswordRequired))
    else if Find(users, LiveWithCpf(input.cpf)).Some? then Err(BadRequest(CpfExists))
    else if Find(users, LiveWithEmail(input.email)).Some? then Err(BadRequest(EmailExists))
    else Ok(())
  }

  /** The stored row: currency BRL, language pt_BR and no Pluggy item unless given;
      active, unverified, never logged in, not deleted. */
  function NewUser(input: CreateUserInput, id: Id, now: Instant): (r: User)
    requires TruthyString(input.hashPassword)
    ensures r.id == id && r.cpf == input.cpf && r.email == input.email && Live(r)
    ensures r.defaultCurrency == (if input.defaultCurrency.Some? then input.defaultCurrency.value else BRL)
    ensures r.preferredLanguage == (if input.preferredLanguage.Some? then input.preferredLanguage.value else PtBR)
    ensures r.pluggyItemId == input.pluggyItemId
  {
    User(id, input.cpf, input.name, input.email, input.hashPassword.value, true, false, None,
         OrElse(input.defaultCurrency, BRL), OrElse(input.preferredLanguage, PtBR), input.pluggyItemId, now, None)
  }

  // ---------------------------------------------------------------------
  // updateProfile / updateStatus / softDelete

  datatype ProfileInput = ProfileInput(
    name: Option<string>,
    email: Option<string>,
    defaultCurrency: Option<CurrencyCode>,
    preferredLanguage: Option<LanguageCode>)

  /** `allowedFields`: the four profile fields the input carries, nothing else. */
  function ApplyProfile(input: ProfileInput): User -> User {
    (u: User) => u.(name := OrElse(input.name, u.name),
                    email := OrElse(input.email, u.email),
                    defaultCurrency := OrElse(input.defaultCurrency, u.defaultCurrency),
                    preferredLanguage := OrElse(input.preferredLanguage, u.preferredLanguage))
  }

  /** A profile update leaves every other field alone, and a field the input omits too. */
  lemma ProfileTouchesOnlyGivenFields(input: ProfileInput, u: User)
    ensures var r := ApplyProfile(input)(u);
      r.(name := u.name, email := u.email, defaultCurrency := u.defaultCurrency, preferredLanguage := u.preferredLanguage) == u
    ensures input.name.None? ==> ApplyProfile(input)(u).name == u.name
    ensures input.email.None? ==> ApplyProfile(input)(u).email == u.email
    ensures input.defaultCurrency.None? ==> ApplyProfile(input)(u).defaultCurrency == u.defaultCurrency
    ensures input.preferredLanguage.None? ==> ApplyProfile(input)(u).preferredLanguage == u.preferredLanguage
    ensures input == ProfileInput(None, None, None, None) ==> ApplyProfile(input)(u) == u
  {
  }

  datatype StatusInput = StatusInput(isActive: Option<bool>, emailVerified: Option<bool>)

  /** `isActive: input.isActive ?? user.isActive`, and the same for emailVerified. */
  function ApplyStatus(input: StatusInput): User -> User {
    (u: User) => u.(isActive := OrElse(input.isActive, u.isActive),
                    emailVerified := OrElse(input.emailVerified, u.emailVerified))
  }

  /** `{ deletedAt: now, isActive: false }` */
  function Retire(now: Instant): User -> User {
    (u: User) => u.(deletedAt := Some(now), isActive := false)
  }

  /** After a soft delete the id is not found any more, so a second soft delete (or a
      findById) fails with USER_NOT_FOUND. */
  lemma SoftDeletedIsGone(users: seq<User>, id: Id, now: Instant)
    ensures FindById(UpdateWhere(users, UserWithId(id), Retire(now)), id) == Err(NotFound(UserNotFound))
  {
    var r := UpdateWhere(users, UserWithId(id), Retire(now));
    forall k | 0 <= k < |r| ensures !(r[k].id == id && Live(r[k])) {
    }
  }

  /** An update that keeps each row's id, CPF and liveness keeps the keys and the live
      CPFs unique. */
  lemma SameIdentity(s: seq<User>, t: seq<User>, bound: nat)
    requires KeyedBelow(s, UserKey, bound) && LiveCpfsUnique(s)
    requires |s| == |t|
    requires forall k :: 0 <= k < |s| ==> t[k].id == s[k].id && t[k].cpf == s[k].cpf && (Live(t[k]) ==> Live(s[k]))
    ensures KeyedBelow(t, UserKey, bound) && LiveCpfsUnique(t)
  {
    forall i, j | 0 <= i < j < |t| && Live(t[i]) && Live(t[j]) ensures t[i].cpf != t[j].cpf {
      assert Live(s[i]) && Live(s[j]);
    }
  }

  // ---------------------------------------------------------------------
  // list

  datatype ListFilters = ListFilters(
    search: Option<string>,
    isActive: Option<bool>,
    emailVerified: Option<bool>,
    defaultCurrency: Option<CurrencyCode>,
    preferredLanguage: Option<LanguageCode>,
    limit: Option<int>,
    page: Option<int>)

  /** `sub` occurs in `s`. */
  predicate Contains(s: string, sub: string)
    decreases |s|
  {
    sub <= s || (|s| > 0 && Contains(s[1..], sub))
  }

  /** The `where` of `list`: live rows matching each filter that is set. */
  predicate Listed(f: ListFilters, u: User) {
    Live(u) &&
    (f.isActive.Some? ==> u.isActive == f.isActive.value) &&
    (f.emailVerified.Some? ==> u.emailVerified == f.emailVerified.value) &&
    (f.defaultCurrency.Some? ==> u.defaultCurrency == f.defaultCurrency.value) &&
    (f.preferredLanguage.Some? ==> u.preferredLanguage == f.preferredLanguage.value) &&
    (TruthyString(f.search) ==>
       Contains(u.name, f.search.value) || Contains(u.email, f.search.value) || Contains(u.cpf, f.search.value))
  }

  function ListedBy(f: ListFilters): User -> bool {
    (u: User) => Listed(f, u)
  }

  function SafeRows(rows: seq<User>): (r: seq<SafeUser>)
    ensures |r| == |rows| && forall i :: 0 <= i < |rows| ==> r[i] == ToSafeUser(rows[i])
  {
    seq(|rows|, i requires 0 <= i < |rows| => ToSafeUser(rows[i]))
  }

  /** The listed page: `take` matching rows from `skip` on, newest first, without hashes. */
  function ListDocs(users: seq<User>, f: ListFilters, skip: nat, take: nat): (r: seq<SafeUser>)
    ensures |r| <= take
    ensures skip + take < CountWhere(users, ListedBy(f)) ==> |r| == take
    ensures forall i :: 0 <= i < |r| ==>
      r[i].deletedAt.None? && exists u :: u in users && Listed(f, u) && r[i] == ToSafeUser(u)
  {
    var rows := Filter(users, ListedBy(f));
    FilterLength(users, ListedBy(f));
    ReversedMultiset(rows);
    assert |Reversed(rows)| == |multiset(Reversed(rows))| == |rows|;
    WindowShowsMatches(users, f, skip, take);
    SafeRows(Window(Reversed(rows), skip, take))
  }

  /** list: the matching rows, newest first, `skip = (page - 1) * take`, `take = limit`.
      The filters reach the service unvalidated: a limit of 0 gives an empty page, and a
      negative skip is refused by the database client. */
  function List(users: seq<User>, f: ListFilters): (r: Result<Page<SafeUser>>)
    requires f.limit.Some? ==> f.limit.value >= 0
    ensures r.Err? <==> (OrElse(f.page, 1) - 1) * OrElse(f.limit, 10) < 0
    ensures r.Err? ==> r.error == InvalidQuery("skip")
    ensures r.Ok? ==> r.value.limit == OrElse(f.limit, 10) && r.value.page == OrElse(f.page, 1)
    ensures r.Ok? ==> r.value.offset == (r.value.page - 1) * r.value.limit
    ensures r.Ok? ==> r.value.total == CountWhere(users, ListedBy(f))
    ensures r.Ok? ==> |r.value.docs| <= r.value.limit
    ensures r.Ok? ==> (r.value.hasNextPage <==> r.value.offset + r.value.limit < r.value.total)
    ensures r.Ok? ==> (r.value.hasPrevPage <==> r.value.page > 1)
    ensures r.Ok? ==> (r.value.hasNextPage ==> |r.value.docs| == r.value.limit)
    ensures r.Ok? ==> forall i :: 0 <= i < |r.value.docs| ==>
      r.value.docs[i].deletedAt.None? &&
      exists u :: u in users && Listed(f, u) && r.value.docs[i] == ToSafeUser(u)
  {
    var take: nat := OrElse(f.limit, 10);
    var page := OrElse(f.page, 1);
    var skip := (page - 1) * take;
    if skip < 0 then Err(InvalidQuery("skip"))
    else
      var total := CountWhere(users, ListedBy(f));
      var docs := ListDocs(users, f, skip, take);
      var p := Page(docs, total, take, page, skip, skip + take < total, page > 1);
      assert p.docs == docs;
      Ok(p)
  }

  /** The refusal in plain terms: exactly a page below 1 with a positive limit. */
  lemma ListRefusedIff(users: seq<User>, f: ListFilters)
    requires f.limit.Some? ==> f.limit.value >= 0
    ensures List(users, f).Err? <==> OrElse(f.page, 1) < 1 && OrElse(f.limit, 10) > 0
  {
    var take: nat := OrElse(f.limit, 10);
    var page := OrElse(f.page, 1);
    if page >= 1 {
      MulMonotone(0, page - 1, take);
    } else if take > 0 {
      MulMonotone(page - 1, -1, take);
    }
  }

  /** Which users a page holds: the matches, newest first (from the end of the table
      backwards), projected without the hash, from the `skip`-th on; the page is full
      unless the matches run out, and empty past them. */
  lemma ListDocsHoldsNewest(users: seq<User>, f: ListFilters, skip: nat, take: nat)
    ensures HoldsNewest(ListDocs(users, f, skip, take), SafeRows(Filter(users, ListedBy(f))), take, skip)
  {
    var rows := Filter(users, ListedBy(f));
    var w := Window(Reversed(rows), skip, take);
    assert ListDocs(users, f, skip, take) == SafeRows(w);
    WindowNewest(rows, skip, take);
    SafeRowsHoldNewest(w, rows, take, skip);
  }

  /** Projecting the rows and their page alike keeps the page the same page. */
  lemma SafeRowsHoldNewest(pg: seq<User>, rows: seq<User>, take: nat, skip: nat)
    requires HoldsNewest(pg, rows, take, skip)
    ensures HoldsNewest(SafeRows(pg), SafeRows(rows), take, skip)
  {
    var sp, sr := SafeRows(pg), SafeRows(rows);
    forall i | 0 <= i < |sp| ensures skip + i < |sr| && sp[i] == sr[|sr| - 1 - (skip + i)] {
      assert pg[i] == rows[|rows| - 1 - (skip + i)];
    }
  }

  /** The same for a page of `list`, starting at its `offset`. */
  lemma ListHoldsNewest(users: seq<User>, f: ListFilters)
    requires f.limit.Some? ==> f.limit.value >= 0
    ensures var r := List(users, f);
      r.Ok? ==> HoldsNewest(r.value.docs, SafeRows(Filter(users, ListedBy(f))), r.value.limit, r.value.offset)
  {
    var take: nat := OrElse(f.limit, 10);
    var page := OrElse(f.page, 1);
    var skip := (page - 1) * take;
    var r := List(users, f);
    if skip >= 0 {
      assert r.value.docs == ListDocs(users, f, skip, take) && r.value.limit == take && r.value.offset == skip;
      ListDocsHoldsNewest(users, f, skip, take);
    }
  }

  /** Every match is listed: the j-th newest (counting from 0) is on page `j / limit + 1`
      at position `j % limit`, the page that skips `(j / limit) * limit` rows. */
  lemma ListDocsShowsEveryMatch(users: seq<User>, f: ListFilters, limit: nat, j: nat, skip: nat)
    requires limit >= 1 && skip == (PageOfRow(j, limit) - 1) * limit
    requires j < |Filter(users, ListedBy(f))|
    ensures var m := Filter(users, ListedBy(f)); var pg := ListDocs(users, f, skip, limit);
      PlaceOnPage(j, limit) < |pg| && pg[PlaceOnPage(j, limit)] == ToSafeUser(m[|m| - 1 - j])
  {
    var m := Filter(users, ListedBy(f));
    var pg := ListDocs(users, f, skip, limit);
    ListDocsHoldsNewest(users, f, skip, limit);
    SafeRowOnItsPage(pg, m, limit, j, skip);
  }

  /** On the page of the projected rows that row `j` from the end falls on, that row's
      projection is at its place. */
  lemma SafeRowOnItsPage(pg: seq<SafeUser>, rows: seq<User>, limit: nat, j: nat, skip: int)
    requires limit >= 1 && j < |rows| && skip == (PageOfRow(j, limit) - 1) * limit
    requires HoldsNewest(pg, SafeRows(rows), limit, skip)
    ensures PlaceOnPage(j, limit) < |pg| && pg[PlaceOnPage(j, limit)] == ToSafeUser(rows[|rows| - 1 - j])
  {
    NewestOnItsPage(pg, SafeRows(rows), limit, j);
  }

  /** The rows a window of the filtered table shows are live matching rows. */
  lemma WindowShowsMatches(users: seq<User>, f: ListFilters, skip: nat, take: nat)
    ensures var w := Window(Reversed(Filter(users, ListedBy(f))), skip, take);
      forall i :: 0 <= i < |w| ==> w[i] in users && Listed(f, w[i])
  {
    var rows := Filter(users, ListedBy(f));
    var w := Window(Reversed(rows), skip, take);
    ReversedMultiset(rows);
    forall i | 0 <= i < |w| ensures w[i] in users && Listed(f, w[i]) {
      assert w[i] in Reversed(rows);
      assert w[i] in multiset(rows);
      FilterMember(users, ListedBy(f), w[i]);
    }
  }

  // ---------------------------------------------------------------------
  // the table

  class UserStore {
    var users: seq<User>
    var nextId: nat

    /** Ids are unique and below `nextId`; no two live users share a CPF. */
    ghost predicate Valid()
      reads this
    {
      KeyedBelow(users, UserKey, nextId) && LiveCpfsUnique(users)
    }

    constructor ()
      ensures Valid() && users == [] && nextId == 0
    {
      users := [];
      nextId := 0;
    }

    /** create: the checks, then one new row; the answer omits the hash. */
    method Create(input: CreateUserInput, now: Instant) returns (r: Result<SafeUser>)
      requires Valid()
      modifies this
      ensures Valid()
      ensures CreateCheck(old(users), input).Err? ==>
        r == Err(CreateCheck(old(users), input).error) && users == old(users) && nextId == old(nextId)
      ensures CreateCheck(old(users), input).Ok? ==>
        var u := NewUser(input, old(nextId), now);
        users == old(users) + [u] && nextId == old(nextId) + 1 && r == Ok(ToSafeUser(u))
      ensures LiveEmailsUnique(old(users)) ==> LiveEmailsUnique(users)
    {
      var checked := CreateCheck(users, input);
      if checked.Err? {
        return Err(checked.error);
      }
      var u := NewUser(input, nextId, now);
      AppendKeyed(users, u, UserKey, nextId);
      assert forall k :: 0 <= k < |users| ==> !LiveWithCpf(input.cpf)(users[k]);
      assert forall k :: 0 <= k < |users| ==> !LiveWithEmail(input.email)(users[k]);
      users := users + [u];
      nextId := nextId + 1;
      r := Ok(ToSafeUser(u));
    }

    /** updateProfile: the live user with the id gets the fields the input carries.
        No check keeps e-mails unique among live users here. */
    method UpdateProfile(id: Id, input: ProfileInput) returns (r: Result<SafeUser>)
      requires Valid()
      modifies this`users
      ensures Valid()
      ensures FindById(old(users), id).Err? ==> r == Err(NotFound(UserNotFound)) && users == old(users)
      ensures FindById(old(users), id).Ok? ==>
        users == UpdateWhere(old(users), UserWithId(id), ApplyProfile(input)) &&
        r == Ok(ToSafeUser(ApplyProfile(input)(Find(old(users), LiveWithId(id)).value)))
    {
      var found := Find(users, LiveWithId(id));
      if found.None? {
        return Err(NotFound(UserNotFound));
      }
      SameIdentity(users, UpdateWhere(users, UserWithId(id), ApplyProfile(input)), nextId);
      users := UpdateWhere(users, UserWithId(id), ApplyProfile(input));
      r := Ok(ToSafeUser(ApplyProfile(input)(found.value)));
    }

    /** updateStatus: isActive and emailVerified, each kept when the input omits it. */
    method UpdateStatus(id: Id, input: StatusInput) returns (r: Result<SafeUser>)
      requires Valid()
      modifies this`users
      ensures Valid()
      ensures LiveEmailsUnique(old(users)) ==> LiveEmailsUnique(users)
      ensures FindById(old(users), id).Err? ==> r == Err(NotFound(UserNotFound)) && users == old(users)
      ensures FindById(old(users), id).Ok? ==>
        users == UpdateWhere(old(users), UserWithId(id), ApplyStatus(input)) &&
        r == Ok(ToSafeUser(ApplyStatus(input)(Find(old(users), LiveWithId(id)).value)))
    {
      var found := Find(users, LiveWithId(id));
      if found.None? {
        return Err(NotFound(UserNotFound));
      }
      SameIdentity(users, UpdateWhere(users, UserWithId(id), ApplyStatus(input)), nextId);
      users := UpdateWhere(users, UserWithId(id), ApplyStatus(input));
      r := Ok(ToSafeUser(ApplyStatus(input)(found.value)));
    }

    /** softDelete: the live user with the id is stamped deleted and made inactive. */
    method SoftDelete(id: Id, now: Instant) returns (r: Result<()>)
      requires Valid()
      modifies this`users
      ensures Valid()
      ensures LiveEmailsUnique(old(users)) ==> LiveEmailsUnique(users)
      ensures FindById(old(users), id).Err? ==> r == Err(NotFound(UserNotFound)) && users == old(users)
      ensures FindById(old(users), id).Ok? ==>
        r == Ok(()) && users == UpdateWhere(old(users), UserWithId(id), Retire(now))
      ensures FindById(users, id) == Err(NotFound(UserNotFound))
    {
      var found := Find(users, LiveWithId(id));
      if found.None? {
        return Err(NotFound(UserNotFound));
      }
      SameIdentity(users, UpdateWhere(users, UserWithId(id), Retire(now)), nextId);
      SoftDeletedIsGone(users, id, now);
      users := UpdateWhere(users, UserWithId(id), Retire(now));
      r := Ok(());
    }
  }
}
