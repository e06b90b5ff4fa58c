// Shared vocabulary of the model: optional values, service errors, and the
// sequence folds the services use to sum, count, filter and order table rows.
module Common {

  datatype Option<T> = None | Some(value: T)

  /** The exceptions the services raise, by the Nest exception class that carries them. */
  datatype Error =
    | NotFound(code: string)        // NotFoundException
    | BadRequest(code: string)      // BadRequestException
    | Conflict(code: string)        // ConflictException
    | Unauthorized(message: string) // UnauthorizedException
    | Failed(code: string)          // a plain Error(...)
    | InvalidQuery(argument: string) // a query argument the database client refuses

  datatype Result<T> = Ok(value: T) | Err(error: Error)

  /** Row identifiers (UUIDs in the database; any distinct naturals here). */
  type Id = nat

  /** A point in time: milliseconds since 1970-01-01T00:00:00Z. */
  type Instant = int

  /** JavaScript truthiness of an optional number: null, undefined and 0 are falsy. */
  predicate Truthy(x: Option<int>) {
    x.Some? && x.value != 0
  }

  /** JavaScript truthiness of an optional string: null, undefined and "" are falsy. */
  predicate TruthyString(x: Option<string>) {
    x.Some? && x.value != ""
  }

  /** `x ?? d` */
  function OrElse<T>(x: Option<T>, d: T): T {
    if x.Some? then x.value else d
  }

  /** `x ?? y` where `y` may itself be absent. */
  function OrOption<T>(x: Option<T>, y: Option<T>): Option<T> {
    if x.Some? then x else y
  }

  // ---------------------------------------------------------------------
  // Folds over sequences, defined on the prefix so that a loop running
  // left to right keeps `acc == Fold(s[..i])` as its invariant.

  /** The selector of `findMany` with no `where`. */
  function AnyRow<T>(x: T): bool { true }

  function SumWhere<T>(s: seq<T>, p: T -> bool, v: T -> int): int
    decreases |s|
  {
    if |s| == 0 then 0
    else SumWhere(s[..|s| - 1], p, v) + (if p(s[|s| - 1]) then v(s[|s| - 1]) else 0)
  }

  function CountWhere<T>(s: seq<T>, p: T -> bool): nat
    decreases |s|
  {
    if |s| == 0 then 0
    else CountWhere(s[..|s| - 1], p) + (if p(s[|s| - 1]) then 1 else 0)
  }

  function Filter<T>(s: seq<T>, p: T -> bool): seq<T>
    decreases |s|
  {
    if |s| == 0 then []
    else Filter(s[..|s| - 1], p) + (if p(s[|s| - 1]) then [s[|s| - 1]] else [])
  }

  /** Rows of `s` with `f` applied to those that satisfy `p` (an `updateMany`). */
  function UpdateWhere<T>(s: seq<T>, p: T -> bool, f: T -> T): (r: seq<T>)
    ensures |r| == |s|
    ensures forall i :: 0 <= i < |s| ==> r[i] == if p(s[i]) then f(s[i]) else s[i]
  {
    seq(|s|, i requires 0 <= i < |s| => if p(s[i]) then f(s[i]) else s[i])
  }

  /** The first row of `s` that satisfies `p` (a `findFirst`). */
  function Find<T>(s: seq<T>, p: T -> bool): (r: Option<T>)
    ensures r.Some? ==> r.value in s && p(r.value)
    ensures r.None? <==> forall i :: 0 <= i < |s| ==> !p(s[i])
    decreases |s|
  {
    if |s| == 0 then None
    else if p(s[0]) then Some(s[0])
    else Find(s[1..], p)
  }

  function Reversed<T>(s: seq<T>): seq<T>
    decreases |s|
  {
    if |s| == 0 then [] else [s[|s| - 1]] + Reversed(s[..|s| - 1])
  }

  /** Every key of `s` is below `bound` and no two rows share a key. */
  predicate KeyedBelow<T>(s: seq<T>, key: T -> nat, bound: nat) {
    (forall i :: 0 <= i < |s| ==> key(s[i]) < bound) &&
    (forall i, j :: 0 <= i < j < |s| ==> key(s[i]) != key(s[j]))
  }

  // ---------------------------------------------------------------------
  // Lemmas about the folds

  lemma {:induction false} FilterMember<T>(s: seq<T>, p: T -> bool, y: T)
    ensures y in Filter(s, p) <==> y in s && p(y)
    decreases |s|
  {
    if |s| > 0 {
      FilterMember(s[..|s| - 1], p, y);
      assert s == s[..|s| - 1] + [s[|s| - 1]];
    }
  }

  lemma {:induction false} FilterLength<T>(s: seq<T>, p: T -> bool)
    ensures |Filter(s, p)| == CountWhere(s, p)
    decreases |s|
  {
    if |s| > 0 {
      FilterLength(s[..|s| - 1], p);
    }
  }

  lemma {:induction false} SumWhereAppend<T>(s: seq<T>, t: seq<T>, p: T -> bool, v: T -> int)
    ensures SumWhere(s + t, p, v) == SumWhere(s, p, v) + SumWhere(t, p, v)
    decreases |t|
  {
    if |t| == 0 {
      assert s + t == s;
    } else {
      assert (s + t)[..|s + t| - 1] == s + t[..|t| - 1];
      SumWhereAppend(s, t[..|t| - 1], p, v);
    }
  }

  lemma {:induction false} CountWhereAppend<T>(s: seq<T>, t: seq<T>, p: T -> bool)
    ensures CountWhere(s + t, p) == CountWhere(s, p) + CountWhere(t, p)
    decreases |t|
  {
    if |t| == 0 {
      assert s + t == s;
    } else {
      assert (s + t)[..|s + t| - 1] == s + t[..|t| - 1];
      CountWhereAppend(s, t[..|t| - 1], p);
    }
  }

  lemma {:induction false} FilterAppend<T>(s: seq<T>, t: seq<T>, p: T -> bool)
    ensures Filter(s + t, p) == Filter(s, p) + Filter(t, p)
    decreases |t|
  {
    if |t| == 0 {
      assert s + t == s;
    } else {
      assert (s + t)[..|s + t| - 1] == s + t[..|t| - 1];
      FilterAppend(s, t[..|t| - 1], p);
    }
  }

  /** A sum over `p` splits into the part where `q` holds and the part where it does not. */
  lemma {:induction false} SumWhereSplit<T>(s: seq<T>, p: T -> bool, q: T -> bool, pq: T -> bool, pnq: T -> bool, v: T -> int)
    requires forall x :: pq(x) == (p(x) && q(x))
    requires forall x :: pnq(x) == (p(x) && !q(x))
    ensures SumWhere(s, p, v) == SumWhere(s, pq, v) + SumWhere(s, pnq, v)
    decreases |s|
  {
    if |s| > 0 {
      SumWhereSplit(s[..|s| - 1], p, q, pq, pnq, v);
    }
  }

  lemma {:induction false} CountWhereSplit<T>(s: seq<T>, p: T -> bool, q: T -> bool, pq: T -> bool, pnq: T -> bool)
    requires forall x :: pq(x) == (p(x) && q(x))
    requires forall x :: pnq(x) == (p(x) && !q(x))
    ensures CountWhere(s, p) == CountWhere(s, pq) + CountWhere(s, pnq)
    decreases |s|
  {
    if |s| > 0 {
      CountWhereSplit(s[..|s| - 1], p, q, pq, pnq);
    }
  }

  /** Summing over the filtered rows is summing over the rows that pass the filter. */
  lemma {:induction false} SumWhereFilter<T>(s: seq<T>, p: T -> bool, q: T -> bool, pq: T -> bool, v: T -> int)
    requires forall x :: pq(x) == (p(x) && q(x))
    ensures SumWhere(Filter(s, p), q, v) == SumWhere(s, pq, v)
    decreases |s|
  {
    if |s| > 0 {
      var init, last := s[..|s| - 1], s[|s| - 1];
      SumWhereFilter(init, p, q, pq, v);
      if p(last) {
        assert Filter(s, p) == Filter(init, p) + [last];
        assert (Filter(init, p) + [last])[..|Filter(init, p) + [last]| - 1] == Filter(init, p);
      } else {
        assert Filter(s, p) == Filter(init, p);
      }
    }
  }

  /** Counting over the filtered rows is counting over the rows that pass the filter. */
  lemma {:induction false} CountWhereFilter<T>(s: seq<T>, p: T -> bool, q: T -> bool, pq: T -> bool)
    requires forall x :: pq(x) == (p(x) && q(x))
    ensures CountWhere(Filter(s, p), q) == CountWhere(s, pq)
    decreases |s|
  {
    if |s| > 0 {
      var init, last := s[..|s| - 1], s[|s| - 1];
      CountWhereFilter(init, p, q, pq);
      if p(last) {
        assert Filter(s, p) == Filter(init, p) + [last];
        assert (Filter(init, p) + [last])[..|Filter(init, p) + [last]| - 1] == Filter(init, p);
      } else {
        assert Filter(s, p) == Filter(init, p);
      }
    }
  }

  lemma {:induction false} SumWhereExt<T>(s: seq<T>, p: T -> bool, q: T -> bool, v: T -> int)
    requires forall x :: p(x) == q(x)
    ensures SumWhere(s, p, v) == SumWhere(s, q, v)
    decreases |s|
  {
    if |s| > 0 {
      SumWhereExt(s[..|s| - 1], p, q, v);
    }
  }

  lemma {:induction false} CountWhereExt<T>(s: seq<T>, p: T -> bool, q: T -> bool)
    requires forall x :: p(x) == q(x)
    ensures CountWhere(s, p) == CountWhere(s, q)
    decreases |s|
  {
    if |s| > 0 {
      CountWhereExt(s[..|s| - 1], p, q);
    }
  }

  lemma {:induction false} FilterExt<T>(s: seq<T>, p: T -> bool, q: T -> bool)
    requires forall x :: p(x) == q(x)
    ensures Filter(s, p) == Filter(s, q)
    decreases |s|
  {
    if |s| > 0 {
      FilterExt(s[..|s| - 1], p, q);
    }
  }

  /** A filter drops no row that passes it: nothing is removed when every row passes. */
  lemma {:induction false} FilterAll<T>(s: seq<T>, p: T -> bool)
    requires forall i :: 0 <= i < |s| ==> p(s[i])
    ensures Filter(s, p) == s
    decreases |s|
  {
    if |s| > 0 {
      FilterAll(s[..|s| - 1], p);
      assert s == s[..|s| - 1] + [s[|s| - 1]];
    }
  }

  /** Keys are unique in a filtered table when they are unique in the table. */
  lemma {:induction false} FilterKeyed<T>(s: seq<T>, p: T -> bool, key: T -> nat, bound: nat)
    requires KeyedBelow(s, key, bound)
    ensures KeyedBelow(Filter(s, p), key, bound)
    decreases |s|
  {
    if |s| > 0 {
      var init, last := s[..|s| - 1], s[|s| - 1];
      assert KeyedBelow(init, key, bound);
      FilterKeyed(init, p, key, bound);
      if p(last) {
        var f := Filter(init, p);
        forall i | 0 <= i < |f| ensures key(f[i]) != key(last) {
          FilterMember(init, p, f[i]);
          var k :| 0 <= k < |init| && init[k] == f[i];
          assert s[k] == f[i];
        }
      }
    }
  }

  /** Some row passes `p` exactly when the count of such rows is positive. */
  lemma {:induction false} CountWherePositive<T>(s: seq<T>, p: T -> bool)
    ensures CountWhere(s, p) > 0 <==> exists i :: 0 <= i < |s| && p(s[i])
    decreases |s|
  {
    if |s| > 0 {
      var init := s[..|s| - 1];
      CountWherePositive(init, p);
      if exists i :: 0 <= i < |init| && p(init[i]) {
        var i :| 0 <= i < |init| && p(init[i]);
        assert s[i] == init[i];
      }
      if exists i :: 0 <= i < |s| && p(s[i]) {
        var i :| 0 <= i < |s| && p(s[i]);
        if i < |init| {
          assert init[i] == s[i];
        }
      }
    }
  }

  /** A sum does not depend on the order of the rows. */
  lemma {:induction false} SumWhereMultiset<T>(s: seq<T>, t: seq<T>, p: T -> bool, v: T -> int)
    requires multiset(s) == multiset(t)
    ensures SumWhere(s, p, v) == SumWhere(t, p, v)
    decreases |s|
  {
    if |s| == 0 {
      assert |multiset(t)| == 0;
      assert t == [];
    } else {
      var init, x := s[..|s| - 1], s[|s| - 1];
      assert s == init + [x];
      assert x in multiset(t);
      var k :| 0 <= k < |t| && t[k] == x;
      var rest := t[..k] + t[k + 1..];
      MultisetRemove(s, t, k);
      SumWhereMultiset(init, rest, p, v);
      SumWhereRemove(t, k, p, v);
      assert SumWhere(s, p, v) == SumWhere(init, p, v) + (if p(x) then v(x) else 0);
    }
  }

  /** Two orderings of the same rows stay orderings of the same rows once a common
      row is taken out of each. */
  lemma MultisetRemove<T>(s: seq<T>, t: seq<T>, k: nat)
    requires multiset(s) == multiset(t) && |s| > 0 && k < |t| && t[k] == s[|s| - 1]
    ensures multiset(s[..|s| - 1]) == multiset(t[..k] + t[k + 1..])
  {
    var init, x, rest := s[..|s| - 1], s[|s| - 1], t[..k] + t[k + 1..];
    assert s == init + [x];
    assert t == t[..k] + [x] + t[k + 1..];
    assert multiset(t) == multiset(rest) + multiset{x};
    assert multiset(s) == multiset(init) + multiset{x};
    assert multiset(init) == multiset(s) - multiset{x} == multiset(t) - multiset{x} == multiset(rest);
  }

  /** Taking one row out of a sum leaves the rest of it. */
  lemma {:induction false} SumWhereRemove<T>(t: seq<T>, k: nat, p: T -> bool, v: T -> int)
    requires k < |t|
    ensures SumWhere(t, p, v) == SumWhere(t[..k] + t[k + 1..], p, v) + (if p(t[k]) then v(t[k]) else 0)
    decreases |t|
  {
    var last := |t| - 1;
    if k == last {
      assert t[..k] + t[k + 1..] == t[..last];
    } else {
      var u := t[..last];
      SumWhereRemove(u, k, p, v);
      var r := t[..k] + t[k + 1..];
      assert r[..|r| - 1] == u[..k] + u[k + 1..];
      assert r[|r| - 1] == t[last];
      assert u[k] == t[k];
    }
  }

  /** A sum over rows none of which passes `p` is zero. */
  lemma {:induction false} SumWhereOfNone<T>(s: seq<T>, p: T -> bool, v: T -> int)
    requires CountWhere(s, p) == 0
    ensures SumWhere(s, p, v) == 0
    decreases |s|
  {
    if |s| > 0 {
      SumWhereOfNone(s[..|s| - 1], p, v);
    }
  }

  /** Replacing one row changes a sum by the difference of the two rows' contributions. */
  lemma {:induction false} SumWhereUpdate<T>(s: seq<T>, i: int, x: T, p: T -> bool, v: T -> int)
    requires 0 <= i < |s|
    ensures SumWhere(s[i := x], p, v) ==
      SumWhere(s, p, v) - (if p(s[i]) then v(s[i]) else 0) + (if p(x) then v(x) else 0)
    decreases |s|
  {
    var n := |s|;
    if i == n - 1 {
      assert s[i := x][..n - 1] == s[..n - 1];
    } else {
      assert s[i := x][..n - 1] == s[..n - 1][i := x];
      SumWhereUpdate(s[..n - 1], i, x, p, v);
    }
  }

  /** An update that matches no row changes nothing. */
  lemma UpdateWhereNone<T>(s: seq<T>, p: T -> bool, f: T -> T)
    requires forall i :: 0 <= i < |s| ==> !p(s[i])
    ensures UpdateWhere(s, p, f) == s
  {
  }

  lemma {:induction false} ReversedMultiset<T>(s: seq<T>)
    ensures multiset(Reversed(s)) == multiset(s)
    ensures |Reversed(s)| == |s|
    decreases |s|
  {
    if |s| > 0 {
      ReversedMultiset(s[..|s| - 1]);
      assert s == s[..|s| - 1] + [s[|s| - 1]];
    }
  }

  /** The i-th row of the reversal is the i-th row from the end. */
  lemma {:induction false} ReversedAt<T>(s: seq<T>)
    ensures |Reversed(s)| == |s|
    ensures forall i :: 0 <= i < |s| ==> Reversed(s)[i] == s[|s| - 1 - i]
    decreases |s|
  {
    if |s| > 0 {
      var init := s[..|s| - 1];
      ReversedAt(init);
      forall i | 0 <= i < |s| ensures Reversed(s)[i] == s[|s| - 1 - i] {
        if i > 0 {
          assert Reversed(s)[i] == Reversed(init)[i - 1];
        }
      }
    }
  }

  /** A filter keeps the order of the table: two kept rows sit in the table in the
      order they have in the filtered sequence. */
  lemma {:induction false} FilterInOrder<T>(s: seq<T>, p: T -> bool, a: nat, b: nat)
    requires a < b < |Filter(s, p)|
    ensures exists i, j :: 0 <= i < j < |s| && s[i] == Filter(s, p)[a] && s[j] == Filter(s, p)[b]
    decreases |s|
  {
    var init := s[..|s| - 1];
    var f := Filter(init, p);
    assert Filter(s, p) == f + (if p(s[|s| - 1]) then [s[|s| - 1]] else []);
    if b < |f| {
      FilterInOrder(init, p, a, b);
      var i, j :| 0 <= i < j < |init| && init[i] == f[a] && init[j] == f[b];
      assert s[i] == Filter(s, p)[a] && s[j] == Filter(s, p)[b];
    } else {
      assert Filter(s, p)[b] == s[|s| - 1];
      assert f[a] in f;
      FilterMember(init, p, f[a]);
      var i :| 0 <= i < |init| && init[i] == f[a];
      assert s[i] == Filter(s, p)[a];
    }
  }

  /** A filter that no row passes leaves nothing. */
  lemma {:induction false} FilterNone<T>(s: seq<T>, p: T -> bool)
    requires forall i :: 0 <= i < |s| ==> !p(s[i])
    ensures Filter(s, p) == []
    decreases |s|
  {
    if |s| > 0 {
      FilterNone(s[..|s| - 1], p);
    }
  }

  /** A second update of the same rows that overwrites what the first one wrote
      has the effect of the second alone. */
  lemma UpdateWhereTwice<T>(s: seq<T>, p: T -> bool, f: T -> T, g: T -> T)
    requires forall x :: p(f(x)) == p(x) && g(f(x)) == g(x)
    ensures UpdateWhere(UpdateWhere(s, p, f), p, g) == UpdateWhere(s, p, g)
  {
    var r := UpdateWhere(UpdateWhere(s, p, f), p, g);
    forall i | 0 <= i < |s| ensures r[i] == UpdateWhere(s, p, g)[i] {
      if p(s[i]) {
        assert p(f(s[i]));
      }
    }
  }

  /** Updating the rows a search selects does not change which row it finds. */
  lemma {:induction false} FindUpdated<T>(s: seq<T>, p: T -> bool, f: T -> T)
    requires forall x :: p(f(x)) == p(x)
    ensures Find(UpdateWhere(s, p, f), p) == if Find(s, p).Some? then Some(f(Find(s, p).value)) else None
    decreases |s|
  {
    if |s| > 0 {
      assert UpdateWhere(s, p, f)[1..] == UpdateWhere(s[1..], p, f);
      FindUpdated(s[1..], p, f);
    }
  }

  /** A filter of a sequence without repeats has no repeats. */
  lemma {:induction false} FilterDistinct<T>(s: seq<T>, p: T -> bool)
    requires forall i, j :: 0 <= i < j < |s| ==> s[i] != s[j]
    ensures var f := Filter(s, p); forall i, j :: 0 <= i < j < |f| ==> f[i] != f[j]
    decreases |s|
  {
    if |s| > 0 {
      var init, last := s[..|s| - 1], s[|s| - 1];
      FilterDistinct(init, p);
      if p(last) {
        var f := Filter(init, p);
        forall i | 0 <= i < |f| ensures f[i] != last {
          FilterMember(init, p, f[i]);
        }
      }
    }
  }

  /** Every row either passes `p` or passes its complement. */
  lemma {:induction false} CountWhereComplement<T>(s: seq<T>, p: T -> bool, q: T -> bool)
    requires forall x :: q(x) == !p(x)
    ensures CountWhere(s, p) + CountWhere(s, q) == |s|
    decreases |s|
  {
    if |s| > 0 {
      CountWhereComplement(s[..|s| - 1], p, q);
    }
  }

  /** Exactly one position passes `p`. */
  lemma {:induction false} CountSingle<T>(s: seq<T>, p: T -> bool, i: int)
    requires 0 <= i < |s| && p(s[i])
    requires forall j :: 0 <= j < |s| && j != i ==> !p(s[j])
    ensures CountWhere(s, p) == 1
    decreases |s|
  {
    if i < |s| - 1 {
      CountSingle(s[..|s| - 1], p, i);
    } else {
      CountNone(s[..|s| - 1], p);
    }
  }

  /** No position passes `p`. */
  lemma {:induction false} CountNone<T>(s: seq<T>, p: T -> bool)
    requires forall j :: 0 <= j < |s| ==> !p(s[j])
    ensures CountWhere(s, p) == 0
    decreases |s|
  {
    if |s| > 0 {
      CountNone(s[..|s| - 1], p);
    }
  }

  /** The search finds the only row that passes `p`. */
  lemma {:induction false} FindSingle<T>(s: seq<T>, p: T -> bool, i: int)
    requires 0 <= i < |s| && p(s[i])
    requires forall j :: 0 <= j < |s| && j != i ==> !p(s[j])
    ensures Find(s, p) == Some(s[i])
    decreases |s|
  {
    if i > 0 {
      FindSingle(s[1..], p, i - 1);
    }
  }

  /** Two rows of a table with unique keys that share a key are the same row. */
  lemma KeyedSame<T>(s: seq<T>, key: T -> nat, bound: nat, i: int, j: int)
    requires KeyedBelow(s, key, bound) && 0 <= i < |s| && 0 <= j < |s| && key(s[i]) == key(s[j])
    ensures i == j
  {
  }

  /** In a table with unique keys no row occurs before its own position. */
  lemma KeyedNotBefore<T>(s: seq<T>, key: T -> nat, bound: nat, k: int)
    requires KeyedBelow(s, key, bound) && 0 <= k < |s|
    ensures s[k] !in s[..k]
  {
  }

  /** Decimal digits of a non-negative number, as `${n}` prints it. */
  function NatText(n: nat): string
    decreases n
  {
    var digit := ["0", "1", "2", "3", "4", "5", "6", "7", "8", "9"][n % 10];
    if n < 10 then digit else NatText(n / 10) + digit
  }

  /** `${n}` for any integer. */
  function NumberText(n: int): string {
    if n < 0 then "-" + NatText(-n) else NatText(n)
  }

  // ---------------------------------------------------------------------
  // Stable insertion sort by an integer key (ascending); a descending order
  // is the ascending order of the negated key.

  predicate SortedBy<T>(s: seq<T>, key: T -> int) {
    forall i, j :: 0 <= i < j < |s| ==> key(s[i]) <= key(s[j])
  }

  /** Places `x` before the first element whose key is not below `x`'s. */
  function InsertBy<T>(x: T, s: seq<T>, key: T -> int): seq<T>
    decreases |s|
  {
    if |s| == 0 then [x]
    else if key(x) <= key(s[0]) then [x] + s
    else [s[0]] + InsertBy(x, s[1..], key)
  }

  function SortBy<T>(s: seq<T>, key: T -> int): seq<T>
    decreases |s|
  {
    if |s| == 0 then [] else InsertBy(s[0], SortBy(s[1..], key), key)
  }

  lemma {:induction false} InsertByMember<T>(x: T, s: seq<T>, key: T -> int, y: T)
    ensures y in InsertBy(x, s, key) <==> y == x || y in s
    decreases |s|
  {
    if |s| > 0 && key(x) > key(s[0]) {
      InsertByMember(x, s[1..], key, y);
      assert s == [s[0]] + s[1..];
    }
  }

  lemma {:induction false} InsertByMultiset<T>(x: T, s: seq<T>, key: T -> int)
    ensures multiset(InsertBy(x, s, key)) == multiset(s) + multiset{x}
    decreases |s|
  {
    if |s| > 0 && key(x) > key(s[0]) {
      InsertByMultiset(x, s[1..], key);
      assert s == [s[0]] + s[1..];
    }
  }

  lemma {:induction false} InsertBySorted<T>(x: T, s: seq<T>, key: T -> int)
    requires SortedBy(s, key)
    ensures SortedBy(InsertBy(x, s, key), key)
    decreases |s|
  {
    if |s| > 0 && key(x) > key(s[0]) {
      var t := s[1..];
      InsertBySorted(x, t, key);
      var r := InsertBy(x, t, key);
      forall k | 0 <= k < |r| ensures key(s[0]) <= key(r[k]) {
        assert r[k] in r;
        if r[k] != x {
          InsertByMember(x, t, key, r[k]);
          var m :| 0 <= m < |t| && t[m] == r[k];
          assert s[m + 1] == r[k];
        }
      }
      assert InsertBy(x, s, key) == [s[0]] + r;
    }
  }

  /** The sort returns its input in key order (ascending) and loses or adds nothing. */
  lemma SortByFacts<T>(s: seq<T>, key: T -> int)
    ensures SortedBy(SortBy(s, key), key)
    ensures multiset(SortBy(s, key)) == multiset(s)
    ensures |SortBy(s, key)| == |s|
  {
    SortByIsSorted(s, key);
    SortByPermutes(s, key);
    assert |multiset(SortBy(s, key))| == |multiset(s)|;
  }

  lemma {:induction false} SortByIsSorted<T>(s: seq<T>, key: T -> int)
    ensures SortedBy(SortBy(s, key), key)
    decreases |s|
  {
    if |s| > 0 {
      SortByIsSorted(s[1..], key);
      InsertBySorted(s[0], SortBy(s[1..], key), key);
    }
  }

  lemma {:induction false} SortByPermutes<T>(s: seq<T>, key: T -> int)
    ensures multiset(SortBy(s, key)) == multiset(s)
    decreases |s|
  {
    if |s| > 0 {
      var t := SortBy(s[1..], key);
      SortByPermutes(s[1..], key);
      InsertByMultiset(s[0], t, key);
      assert s == [s[0]] + s[1..];
      assert multiset(s) == multiset(s[1..]) + multiset{s[0]};
    }
  }

  /** Sorting a sequence already in key order returns it unchanged. */
  lemma {:induction false} SortBySorted<T>(s: seq<T>, key: T -> int)
    requires SortedBy(s, key)
    ensures SortBy(s, key) == s
    decreases |s|
  {
    if |s| > 0 {
      SortBySorted(s[1..], key);
      if |s| > 1 {
        assert key(s[0]) <= key(s[1]);
        assert s[1..][0] == s[1];
      }
      assert s == [s[0]] + s[1..];
    }
  }
}
