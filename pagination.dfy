// Offset pagination as the list endpoints compute it: a page of `limit`
// rows starting at `offset = (page - 1) * limit`, and two ways of telling
// whether another page follows.
module Pagination {
  import opened Common

  datatype Page<T> = Page(
    docs: seq<T>,
    total: nat,
    limit: int,
    page: int,
    offset: int,
    hasNextPage: bool,
    hasPrevPage: bool)

  /** `skip: offset, take: limit` over the ordered result rows. */
  function Window<T>(s: seq<T>, offset: nat, limit: nat): (r: seq<T>)
    ensures |r| <= limit
    ensures offset <= |s| ==> |r| == if offset + limit <= |s| then limit else |s| - offset
    ensures offset > |s| ==> r == []
    ensures forall i :: 0 <= i < |r| ==> offset + i < |s| && r[i] == s[offset + i]
    ensures offset + limit < |s| <==> offset + |r| < |s|
  {
    if offset >= |s| then []
    else if offset + limit <= |s| then s[offset..offset + limit]
    else s[offset..]
  }

  /** Page `page` (counting from 1) of `limit` rows: rows `(page - 1) * limit` onwards. */
  function PageOf<T>(s: seq<T>, page: nat, limit: nat): (r: seq<T>)
    requires page >= 1
    ensures |r| <= limit
    ensures page * limit < |s| ==> |r| == limit
    ensures (page - 1) * limit < |s| ==> |r| == if page * limit <= |s| then limit else |s| - (page - 1) * limit
    ensures (page - 1) * limit >= |s| ==> r == []
    ensures forall i :: 0 <= i < |r| ==> (page - 1) * limit + i < |s| && r[i] == s[(page - 1) * limit + i]
    ensures forall x :: x in r ==> x in s
  {
    assert (page - 1) * limit + limit == page * limit;
    Window(s, (page - 1) * limit, limit)
  }

  /** `Math.ceil(total / limit)`. */
  function TotalPages(total: nat, limit: int): (r: nat)
    requires limit >= 1
  {
    (total + limit - 1) / limit
  }

  /** Pages 1 to `n` one after the other. */
  function Pages<T>(s: seq<T>, limit: nat, n: nat): seq<T>
    decreases n
  {
    if n == 0 then [] else Pages(s, limit, n - 1) + PageOf(s, n, limit)
  }

  /** The page row `j` (counting from 0) falls on: `j / limit + 1`. */
  function PageOfRow(j: nat, limit: nat): (p: nat)
    requires limit >= 1
    ensures p >= 1 && (p - 1) * limit <= j < p * limit
  {
    var q := j / limit;
    assert q * limit + j % limit == j;
    assert (q + 1) * limit == q * limit + limit;
    q + 1
  }

  /** The position of row `j` on its page: `j % limit`. */
  function PlaceOnPage(j: nat, limit: nat): (k: nat)
    requires limit >= 1
    ensures k < limit && (PageOfRow(j, limit) - 1) * limit + k == j
  {
    var q := j / limit;
    assert q * limit + j % limit == j;
    j % limit
  }

  /** Row `j` is on page `PageOfRow(j, limit)`, at position `PlaceOnPage(j, limit)`. */
  lemma RowOnItsPage<T>(s: seq<T>, limit: nat, j: nat)
    requires limit >= 1 && j < |s|
    ensures var pg := PageOf(s, PageOfRow(j, limit), limit);
      PlaceOnPage(j, limit) < |pg| && pg[PlaceOnPage(j, limit)] == s[j]
  {
  }

  /** Read newest first, that is from the end backwards, row `j` from the end is on page
      `PageOfRow(j, limit)` at position `PlaceOnPage(j, limit)`. */
  lemma NewestRowOnItsPage<T>(s: seq<T>, limit: nat, j: nat)
    requires limit >= 1 && j < |s|
    ensures |Reversed(s)| == |s|
    ensures var pg := PageOf(Reversed(s), PageOfRow(j, limit), limit);
      PlaceOnPage(j, limit) < |pg| && pg[PlaceOnPage(j, limit)] == s[|s| - 1 - j]
  {
    ReversedAt(s);
    RowOnItsPage(Reversed(s), limit, j);
  }

  /** `pg` is the page of `limit` rows of `s` that starts at row `skip`: a full page unless
      the rows run out, nothing past them, and its i-th row is row skip + i. */
  ghost predicate HoldsFrom<T>(pg: seq<T>, s: seq<T>, limit: int, skip: int) {
    0 <= skip && 0 <= limit &&
    (skip < |s| ==> |pg| == if skip + limit <= |s| then limit else |s| - skip) &&
    (skip >= |s| ==> |pg| == 0) &&
    forall i :: 0 <= i < |pg| ==> skip + i < |s| && pg[i] == s[skip + i]
  }

  /** `pg` is the page of `limit` rows that starts `skip` rows from the end of `s`, read
      newest first: a full page unless the rows run out, nothing past them, and its i-th
      row is the (skip + i)-th from the end. */
  ghost predicate HoldsNewest<T>(pg: seq<T>, s: seq<T>, limit: int, skip: int) {
    0 <= skip && 0 <= limit &&
    (skip < |s| ==> |pg| == if skip + limit <= |s| then limit else |s| - skip) &&
    (skip >= |s| ==> |pg| == 0) &&
    forall i :: 0 <= i < |pg| ==> skip + i < |s| && pg[i] == s[|s| - 1 - (skip + i)]
  }

  /** `skip`/`take` cut exactly that page. */
  lemma WindowHolds<T>(s: seq<T>, offset: nat, limit: nat)
    ensures HoldsFrom(Window(s, offset, limit), s, limit, offset)
  {
  }

  /** `skip`/`take` over the rows read newest first cut the page that starts `skip` rows
      from the end. */
  lemma WindowNewest<T>(s: seq<T>, skip: nat, limit: nat)
    ensures HoldsNewest(Window(Reversed(s), skip, limit), s, limit, skip)
  {
    ReversedAt(s);
    var w := Window(Reversed(s), skip, limit);
    forall i | 0 <= i < |w| ensures skip + i < |s| && w[i] == s[|s| - 1 - (skip + i)] {
      assert w[i] == Reversed(s)[skip + i];
    }
  }

  /** Page `page` of the rows read newest first starts `(page - 1) * limit` rows from the end. */
  lemma NewestPage<T>(s: seq<T>, page: nat, limit: nat, skip: nat)
    requires page >= 1 && skip == (page - 1) * limit
    ensures HoldsNewest(PageOf(Reversed(s), page, limit), s, limit, skip)
  {
    assert PageOf(Reversed(s), page, limit) == Window(Reversed(s), skip, limit);
    WindowNewest(s, skip, limit);
  }

  /** On the page that row `j` falls on, row `j` is at its place. */
  lemma FromOnItsPage<T>(pg: seq<T>, s: seq<T>, limit: nat, j: nat)
    requires limit >= 1 && j < |s|
    requires HoldsFrom(pg, s, limit, (PageOfRow(j, limit) - 1) * limit)
    ensures PlaceOnPage(j, limit) < |pg| && pg[PlaceOnPage(j, limit)] == s[j]
  {
  }

  /** The same read newest first: row `j` from the end is at its place on its page. */
  lemma NewestOnItsPage<T>(pg: seq<T>, s: seq<T>, limit: nat, j: nat)
    requires limit >= 1 && j < |s|
    requires HoldsNewest(pg, s, limit, (PageOfRow(j, limit) - 1) * limit)
    ensures PlaceOnPage(j, limit) < |pg| && pg[PlaceOnPage(j, limit)] == s[|s| - 1 - j]
  {
  }

  /** Page `page` as a slice, given where it starts. */
  lemma PageSlice<T>(s: seq<T>, page: nat, limit: nat, start: nat)
    requires page >= 1 && start == (page - 1) * limit
    ensures PageOf(s, page, limit) ==
      if start < |s| then s[start..if start + limit <= |s| then start + limit else |s|] else []
  {
  }

  /** The rows before `start`, then those from `start` to `e`, are the rows before `e`. */
  lemma SlicesJoin<T>(s: seq<T>, start: nat, e: nat)
    requires start <= e
    ensures s[..if start <= |s| then start else |s|] +
            (if start < |s| then s[start..if e <= |s| then e else |s|] else []) ==
            s[..if e <= |s| then e else |s|]
  {
  }

  /** The first `n` pages are the first `e = n * limit` rows, or all of them. */
  lemma {:induction false} PagesPrefix<T>(s: seq<T>, limit: nat, n: nat, e: nat)
    requires e == n * limit
    ensures Pages(s, limit, n) == s[..if e <= |s| then e else |s|]
    decreases n
  {
    if n > 0 {
      var start: nat := e - limit;
      assert start == (n - 1) * limit;
      PagesPrefix(s, limit, n - 1, start);
      PageSlice(s, n, limit, start);
      SlicesJoin(s, start, e);
    }
  }

  /** Joining every page gives the rows back: nothing is skipped and nothing repeated. */
  lemma PagesJoin<T>(s: seq<T>, limit: nat)
    requires limit >= 1
    ensures Pages(s, limit, TotalPages(|s|, limit)) == s
  {
    TotalPagesIsCeiling(|s|, limit);
    PagesPrefix(s, limit, TotalPages(|s|, limit), TotalPages(|s|, limit) * limit);
    assert s[..|s|] == s;
  }

  /** The page count is the least number of pages of `limit` rows that hold `total` rows. */
  lemma TotalPagesIsCeiling(total: nat, limit: int)
    requires limit >= 1
    ensures TotalPages(total, limit) * limit >= total
    ensures TotalPages(total, limit) == 0 || (TotalPages(total, limit) - 1) * limit < total
  {
    var c := TotalPages(total, limit);
    var q := total + limit - 1;
    assert q == c * limit + q % limit;
    assert 0 <= q % limit < limit;
  }

  lemma MulMonotone(a: int, b: int, l: int)
    requires a <= b && l >= 0
    ensures a * l <= b * l
  {
    assert b * l - a * l == (b - a) * l;
  }

  /** `page < totalPages` holds exactly when the rows before the end of this page are fewer than `total`. */
  lemma PageBeforeLastIff(total: nat, limit: int, page: int)
    requires limit >= 1 && page >= 0
    ensures page < TotalPages(total, limit) <==> page * limit < total
  {
    var c := TotalPages(total, limit);
    TotalPagesIsCeiling(total, limit);
    if page < c {
      MulMonotone(page, c - 1, limit);
    } else {
      MulMonotone(c, page, limit);
    }
  }

  /** The two hasNextPage rules (`offset + limit < total`, and `page < ceil(total / limit)`)
      agree whenever `offset = (page - 1) * limit`. */
  lemma NextPageRulesAgree(total: nat, limit: int, page: int)
    requires limit >= 1 && page >= 1
    ensures (page - 1) * limit + limit < total <==> page < TotalPages(total, limit)
  {
    assert (page - 1) * limit + limit == page * limit;
    PageBeforeLastIff(total, limit, page);
  }
}
