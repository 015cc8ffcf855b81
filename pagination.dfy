/** The paging arithmetic both list handlers share: a query skips
    `(page - 1) * limit` documents and returns at most `limit`, and the
    response reports `Math.ceil(count / limit)` pages. */
module Pagination {

  /** How many documents `.skip((page - 1) * limit)` passes over. */
  function Skip(page: int, limit: int): (n: int)
    requires page >= 1 && limit >= 1
    ensures n >= 0
  {
    MulLe(0, page - 1, limit);
    (page - 1) * limit
  }

  /** Math.ceil(count / limit): the least number of pages of `limit`
      documents that hold `count` documents. */
  function TotalPages(count: nat, limit: int): (r: nat)
    requires limit >= 1
    ensures r * limit >= count
    ensures r == 0 || (r - 1) * limit < count
    ensures count == 0 <==> r == 0
  {
    CeilingDivision(count, limit);
    (count + limit - 1) / limit
  }

  lemma CeilingDivision(count: nat, limit: int)
    requires limit >= 1
    ensures var r := (count + limit - 1) / limit;
            && r >= 0 && r * limit >= count
            && (r == 0 || (r - 1) * limit < count)
            && (count == 0 <==> r == 0)
  {
    var x := count + limit - 1;
    var r := x / limit;
    var m := x % limit;
    assert r * limit + m == x && 0 <= m < limit;
    MulStep(r, limit);
    if r < 0 {
      MulLe(r, -1, limit);
    }
    if count == 0 && r >= 1 {
      MulLe(1, r, limit);
    }
  }

  function Min(a: int, b: int): int {
    if a <= b then a else b
  }

  /** What `.skip(Skip(page, limit)).limit(limit)` returns from the
      matching documents in query order. */
  function PageOf<T>(items: seq<T>, page: int, limit: int): (r: seq<T>)
    requires page >= 1 && limit >= 1
    ensures |r| <= limit
    ensures forall k :: 0 <= k < |r| ==> Skip(page, limit) + k < |items| && r[k] == items[Skip(page, limit) + k]
  {
    var s := Skip(page, limit);
    if s >= |items| then [] else items[s..Min(s + limit, |items|)]
  }

  /** Pages 1..n, one after another. */
  function PagesUpTo<T>(items: seq<T>, limit: int, n: nat): seq<T>
    requires limit >= 1
  {
    if n == 0 then [] else PagesUpTo(items, limit, n - 1) + PageOf(items, n, limit)
  }

  /** The first n pages are exactly the first n * limit items. */
  lemma {:induction false} PagesUpToIsPrefix<T>(items: seq<T>, limit: int, n: nat)
    requires limit >= 1
    ensures PagesUpTo(items, limit, n) == items[..Min(n * limit, |items|)]
  {
    if n > 0 {
      PagesUpToIsPrefix(items, limit, n - 1);
      MulStep(n, limit);
      NextPageExtends(items, limit, n);
    }
  }

  /** Page n continues the items where the pages before it stop. */
  lemma NextPageExtends<T>(items: seq<T>, limit: int, n: int)
    requires limit >= 1 && n >= 1
    ensures var a := Skip(n, limit);
            items[..Min(a, |items|)] + PageOf(items, n, limit) == items[..Min(a + limit, |items|)]
  {
    var a := Skip(n, limit);
    var page := PageOf(items, n, limit);
    if a >= |items| {
      assert page == [];
    } else {
      assert page == items[a..Min(a + limit, |items|)];
    }
  }

  lemma MulStep(n: int, limit: int)
    ensures n * limit == (n - 1) * limit + limit
  {
  }

  lemma MulLe(a: int, b: int, limit: int)
    requires a <= b && limit >= 1
    ensures a * limit <= b * limit
  {
    assert b * limit - a * limit == (b - a) * limit;
  }

  /** Reading pages 1..TotalPages returns every item once, in order. */
  lemma AllPagesCoverItems<T>(items: seq<T>, limit: int)
    requires limit >= 1
    ensures PagesUpTo(items, limit, TotalPages(|items|, limit)) == items
  {
    PagesUpToIsPrefix(items, limit, TotalPages(|items|, limit));
  }

  /** Item i is on page i / limit + 1, which is never past the last page. */
  lemma ItemPage<T>(items: seq<T>, limit: int, i: int)
    requires limit >= 1 && 0 <= i < |items|
    ensures var p := i / limit + 1;
            p <= TotalPages(|items|, limit)
            && Skip(p, limit) <= i < Skip(p, limit) + limit
            && PageOf(items, p, limit)[i - Skip(p, limit)] == items[i]
  {
    var q := i / limit;
    var p := q + 1;
    DivBounds(i, limit);
    var sk := Skip(p, limit);
    assert sk == q * limit;
    var t := TotalPages(|items|, limit);
    if p > t {
      MulLe(t, q, limit);
      assert false;
    }
    var page := PageOf(items, p, limit);
    assert page == items[sk..Min(sk + limit, |items|)];
  }

  /** i lies in the block of `limit` numbers that starts at (i / limit) * limit. */
  lemma DivBounds(i: int, limit: int)
    requires limit >= 1 && i >= 0
    ensures (i / limit) * limit <= i < (i / limit) * limit + limit
  {
    assert (i / limit) * limit + i % limit == i;
  }

  /** Pages past the last one are empty. */
  lemma PastLastPage<T>(items: seq<T>, limit: int, page: int)
    requires limit >= 1 && page > TotalPages(|items|, limit)
    ensures PageOf(items, page, limit) == []
  {
    MulLe(TotalPages(|items|, limit), page - 1, limit);
  }
}
