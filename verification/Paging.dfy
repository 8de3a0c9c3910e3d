// Pages over the pending transactions of an account followed by its confirmed ones.
module Paging {
  const MAX_SAFE_INT: nat := 1000000000

  /** Saturates instead of growing past the limit. */
  function SafeMultiply(a: int, b: int): (r: nat)
    ensures r <= MAX_SAFE_INT
  {
    if a > 0 && b > 0 then (if a > MAX_SAFE_INT / b then MAX_SAFE_INT else Product(a, b)) else 0
  }

  function Product(a: nat, b: nat): (r: nat)
    requires b > 0 && a <= MAX_SAFE_INT / b
    ensures r == a * b <= MAX_SAFE_INT
  {
    Quotient(a, b, MAX_SAFE_INT);
    a * b
  }

  lemma Quotient(a: nat, b: nat, n: nat)
    requires b > 0
    ensures a <= n / b <==> a * b <= n
  {
    var q, r := n / b, n % b;
    assert n == q * b + r;
    if a <= q { MulLe(a, q, b); } else { MulLe(q + 1, a, b); assert (q + 1) * b == q * b + b; }
  }

  lemma MulLe(x: nat, y: nat, b: nat)
    requires x <= y
    ensures x * b <= y * b
  {
  }

  /** Page and total are as shown, counted from 1; `from`, `to` and `normalized` are for the code. */
  datatype Page = Page(itemsOnPage: int, page: int, totalPages: int, from: nat, to: nat, normalized: nat)

  function ComputePaging(count: int, page: int, itemsOnPage: int): Page {
    var page := if page < 0 then 0 else page;
    var items := if itemsOnPage <= 0 then 1 else itemsOnPage;
    var count := if count < 0 then 0 else count;
    var total := if count == 0 then 0 else (count - 1) / items;
    var beyond := SafeMultiply(page, items) >= count;
    var page := if beyond then total else page;
    var from := SafeMultiply(page, items);
    var to := SafeMultiply(page + 1, items);
    Page(items, page + 1, total + 1, from, if to > count then count else to, page)
  }

  function Min(a: int, b: int): int { if a < b then a else b }

  function Max(a: int, b: int): int { if a > b then a else b }

  /** clampRange */
  function Clamp(from: int, to: int, length: nat): (r: (nat, nat))
    ensures r.0 <= r.1 <= length
  {
    var from := Min(Max(from, 0), length);
    (from, Min(Max(to, from), length))
  }

  // ---------------------------------------------------------------- what a page is

  /** The page actually shown: the last one when `page` lies beyond it. */
  function Shown(count: nat, page: nat, k: nat): nat
    requires k > 0
  {
    if page * k >= count then (if count == 0 then 0 else (count - 1) / k) else page
  }

  lemma LastPage(count: nat, k: nat)
    requires k > 0 && count > 0
    ensures var l := (count - 1) / k; l * k < count <= (l + 1) * k
  {
    var l := (count - 1) / k;
    assert count - 1 == l * k + (count - 1) % k;
    assert (l + 1) * k == l * k + k;
  }

  /** The page shown with its number, the number of pages, and the slice of at most `k` items it should be. */
  predicate IsSlice(g: Page, count: nat, page: nat, k: nat)
    requires k > 0
  {
    var p := Shown(count, page, k);
    && g.normalized == p && g.page == p + 1 && g.totalPages == (if count == 0 then 0 else (count - 1) / k) + 1
    && g.from == p * k <= g.to && g.to == Min((p + 1) * k, count) && g.to <= count
  }

  /** A page is what it should be exactly when no product that matters saturates. */
  lemma PagingIsSlicesExactly(count: nat, page: nat, k: nat)
    requires k > 0
    ensures IsSlice(ComputePaging(count, page, k), count, page, k)
            <==> count <= MAX_SAFE_INT || (page + 1) * k <= MAX_SAFE_INT
  {
    hide SafeMultiply;
    var p := Shown(count, page, k);
    ShownStarts(count, page, k);
    Multiplied(page, k);
    Multiplied(page + 1, k);
    Multiplied(p, k);
    Multiplied(p + 1, k);
    Next(p, k);
    Next(page, k);
  }

  lemma Next(p: nat, k: nat)
    ensures (p + 1) * k == p * k + k
  {
  }

  lemma PagingIsSlices(count: nat, page: nat, k: nat)
    requires k > 0 && count <= MAX_SAFE_INT
    ensures IsSlice(ComputePaging(count, page, k), count, page, k)
  {
    hide ComputePaging, IsSlice;
    PagingIsSlicesExactly(count, page, k);
  }

  lemma Multiplied(a: nat, b: nat)
    requires b > 0
    ensures SafeMultiply(a, b) == Min(a * b, MAX_SAFE_INT)
  {
    Quotient(a, b, MAX_SAFE_INT);
  }

  lemma ShownStarts(count: nat, page: nat, k: nat)
    requires k > 0
    ensures var p := Shown(count, page, k); p * k <= count && (count > 0 ==> p * k < count) && p <= page
  {
    if count > 0 {
      LastPage(count, k);
      var l := (count - 1) / k;
      if page * k >= count && l > page { MulLe(page, l, k); }
    }
  }

  // ---------------------------------------------------------------- two parts, one sequence

  datatype Windows = Windows(pg: Page, mempoolFrom: nat, mempoolTo: nat, from: nat, to: nat)

  /** computeAccountPaging */
  function ComputeAccountPaging(mempoolCount: nat, confirmedCount: nat, page: int, itemsOnPage: int): (w: Windows)
    ensures w.mempoolFrom <= w.mempoolTo <= mempoolCount && w.from <= w.to <= confirmedCount
  {
    var g := ComputePaging(mempoolCount + confirmedCount, page, itemsOnPage);
    var m := Clamp(g.from, g.to, mempoolCount);
    var c := Clamp(g.from - mempoolCount, g.to - mempoolCount, confirmedCount);
    Windows(g, m.0, m.1, c.0, c.1)
  }

  /** The bounds of a page lie within what there is, also where they saturate. */
  lemma PagingInside(count: nat, page: nat, k: nat)
    requires k > 0
    ensures var g := ComputePaging(count, page, k); g.from <= g.to <= count
  {
    hide SafeMultiply, IsSlice;
    PagingIsSlicesExactly(count, page, k);
    if count <= MAX_SAFE_INT {
      SliceInside(ComputePaging(count, page, k), count, page, k);
    } else {
      Multiplied(page, k);
      Multiplied(page + 1, k);
      Next(page, k);
    }
  }

  lemma SliceInside(g: Page, count: nat, page: nat, k: nat)
    requires k > 0 && IsSlice(g, count, page, k)
    ensures g.from <= g.to <= count
  {
  }

  /** A page of the pending transactions followed by the confirmed ones, by the bounds computed for all of them. */
  function FullPage<T>(mempool: seq<T>, confirmed: seq<T>, page: nat, k: nat): seq<T>
    requires k > 0
  {
    var all := mempool + confirmed;
    PagingInside(|all|, page, k);
    var g := ComputePaging(|all|, page, k);
    all[g.from..g.to]
  }

  /** The two windows make up the page. */
  lemma WindowsMakePage<T>(mempool: seq<T>, confirmed: seq<T>, page: nat, k: nat)
    requires k > 0
    ensures var w := ComputeAccountPaging(|mempool|, |confirmed|, page, k);
            mempool[w.mempoolFrom..w.mempoolTo] + confirmed[w.from..w.to] == FullPage(mempool, confirmed, page, k)
  {
    hide ComputePaging, Clamp;
    PagingInside(|mempool| + |confirmed|, page, k);
    var g := ComputePaging(|mempool| + |confirmed|, page, k);
    SlicesOfParts(mempool, confirmed, g.from, g.to);
  }

  lemma SlicesOfParts<T>(x: seq<T>, y: seq<T>, from: nat, to: nat)
    requires from <= to <= |x| + |y|
    ensures var m, c := Clamp(from, to, |x|), Clamp(from - |x|, to - |x|, |y|);
            x[m.0..m.1] + y[c.0..c.1] == (x + y)[from..to]
  {
  }

  /** How much of the history is fetched for a page. */
  function Limit(page: nat, k: nat): nat { (page + 1) * k }

  lemma LimitLater(page: nat, k: nat)
    ensures Limit(page, k) == page * k + k >= k
  {
    MulLe(0, page, k);
  }

  /** Paging over what was fetched gives the windows of paging over everything, and these lie within what was
      fetched and retained. */
  lemma TruncationIsInvisible(m: nat, n: nat, page: nat, k: nat)
    requires k > 0
    ensures var fetched := Min(n, Limit(page, k));
            var w, f := ComputeAccountPaging(m, n, page, k), ComputeAccountPaging(m, fetched, page, k);
            && f == w.(pg := f.pg) && f.pg == w.pg.(totalPages := f.pg.totalPages)
            && w.mempoolTo <= Min(m, Limit(page, k)) && w.to <= fetched
            && (fetched < k ==> f == w)
  {
    hide ComputePaging, IsSlice, Limit;
    var fetched := Min(n, Limit(page, k));
    ItemsOnPage(m + n, page, k);
    ItemsOnPage(m + fetched, page, k);
    LimitLater(page, k);
    SamePage(m + n, m + fetched, page, k);
  }

  /** Of a page nothing but the number of pages depends on what comes after it. */
  lemma SamePage(count: nat, fetched: nat, page: nat, k: nat)
    requires k > 0 && (fetched == count || (fetched < count && fetched >= Limit(page, k)))
    ensures var g, h := ComputePaging(count, page, k), ComputePaging(fetched, page, k);
            && g.from == h.from && g.to == h.to && g.page == h.page && g.normalized == h.normalized
            && g.from <= g.to <= fetched && g.to <= Limit(page, k)
  {
    hide SafeMultiply;
    LimitLater(page, k);
    PagingInside(fetched, page, k);
    Multiplied(page, k);
    Multiplied(page + 1, k);
    if SafeMultiply(page, k) >= count { BeyondEnds(count, page, k); }
  }

  /** A page asked for beyond the end is shown as the last one, which ends before it. */
  lemma BeyondEnds(count: nat, page: nat, k: nat)
    requires k > 0 && SafeMultiply(page, k) >= count
    ensures ComputePaging(count, page, k).to <= Limit(page, k)
  {
    hide SafeMultiply, ComputePaging;
    PagingIsSlices(count, page, k);
    LimitLater(page, k);
    ShownStarts(count, page, k);
    MulLe(Shown(count, page, k) + 1, page + 1, k);
  }

  lemma ItemsOnPage(count: nat, page: nat, k: nat)
    requires k > 0
    ensures ComputePaging(count, page, k).itemsOnPage == k
  {
  }

  // ---------------------------------------------------------------- all pages

  function Pages<T>(mempool: seq<T>, confirmed: seq<T>, k: nat, n: nat): seq<T>
    requires k > 0
  {
    if n == 0 then [] else Pages(mempool, confirmed, k, n - 1) + FullPage(mempool, confirmed, n - 1, k)
  }

  /** The number of pages does not saturate. */
  lemma TotalPages(count: nat, k: nat)
    requires k > 0
    ensures ComputePaging(count, 0, k).totalPages == (if count == 0 then 0 else (count - 1) / k) + 1
  {
  }

  /** The pages one after the other are the whole sequence, as far as their bounds do not saturate: no gap, no
      repeat. */
  lemma {:induction false} PagesConcatenate<T>(mempool: seq<T>, confirmed: seq<T>, k: nat, n: nat)
    requires k > 0 && (|mempool| + |confirmed| <= MAX_SAFE_INT || n * k <= MAX_SAFE_INT)
    requires n <= ComputePaging(|mempool| + |confirmed|, 0, k).totalPages
    ensures Pages(mempool, confirmed, k, n) == (mempool + confirmed)[..Min(n * k, |mempool| + |confirmed|)]
    ensures n == ComputePaging(|mempool| + |confirmed|, 0, k).totalPages ==>
            Pages(mempool, confirmed, k, n) == mempool + confirmed
  {
    hide ComputePaging, FullPage, Min;
    var all, count := mempool + confirmed, |mempool| + |confirmed|;
    PagesEnd(count, k, n);
    if n > 0 {
      Next(n - 1, k);
      PagesConcatenate(mempool, confirmed, k, n - 1);
      PageAt(mempool, confirmed, k, n - 1);
      PagesEnd(count, k, n - 1);
      Slices(all, (n - 1) * k, Min(n * k, count));
    }
  }

  /** The pages before the last one are full, and the last one ends the sequence. */
  lemma PagesEnd(count: nat, k: nat, n: nat)
    requires k > 0 && n <= ComputePaging(count, 0, k).totalPages
    ensures n > 0 ==> (n - 1) * k <= count && (n - 1) * k <= Min(n * k, count)
    ensures n < ComputePaging(count, 0, k).totalPages ==> Min(n * k, count) == n * k
    ensures n == ComputePaging(count, 0, k).totalPages ==> Min(n * k, count) == count
    ensures 0 <= Min(n * k, count) <= count && (n == 0 ==> Min(n * k, count) == 0)
  {
    hide ComputePaging;
    TotalPages(count, k);
    var last := if count == 0 then 0 else (count - 1) / k;
    if count > 0 {
      LastPage(count, k);
      if n <= last { MulLe(n, last, k); }
    }
    assert n > 0 ==> n * k == (n - 1) * k + k;
    assert n > last ==> n * k == last * k + k;
    if n > 0 { MulLe(n - 1, last, k); }
  }

  lemma PageAt<T>(mempool: seq<T>, confirmed: seq<T>, k: nat, p: nat)
    requires k > 0 && (|mempool| + |confirmed| <= MAX_SAFE_INT || (p + 1) * k <= MAX_SAFE_INT)
    requires p < ComputePaging(|mempool| + |confirmed|, 0, k).totalPages
    ensures var all := mempool + confirmed;
            p * k <= Min((p + 1) * k, |all|)
                && FullPage(mempool, confirmed, p, k) == all[p * k..Min((p + 1) * k, |all|)]
  {
    hide ComputePaging;
    var count := |mempool| + |confirmed|;
    TotalPages(count, k);
    PagingIsSlicesExactly(count, p, k);
    if count > 0 {
      LastPage(count, k);
      MulLe(p, (count - 1) / k, k);
    }
    assert Shown(count, p, k) == p;
  }

  lemma Slices<T>(all: seq<T>, a: nat, b: nat)
    requires a <= b <= |all|
    ensures all[..a] + all[a..b] == all[..b] && all[..|all|] == all
  {
  }

  // ---------------------------------------------------------------- the account history

  /** What is shown of the paging: page and total, -1 where the total cannot be known. */
  datatype Shows = Shows(page: int, totalPages: int)

  /** The paging part of GetAddress. `totalResults` is the number of confirmed transactions, -1 when a filter hides
      it. */
  method AccountPage<T>(mempool: seq<T>, confirmed: seq<T>, page: nat, k: nat, totalResults: int)
    returns (items: seq<T>, shows: Shows)
    requires k > 0 && (totalResults == -1 || totalResults == |confirmed|)
    ensures items == FullPage(mempool, confirmed, page, k)
    ensures |mempool| + |confirmed| <= MAX_SAFE_INT || (page + 1) * k <= MAX_SAFE_INT
            <==> IsSlice(ComputePaging(|mempool| + |confirmed|, page, k), |mempool| + |confirmed|, page, k)
    ensures var full := ComputePaging(|mempool| + |confirmed|, page, k);
            && shows.page == full.page
            && shows.totalPages == if totalResults == -1 && |confirmed| >= k then -1 else full.totalPages
  {
    hide ComputePaging, FullPage, Limit, IsSlice;
    PagingIsSlicesExactly(|mempool| + |confirmed|, page, k);
    LimitLater(page, k);
    TruncationIsInvisible(|mempool|, |confirmed|, page, k);
    WindowsMakePage(mempool, confirmed, page, k);
    var mempoolTxs := Retain(mempool, Limit(page, k));
    var txc := confirmed[..Min(|confirmed|, Limit(page, k))];
    var w := ComputeAccountPaging(|mempool|, |txc|, page, k);
    shows := Shows(w.pg.page, w.pg.totalPages);
    if |txc| >= k {
      if totalResults < 0 {
        shows := shows.(totalPages := -1);
      } else {
        Again(totalResults + |mempool|, page, k);
        var g := ComputePaging(totalResults + |mempool|, w.pg.normalized, k);
        shows := Shows(g.page, g.totalPages);
      }
    }
    Within(mempool, |mempoolTxs|, w.mempoolFrom, w.mempoolTo);
    Within(confirmed, |txc|, w.from, w.to);
    items := mempoolTxs[w.mempoolFrom..w.mempoolTo] + txc[w.from..w.to];
  }

  lemma Within<T>(all: seq<T>, n: nat, from: nat, to: nat)
    requires from <= to <= n <= |all|
    ensures all[..n][from..to] == all[from..to]
  {
  }

  /** Asking for the page that is shown shows it again. */
  lemma Again(count: nat, page: nat, k: nat)
    requires k > 0
    ensures var g := ComputePaging(count, page, k);
            var h := ComputePaging(count, g.normalized, k);
            h.page == g.page && h.totalPages == g.totalPages
  {
    hide SafeMultiply;
    if count <= MAX_SAFE_INT {
      PagingIsSlices(count, page, k);
      PagingIsSlices(count, Shown(count, page, k), k);
      ShownStarts(count, page, k);
    }
  }

  /** Keeps the first `limit` entries. */
  method Retain<T>(all: seq<T>, limit: nat) returns (kept: seq<T>)
    ensures kept == all[..Min(|all|, limit)]
  {
    kept := [];
    for i := 0 to |all|
      invariant kept == all[..Min(i, limit)]
    {
      if |kept| < limit {
        kept := kept + [all[i]];
      }
    }
  }
}
