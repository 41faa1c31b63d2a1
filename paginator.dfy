/** The two parts of Django's `Paginator` the listings use: `num_pages`, which is at least one
    even for an empty list, and the items of page `p` (`get_page(p).object_list`) for a page in
    range. */
module Paginator {

  function Min(a: int, b: int): int {
    if a <= b then a else b
  }

  /** `Paginator(items, per_page).num_pages` for `count` items. */
  function NumPages(count: nat, perPage: nat): (n: nat)
    requires perPage >= 1
    ensures n >= 1
    ensures count == 0 ==> n == 1
    ensures count > 0 ==> (n - 1) * perPage < count <= n * perPage
  {
    if count == 0 then 1
    else
      var n := (count + perPage - 1) / perPage;
      DivBounds(count + perPage - 1, perPage);
      n
  }

  lemma DivBounds(a: nat, b: nat)
    requires b >= 1
    ensures (a / b) * b <= a < (a / b) * b + b
  {
  }

  /** The items of page `page` (numbered from 1). */
  function PageSlice<T>(items: seq<T>, page: nat, perPage: nat): (r: seq<T>)
    requires perPage >= 1 && 1 <= page <= NumPages(|items|, perPage)
    ensures |r| <= perPage
    ensures |items| > 0 ==> |r| > 0
  {
    PageBounds(|items|, page, perPage);
    items[(page - 1) * perPage .. Min(page * perPage, |items|)]
  }

  lemma PageBounds(count: nat, page: nat, perPage: nat)
    requires perPage >= 1 && 1 <= page <= NumPages(count, perPage)
    ensures 0 <= (page - 1) * perPage <= Min(page * perPage, count) <= count
    ensures count > 0 ==> (page - 1) * perPage < count
    ensures Min(page * perPage, count) - (page - 1) * perPage <= perPage
  {
    var n := NumPages(count, perPage);
    assert (page - 1) * perPage <= (n - 1) * perPage by {
      MulMono(page - 1, n - 1, perPage);
    }
    assert page * perPage == (page - 1) * perPage + perPage;
  }

  lemma MulMono(a: nat, b: nat, c: nat)
    requires a <= b
    ensures a * c <= b * c
  {
  }

  /** The first `k` pages, one after another. */
  function FirstPages<T>(items: seq<T>, k: nat, perPage: nat): seq<T>
    requires perPage >= 1 && k <= NumPages(|items|, perPage)
  {
    if k == 0 then [] else FirstPages(items, k - 1, perPage) + PageSlice(items, k, perPage)
  }

  /** The first `k` pages hold exactly the first `k * perPage` items (or all of them). */
  lemma {:induction false} FirstPagesArePrefix<T>(items: seq<T>, k: nat, perPage: nat)
    requires perPage >= 1 && k <= NumPages(|items|, perPage)
    ensures FirstPages(items, k, perPage) == items[..Min(k * perPage, |items|)]
  {
    if k > 0 {
      FirstPagesArePrefix(items, k - 1, perPage);
      PageBounds(|items|, k, perPage);
      assert (k - 1) * perPage + perPage == k * perPage;
      var lo := (k - 1) * perPage;
      assert Min(lo, |items|) == lo;
      assert items[..lo] + items[lo..Min(k * perPage, |items|)] == items[..Min(k * perPage, |items|)];
    }
  }

  /** Paging loses and repeats nothing: all pages together are the whole list, in order. */
  lemma PagesCoverList<T>(items: seq<T>, perPage: nat)
    requires perPage >= 1
    ensures FirstPages(items, NumPages(|items|, perPage), perPage) == items
  {
    var n := NumPages(|items|, perPage);
    FirstPagesArePrefix(items, n, perPage);
    assert Min(n * perPage, |items|) == |items|;
  }

  /** Twenty-five items ten to a page make three pages, the last holding five. */
  lemma ThreePagesOfTen<T>(items: seq<T>)
    requires |items| == 25
    ensures NumPages(25, 10) == 3
    ensures |PageSlice(items, 3, 10)| == 5
  {
    assert (25 + 10 - 1) / 10 == 3;
  }
}
