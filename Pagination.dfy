/** BaseFeedsView.get_paginator: split a list into pages of fixed size with the framework's
    Paginator (no orphans, an empty first page allowed) and pick the page named by the `page` query
    parameter, falling back to the first page when the parameter is missing or not an integer and
    to the last page when it is an integer outside the page range. */
module Pagination {

  /** The page size both FeedsView and PostsView ask for. */
  const PerPage: nat := 5

  /** The `page` query parameter, once the framework has tried to read it as an integer. */
  datatype PageRequest = Missing | NotAnInteger | Number(n: int)

  /** One page: its 1-based number, the page count of the whole list, and the items on it. */
  datatype Page<T> = Page(number: nat, numPages: nat, items: seq<T>)

  /** Paginator.num_pages: ceil(max(1, count) / perPage); an empty list has one, empty, page. */
  function NumPages(count: nat, perPage: nat): (n: nat)
    requires perPage > 0
    ensures n >= 1
    ensures count == 0 ==> n == 1
  {
    var hits := if count == 0 then 1 else count;
    (hits + perPage - 1) / perPage
  }

  /** num_pages is the least number of pages of `perPage` items that hold `count` items. */
  lemma NumPagesBounds(count: nat, perPage: nat)
    requires perPage > 0
    ensures count > 0 ==> (NumPages(count, perPage) - 1) * perPage < count <= NumPages(count, perPage) * perPage
  {
    var hits := if count == 0 then 1 else count;
    var n := (hits + perPage - 1) / perPage;
    assert n * perPage <= hits + perPage - 1 < (n + 1) * perPage;
  }

  lemma MulLe(a: nat, b: nat, c: nat)
    requires a <= b
    ensures a * c <= b * c
  {
    assert b * c == a * c + (b - a) * c;
  }

  /** The index of the first item of page `number`. */
  function PageStart(number: nat, perPage: nat): nat
    requires number >= 1
  {
    (number - 1) * perPage
  }

  /** Page `number` starts inside the list (strictly inside when it is not empty), and every page
      before the last is full. */
  lemma PageBounds(count: nat, perPage: nat, number: nat)
    requires perPage > 0 && 1 <= number <= NumPages(count, perPage)
    ensures PageStart(number, perPage) <= count
    ensures count > 0 ==> PageStart(number, perPage) < count
    ensures number < NumPages(count, perPage) ==> PageStart(number, perPage) + perPage <= count
  {
    var n := NumPages(count, perPage);
    NumPagesBounds(count, perPage);
    if count > 0 {
      MulLe(number - 1, n - 1, perPage);
      if number < n {
        MulLe(number, n - 1, perPage);
        assert number * perPage == (number - 1) * perPage + perPage;
      }
    }
  }

  /** The items on page `number`: Paginator.page slices [(number - 1) * perPage, number * perPage),
      cut at the end of the list. */
  function PageItems<T>(data: seq<T>, number: nat, perPage: nat): (items: seq<T>)
    requires perPage > 0 && 1 <= number <= NumPages(|data|, perPage)
    ensures |items| <= perPage
    ensures number < NumPages(|data|, perPage) ==> |items| == perPage
    ensures number == NumPages(|data|, perPage) ==> PageStart(number, perPage) + |items| == |data|
    ensures data != [] ==> items != []
    ensures PageStart(number, perPage) + |items| <= |data|
    ensures items == data[PageStart(number, perPage)..PageStart(number, perPage) + |items|]
  {
    PageBounds(|data|, perPage, number);
    var bottom := PageStart(number, perPage);
    data[bottom..Min(bottom + perPage, |data|)]
  }

  /** get_paginator's choice of page: PageNotAnInteger gives page 1, EmptyPage (an integer below 1
      or above the page count) gives the last page. */
  function ResolvePage(req: PageRequest, numPages: nat): (number: nat)
    requires numPages >= 1
    ensures 1 <= number <= numPages
  {
    match req
    case Missing => 1
    case NotAnInteger => 1
    case Number(n) => if 1 <= n <= numPages then n else numPages
  }

  /** get_paginator(data, perPage) for the request's `page` parameter. */
  function GetPage<T>(data: seq<T>, req: PageRequest, perPage: nat): (p: Page<T>)
    requires perPage > 0
    ensures p.numPages == NumPages(|data|, perPage)
    ensures 1 <= p.number <= p.numPages
    ensures !req.Number? ==> p.number == 1
    ensures req.Number? && 1 <= req.n <= p.numPages ==> p.number == req.n
    ensures req.Number? && !(1 <= req.n <= p.numPages) ==> p.number == p.numPages
    ensures |p.items| <= perPage
    ensures data != [] ==> p.items != []
    ensures p.items == PageItems(data, p.number, perPage)
  {
    var numPages := NumPages(|data|, perPage);
    var number := ResolvePage(req, numPages);
    Page(number, numPages, PageItems(data, number, perPage))
  }

  /** The pages laid end to end. */
  function Flatten<T>(pages: seq<seq<T>>): seq<T>
  {
    if pages == [] then [] else Flatten(pages[..|pages| - 1]) + pages[|pages| - 1]
  }

  /** The contents of pages 1..count, in page order. */
  function Pages<T>(data: seq<T>, perPage: nat, count: nat): (pages: seq<seq<T>>)
    requires perPage > 0 && count <= NumPages(|data|, perPage)
    ensures |pages| == count
  {
    if count == 0 then [] else Pages(data, perPage, count - 1) + [PageItems(data, count, perPage)]
  }

  /** Entry `k` of Pages is page `k + 1` as get_paginator would return it. */
  lemma {:induction false} PagesAt<T>(data: seq<T>, perPage: nat, count: nat, k: nat)
    requires perPage > 0 && count <= NumPages(|data|, perPage) && k < count
    ensures Pages(data, perPage, count)[k] == PageItems(data, k + 1, perPage)
  {
    if k < count - 1 {
      PagesAt(data, perPage, count - 1, k);
    }
  }

  lemma SplitPrefix<T>(data: seq<T>, lo: nat, hi: nat)
    requires lo <= hi <= |data|
    ensures data[..lo] + data[lo..hi] == data[..hi]
  {
  }

  lemma FlattenSnoc<T>(pages: seq<seq<T>>, last: seq<T>)
    ensures Flatten(pages + [last]) == Flatten(pages) + last
  {
    assert (pages + [last])[..|pages|] == pages;
  }

  /** The first `count` pages, laid end to end, are the first `count * perPage` items of the list
      (all of it when that is more than it holds). */
  lemma {:induction false} PagesPrefix<T>(data: seq<T>, perPage: nat, count: nat)
    requires perPage > 0 && count <= NumPages(|data|, perPage)
    ensures Flatten(Pages(data, perPage, count)) == data[..Min(count * perPage, |data|)]
  {
    if count > 0 {
      var prev := Pages(data, perPage, count - 1);
      var last := PageItems(data, count, perPage);
      PagesPrefix(data, perPage, count - 1);
      FlattenSnoc(prev, last);
      var lo := PageStart(count, perPage);
      assert count * perPage == lo + perPage;
      PageBounds(|data|, perPage, count);
      assert Flatten(prev) == data[..lo];
      assert last == data[lo..Min(lo + perPage, |data|)];
      SplitPrefix(data, lo, Min(lo + perPage, |data|));
    }
  }

  function Min(a: int, b: int): int
  {
    if a < b then a else b
  }

  /** All pages, laid end to end in page order, give back the whole list: nothing is lost,
      repeated or reordered by pagination. */
  lemma PagesConcatenate<T>(data: seq<T>, perPage: nat)
    requires perPage > 0
    ensures forall k :: 0 <= k < NumPages(|data|, perPage) ==>
      Pages(data, perPage, NumPages(|data|, perPage))[k] == GetPage(data, Number(k + 1), perPage).items
    ensures Flatten(Pages(data, perPage, NumPages(|data|, perPage))) == data
  {
    forall k | 0 <= k < NumPages(|data|, perPage)
      ensures Pages(data, perPage, NumPages(|data|, perPage))[k] == GetPage(data, Number(k + 1), perPage).items
    {
      PagesAt(data, perPage, NumPages(|data|, perPage), k);
    }
    var n := NumPages(|data|, perPage);
    NumPagesBounds(|data|, perPage);
    PagesPrefix(data, perPage, n);
    if |data| == 0 {
      assert Min(n * perPage, 0) == 0;
    } else {
      assert Min(n * perPage, |data|) == |data|;
    }
    assert data[..|data|] == data;
  }

  /** Twelve items five to a page: pages of 5, 5 and 2 items; page 4, page 0 and a negative page
      fall back to page 3, and a missing or malformed parameter to page 1. */
  lemma TwelveItemsExample<T>(data: seq<T>)
    requires |data| == 12
    ensures NumPages(|data|, PerPage) == 3
    ensures GetPage(data, Number(1), PerPage).items == data[..5]
    ensures GetPage(data, Number(3), PerPage).items == data[10..]
    ensures GetPage(data, Number(4), PerPage) == GetPage(data, Number(3), PerPage)
    ensures GetPage(data, Number(0), PerPage) == GetPage(data, Number(3), PerPage)
    ensures GetPage(data, Number(-2), PerPage) == GetPage(data, Number(3), PerPage)
    ensures GetPage(data, Missing, PerPage) == GetPage(data, NotAnInteger, PerPage) == GetPage(data, Number(1), PerPage)
  {
    assert NumPages(12, 5) == 3;
  }
}
