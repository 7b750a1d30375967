/**
 * The page-number window of `src/components/common/Pagination.jsx`: at
 * most five plain pages, otherwise the first and last page, the current
 * neighbourhood and ellipses, and which buttons are enabled.
 */
module Pagination {
  import opened Wrappers

  const MAX_VISIBLE := 5

  /** One button of the window: a page number or the "..." placeholder. */
  datatype PageItem = Num(n: int) | Ellipsis

  /** The numbers `lo..hi` in order (empty when `hi < lo`). */
  function Pages(lo: int, hi: int): seq<PageItem> {
    if hi < lo then [] else seq(hi - lo + 1, k => Num(lo + k))
  }

  /** The window `getPageNumbers` produces, case by case. */
  function PageWindow(currentPage: int, totalPages: int): seq<PageItem> {
    if totalPages <= MAX_VISIBLE then Pages(1, totalPages)
    else if currentPage <= 3 then Pages(1, 4) + [Ellipsis, Num(totalPages)]
    else if currentPage >= totalPages - 2 then [Num(1), Ellipsis] + Pages(totalPages - 3, totalPages)
    else [Num(1), Ellipsis, Num(currentPage - 1), Num(currentPage), Num(currentPage + 1), Ellipsis, Num(totalPages)]
  }

  /** `getPageNumbers`, building the list with pushes as the component does. */
  method GetPageNumbers(currentPage: int, totalPages: int) returns (pages: seq<PageItem>)
    ensures pages == PageWindow(currentPage, totalPages)
  {
    pages := [];
    if totalPages <= MAX_VISIBLE {
      var i := 1;
      while i <= totalPages
        invariant 1 <= i <= if totalPages < 1 then 1 else totalPages + 1
        invariant pages == Pages(1, i - 1)
      {
        pages := pages + [Num(i)];
        i := i + 1;
      }
    } else if currentPage <= 3 {
      var i := 1;
      while i <= 4
        invariant 1 <= i <= 5
        invariant pages == Pages(1, i - 1)
      {
        pages := pages + [Num(i)];
        i := i + 1;
      }
      pages := pages + [Ellipsis];
      pages := pages + [Num(totalPages)];
    } else if currentPage >= totalPages - 2 {
      pages := pages + [Num(1)];
      pages := pages + [Ellipsis];
      var i := totalPages - 3;
      while i <= totalPages
        invariant totalPages - 3 <= i <= totalPages + 1
        invariant pages == [Num(1), Ellipsis] + Pages(totalPages - 3, i - 1)
      {
        pages := pages + [Num(i)];
        i := i + 1;
      }
    } else {
      pages := pages + [Num(1)];
      pages := pages + [Ellipsis];
      pages := pages + [Num(currentPage - 1)];
      pages := pages + [Num(currentPage)];
      pages := pages + [Num(currentPage + 1)];
      pages := pages + [Ellipsis];
      pages := pages + [Num(totalPages)];
    }
  }

  /** The page numbers of a window, in order, ellipses dropped. */
  function Numbers(items: seq<PageItem>): (ns: seq<int>)
    ensures |ns| <= |items|
  {
    if items == [] then []
    else (if items[0].Num? then [items[0].n] else []) + Numbers(items[1..])
  }

  lemma {:induction false} NumbersAppend(a: seq<PageItem>, b: seq<PageItem>)
    ensures Numbers(a + b) == Numbers(a) + Numbers(b)
    decreases |a|
  {
    if a == [] {
      assert a + b == b;
    } else {
      assert (a + b)[0] == a[0];
      assert (a + b)[1..] == a[1..] + b;
      NumbersAppend(a[1..], b);
    }
  }

  lemma {:induction false} NumbersOfPages(lo: int, hi: int)
    ensures Numbers(Pages(lo, hi)) == if hi < lo then [] else seq(hi - lo + 1, k => lo + k)
    decreases hi - lo
  {
    if lo <= hi {
      assert Pages(lo, hi) == [Num(lo)] + Pages(lo + 1, hi);
      NumbersAppend([Num(lo)], Pages(lo + 1, hi));
      NumbersOfPages(lo + 1, hi);
    }
  }

  predicate StrictlyIncreasing(ns: seq<int>) {
    forall i, j :: 0 <= i < j < |ns| ==> ns[i] < ns[j]
  }

  /** The page numbers of the window, case by case. */
  function WindowNumbers(currentPage: int, totalPages: int): seq<int> {
    if totalPages <= MAX_VISIBLE then (if totalPages < 1 then [] else seq(totalPages, k => 1 + k))
    else if currentPage <= 3 then [1, 2, 3, 4, totalPages]
    else if currentPage >= totalPages - 2 then [1, totalPages - 3, totalPages - 2, totalPages - 1, totalPages]
    else [1, currentPage - 1, currentPage, currentPage + 1, totalPages]
  }

  lemma NumbersCons(x: PageItem, rest: seq<PageItem>)
    ensures Numbers([x] + rest) == (if x.Num? then [x.n] else []) + Numbers(rest)
  {
    assert ([x] + rest)[1..] == rest;
  }

  lemma NumbersOfMiddleWindow(c: int, t: int)
    ensures Numbers([Num(1), Ellipsis, Num(c - 1), Num(c), Num(c + 1), Ellipsis, Num(t)]) == [1, c - 1, c, c + 1, t]
  {
    NumbersCons(Num(t), []);
    NumbersCons(Ellipsis, [Num(t)]);
    NumbersCons(Num(c + 1), [Ellipsis, Num(t)]);
    NumbersCons(Num(c), [Num(c + 1), Ellipsis, Num(t)]);
    NumbersCons(Num(c - 1), [Num(c), Num(c + 1), Ellipsis, Num(t)]);
    NumbersCons(Ellipsis, [Num(c - 1), Num(c), Num(c + 1), Ellipsis, Num(t)]);
    NumbersCons(Num(1), [Ellipsis, Num(c - 1), Num(c), Num(c + 1), Ellipsis, Num(t)]);
  }

  /** The numbers of `PageWindow` are exactly `WindowNumbers`. */
  lemma NumbersOfWindow(c: int, t: int)
    ensures Numbers(PageWindow(c, t)) == WindowNumbers(c, t)
  {
    if t <= MAX_VISIBLE {
      NumbersOfPages(1, t);
    } else if c <= 3 {
      NumbersAppend(Pages(1, 4), [Ellipsis, Num(t)]);
      NumbersOfPages(1, 4);
      NumbersCons(Num(t), []);
      NumbersCons(Ellipsis, [Num(t)]);
    } else if c >= t - 2 {
      NumbersAppend([Num(1), Ellipsis], Pages(t - 3, t));
      NumbersOfPages(t - 3, t);
      NumbersCons(Ellipsis, []);
      NumbersCons(Num(1), [Ellipsis]);
    } else {
      NumbersOfMiddleWindow(c, t);
    }
  }

  /**
   * The window has at most seven entries; its page numbers are strictly
   * increasing, run from 1 to `totalPages` when there is at least one page,
   * and include the current page whenever it is a real page.
   */
  lemma WindowShape(currentPage: int, totalPages: int)
    ensures |PageWindow(currentPage, totalPages)| <= 7
    ensures StrictlyIncreasing(Numbers(PageWindow(currentPage, totalPages)))
    ensures var ns := Numbers(PageWindow(currentPage, totalPages));
      totalPages >= 1 ==> |ns| >= 1 && ns[0] == 1 && ns[|ns| - 1] == totalPages
    ensures 1 <= currentPage <= totalPages ==> currentPage in Numbers(PageWindow(currentPage, totalPages))
  {
    NumbersOfWindow(currentPage, totalPages);
    var ns := WindowNumbers(currentPage, totalPages);
    if totalPages <= MAX_VISIBLE && 1 <= currentPage <= totalPages {
      assert ns[currentPage - 1] == currentPage;
    }
  }

  /** The rendered control: absent for at most one page. */
  datatype Control = Control(previousDisabled: bool, nextDisabled: bool, items: seq<PageItem>)

  /**
   * The control is shown exactly when there are two pages or more. On a real
   * page it offers at most seven buttons whose numbers climb strictly from 1
   * to the last page and include the current one, and Previous and Next are
   * disabled exactly on the first and the last page.
   */
  function Render(currentPage: int, totalPages: int): (c: Option<Control>)
    ensures c.None? <==> totalPages <= 1
    ensures c.Some? ==> c.value.items == PageWindow(currentPage, totalPages)
    ensures c.Some? && 1 <= currentPage <= totalPages ==> var ns := Numbers(c.value.items);
      && |c.value.items| <= 7
      && StrictlyIncreasing(ns)
      && ns[0] == 1 && ns[|ns| - 1] == totalPages
      && currentPage in ns
    ensures c.Some? ==> (c.value.previousDisabled <==> currentPage == 1)
    ensures c.Some? ==> (c.value.nextDisabled <==> currentPage == totalPages)
  {
    if totalPages <= 1 then None
    else
      WindowShape(currentPage, totalPages);
      Some(Control(currentPage == 1, currentPage == totalPages, PageWindow(currentPage, totalPages)))
  }

  /** A page button's `disabled`: only the ellipsis is disabled. */
  predicate ItemDisabled(item: PageItem) {
    item == Ellipsis
  }

  /** What a click on a page button reports to `onPageChange`: only numbers do. */
  function ItemClick(item: PageItem): (target: Option<int>)
    ensures target.Some? <==> !ItemDisabled(item)
    ensures item.Num? ==> target == Some(item.n)
  {
    if item.Num? then Some(item.n) else None
  }
}
