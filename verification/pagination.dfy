/**
 * The page-number strip of the `Pagination` component: a window of at most
 * five numbered pages around the current page, the first and last page
 * outside the window, and ellipses for the pages skipped in between.
 */
module Pagination {

  const MaxPagesToShow: int := 5
  /** `Math.floor(maxPagesToShow / 2)`; the operand is positive, so floor and `/` agree. */
  const HalfMaxPages: int := MaxPagesToShow / 2

  function Max(a: int, b: int): int { if a >= b then a else b }
  function Min(a: int, b: int): int { if a <= b then a else b }

  /** The inclusive range of pages rendered as consecutive numbered links. */
  datatype Window = Window(start: int, end: int)

  /** One rendered element of the strip. `active` is the `isActive` prop. */
  datatype Item = PageLink(page: int, active: bool) | Ellipsis

  /** The `startPage` / `endPage` computation, including both adjustments. */
  function ComputeWindow(currentPage: int, totalPages: int): (w: Window)
    ensures w.end <= totalPages
    ensures 1 <= currentPage <= totalPages ==>
      && 1 <= w.start <= currentPage <= w.end
      && w.end - w.start + 1 == Min(totalPages, MaxPagesToShow)
  {
    var start0 := Max(1, currentPage - HalfMaxPages);
    var end0 := Min(totalPages, currentPage + HalfMaxPages);
    var end1 := if currentPage - 1 <= HalfMaxPages then Min(totalPages, MaxPagesToShow) else end0;
    var start1 := if totalPages - currentPage < HalfMaxPages then Max(1, totalPages - MaxPagesToShow + 1) else start0;
    Window(start1, end1)
  }

  /** Page 1 and a leading ellipsis, emitted before the window. */
  function Leading(w: Window): seq<Item> {
    if w.start > 1 then [PageLink(1, false)] + (if w.start > 2 then [Ellipsis] else [])
    else []
  }

  /** The numbered links `from..end`; only the one equal to the current page is active. */
  function Numbered(from: int, end: int, currentPage: int): seq<Item>
    decreases if from > end then 0 else end - from + 1
  {
    if from > end then [] else [PageLink(from, currentPage == from)] + Numbered(from + 1, end, currentPage)
  }

  /** A trailing ellipsis and the last page, emitted after the window. */
  function Trailing(w: Window, totalPages: int): seq<Item> {
    if w.end < totalPages then (if w.end < totalPages - 1 then [Ellipsis] else []) + [PageLink(totalPages, false)]
    else []
  }

  /** `renderPageNumbers()`: one active link when the current page lies in the window, none otherwise. */
  function RenderPageNumbers(currentPage: int, totalPages: int): (r: seq<Item>)
    ensures var w := ComputeWindow(currentPage, totalPages);
      ActiveCount(r) == if w.start <= currentPage <= w.end then 1 else 0
  {
    var w := ComputeWindow(currentPage, totalPages);
    var l := Leading(w);
    var n := Numbered(w.start, w.end, currentPage);
    var t := Trailing(w, totalPages);
    NumberedActive(w.start, w.end, currentPage);
    ActiveCountAppend(l, n);
    ActiveCountAppend(l + n, t);
    NoneActive(l);
    NoneActive(t);
    l + n + t
  }

  /** `disabled` of the Previous control. */
  function PreviousDisabled(currentPage: int): (b: bool)
    ensures b <==> 1 <= currentPage && !(1 <= currentPage - 1)
  {
    currentPage == 1
  }

  /** `disabled` of the Next control. */
  function NextDisabled(currentPage: int, totalPages: int): (b: bool)
    ensures 1 <= currentPage <= totalPages ==> (b <==> !(currentPage + 1 <= totalPages))
    ensures currentPage > totalPages ==> !b
  {
    currentPage == totalPages
  }

  // ---------------------------------------------------------------------
  // Properties

  /**
   * For a current page in range, the window lies inside `[1, totalPages]`,
   * contains the current page, and shows exactly `min(totalPages, 5)` pages.
   */
  lemma WindowContainsCurrent(currentPage: int, totalPages: int)
    requires 1 <= currentPage <= totalPages
    ensures var w := ComputeWindow(currentPage, totalPages);
      && 1 <= w.start <= currentPage <= w.end <= totalPages
      && w.end - w.start + 1 == Min(totalPages, MaxPagesToShow)
  {
  }

  /** `Numbered` emits the pages `from..end` in order, one link per page. */
  lemma {:induction false} NumberedShape(from: int, end: int, currentPage: int)
    requires from <= end + 1
    ensures |Numbered(from, end, currentPage)| == end - from + 1
    ensures forall k :: 0 <= k < end - from + 1 ==>
      Numbered(from, end, currentPage)[k] == PageLink(from + k, currentPage == from + k)
    decreases end - from + 1
  {
    if from <= end {
      NumberedShape(from + 1, end, currentPage);
    }
  }

  /** Number of active links in a strip. */
  function ActiveCount(items: seq<Item>): nat {
    if |items| == 0 then 0
    else (if items[0].PageLink? && items[0].active then 1 else 0) + ActiveCount(items[1..])
  }

  lemma {:induction false} ActiveCountAppend(a: seq<Item>, b: seq<Item>)
    ensures ActiveCount(a + b) == ActiveCount(a) + ActiveCount(b)
  {
    if |a| > 0 {
      assert (a + b)[1..] == a[1..] + b;
      ActiveCountAppend(a[1..], b);
    } else {
      assert a + b == b;
    }
  }

  /** A strip none of whose links is active has no active link. */
  lemma {:induction false} NoneActive(items: seq<Item>)
    requires forall i :: 0 <= i < |items| ==> !(items[i].PageLink? && items[i].active)
    ensures ActiveCount(items) == 0
  {
    if |items| > 0 {
      assert forall i :: 0 <= i < |items[1..]| ==> items[1..][i] == items[i + 1];
      NoneActive(items[1..]);
    }
  }

  /** The number of active links in `Numbered` is 1 iff the current page is in range. */
  lemma {:induction false} NumberedActive(from: int, end: int, currentPage: int)
    ensures ActiveCount(Numbered(from, end, currentPage)) == if from <= currentPage <= end then 1 else 0
    decreases if from > end then 0 else end - from + 1
  {
    if from <= end {
      var n := Numbered(from, end, currentPage);
      assert n[1..] == Numbered(from + 1, end, currentPage);
      NumberedActive(from + 1, end, currentPage);
    }
  }

  /**
   * Neighbouring items of a strip: an ellipsis is followed by a link, two
   * neighbouring links are consecutive pages, and a link followed by an
   * ellipsis is followed, after it, by a link that skips at least one page.
   */
  predicate StepOk(items: seq<Item>, i: int)
    requires 0 <= i < |items| - 1
  {
    if items[i].Ellipsis? then items[i + 1].PageLink?
    else if items[i + 1].PageLink? then items[i + 1].page == items[i].page + 1
    else i + 2 < |items| && items[i + 2].PageLink? && items[i + 2].page > items[i].page + 1
  }

  /**
   * A strip covers `1..totalPages`: it starts with page 1, ends with page
   * `totalPages`, and every gap between shown pages is marked by exactly
   * one ellipsis. Hence every page appears once or is behind an ellipsis,
   * and the shown pages strictly increase.
   */
  predicate Covers(items: seq<Item>, totalPages: int) {
    && |items| > 0
    && items[0].PageLink? && items[0].page == 1
    && items[|items| - 1].PageLink? && items[|items| - 1].page == totalPages
    && forall i :: 0 <= i < |items| - 1 ==> StepOk(items, i)
  }

  /** The shape of the numbered part of a strip, as `NumberedShape` states it. */
  predicate IsRun(n: seq<Item>, from: int) {
    forall k :: 0 <= k < |n| ==> n[k].PageLink? && n[k].page == from + k
  }

  /** Leading part, window and trailing part join without a misplaced ellipsis. */
  lemma {:induction false} JoinCovers(w: Window, n: seq<Item>, totalPages: int)
    requires 1 <= w.start <= w.end <= totalPages
    requires |n| == w.end - w.start + 1 && IsRun(n, w.start)
    ensures Covers(Leading(w) + n + Trailing(w, totalPages), totalPages)
  {
    var l := Leading(w);
    var t := Trailing(w, totalPages);
    var items := l + n + t;
    forall i | 0 <= i < |items| - 1
      ensures StepOk(items, i)
    {
      if i < |l| {
        if i + 1 < |l| {
          assert items[i] == l[0] && items[i + 1] == l[1] && items[i + 2] == n[0];
        } else {
          assert items[i] == l[|l| - 1] && items[i + 1] == n[0];
        }
      } else if i < |l| + |n| - 1 {
        assert items[i] == n[i - |l|] && items[i + 1] == n[i - |l| + 1];
      } else if i == |l| + |n| - 1 {
        assert items[i] == n[|n| - 1] && items[i + 1] == t[0];
        if |t| == 2 {
          assert items[i + 2] == t[1];
        }
      } else {
        assert items[i] == t[0] && items[i + 1] == t[1];
      }
    }
    assert items[0] == (if |l| > 0 then l[0] else n[0]);
    assert items[|items| - 1] == (if |t| > 0 then t[|t| - 1] else n[|n| - 1]);
  }

  /**
   * The rendered strip for a valid current page covers `1..totalPages`, with
   * ellipses exactly at the gaps.
   */
  lemma RenderCovers(currentPage: int, totalPages: int)
    requires 1 <= currentPage <= totalPages
    ensures Covers(RenderPageNumbers(currentPage, totalPages), totalPages)
  {
    var w := ComputeWindow(currentPage, totalPages);
    WindowContainsCurrent(currentPage, totalPages);
    NumberedShape(w.start, w.end, currentPage);
    JoinCovers(w, Numbered(w.start, w.end, currentPage), totalPages);
  }

  /**
   * The rendered strip for a valid current page has exactly one active link,
   * and that link is the current page.
   */
  lemma RenderActive(currentPage: int, totalPages: int)
    requires 1 <= currentPage <= totalPages
    ensures ActiveCount(RenderPageNumbers(currentPage, totalPages)) == 1
    ensures forall i :: 0 <= i < |RenderPageNumbers(currentPage, totalPages)| ==>
      var it := RenderPageNumbers(currentPage, totalPages)[i];
      it.PageLink? && it.active ==> it.page == currentPage
  {
    var w := ComputeWindow(currentPage, totalPages);
    WindowContainsCurrent(currentPage, totalPages);
    var l := Leading(w);
    var n := Numbered(w.start, w.end, currentPage);
    var t := Trailing(w, totalPages);
    var items := l + n + t;
    NumberedShape(w.start, w.end, currentPage);
    NumberedActive(w.start, w.end, currentPage);
    ActiveCountAppend(l, n);
    ActiveCountAppend(l + n, t);
    NoneActive(l);
    NoneActive(t);
    forall i | 0 <= i < |items|
      ensures items[i].PageLink? && items[i].active ==> items[i].page == currentPage
    {
      if i < |l| {
        assert items[i] == l[i];
      } else if i < |l| + |n| {
        assert items[i] == n[i - |l|];
      } else {
        assert items[i] == t[i - |l| - |n|];
      }
    }
  }

  /** In a covering strip the shown pages strictly increase from 1 to `totalPages`. */
  lemma {:induction false} CoversIncreasing(items: seq<Item>, totalPages: int, i: int, j: int)
    requires Covers(items, totalPages)
    requires 0 <= i < j < |items| && items[i].PageLink? && items[j].PageLink?
    ensures items[i].page < items[j].page
    decreases j - i
  {
    if j == i + 1 {
      assert StepOk(items, i);
    } else if items[i + 1].PageLink? {
      assert StepOk(items, i);
      CoversIncreasing(items, totalPages, i + 1, j);
    } else {
      assert StepOk(items, i);
      if j > i + 2 {
        CoversIncreasing(items, totalPages, i + 2, j);
      }
    }
  }

  /** Every shown page lies in `[1, totalPages]` and no page is shown twice. */
  lemma RenderedPagesInRange(currentPage: int, totalPages: int)
    requires 1 <= currentPage <= totalPages
    ensures var items := RenderPageNumbers(currentPage, totalPages);
      forall i :: 0 <= i < |items| && items[i].PageLink? ==> 1 <= items[i].page <= totalPages
    ensures var items := RenderPageNumbers(currentPage, totalPages);
      forall i, j :: 0 <= i < j < |items| && items[i].PageLink? && items[j].PageLink? ==>
        items[i].page < items[j].page
  {
    var items := RenderPageNumbers(currentPage, totalPages);
    RenderCovers(currentPage, totalPages);
    forall i, j | 0 <= i < j < |items| && items[i].PageLink? && items[j].PageLink?
      ensures items[i].page < items[j].page
    {
      CoversIncreasing(items, totalPages, i, j);
    }
    forall i | 0 <= i < |items| && items[i].PageLink?
      ensures 1 <= items[i].page <= totalPages
    {
      if i > 0 { CoversIncreasing(items, totalPages, 0, i); }
      if i < |items| - 1 { CoversIncreasing(items, totalPages, i, |items| - 1); }
    }
  }

  /**
   * Page 1 is emitted outside the window iff the window starts after it, with
   * an ellipsis iff at least one page lies between; symmetrically for the
   * last page.
   */
  lemma EdgeLinks(currentPage: int, totalPages: int)
    ensures var w := ComputeWindow(currentPage, totalPages);
      && (Leading(w) == [] <==> w.start <= 1)
      && (Ellipsis in Leading(w) <==> w.start > 2)
      && (Trailing(w, totalPages) == [] <==> w.end >= totalPages)
      && (Ellipsis in Trailing(w, totalPages) <==> w.end < totalPages - 1)
  {
  }

  /**
   * An enabled Previous or Next control, pressed on a valid page, moves to a
   * page that is still in `[1, totalPages]`.
   */
  lemma PrevNextStayInRange(currentPage: int, totalPages: int)
    requires 1 <= currentPage <= totalPages
    ensures !PreviousDisabled(currentPage) <==> 1 <= currentPage - 1
    ensures !NextDisabled(currentPage, totalPages) <==> currentPage + 1 <= totalPages
  {
  }

  /**
   * A current page past the last page (the product list shrank while its
   * last page was shown) marks no page link active, and Next stays enabled,
   * since it is disabled only on the last page itself.
   */
  lemma PastLastPage(currentPage: int, totalPages: int)
    requires 1 <= totalPages < currentPage
    ensures ActiveCount(RenderPageNumbers(currentPage, totalPages)) == 0
    ensures !NextDisabled(currentPage, totalPages) && !PreviousDisabled(currentPage)
  {
    var w := ComputeWindow(currentPage, totalPages);
    var l := Leading(w);
    var t := Trailing(w, totalPages);
    NumberedActive(w.start, w.end, currentPage);
    ActiveCountAppend(l, Numbered(w.start, w.end, currentPage));
    ActiveCountAppend(l + Numbered(w.start, w.end, currentPage), t);
    NoneActive(l);
    NoneActive(t);
  }
}
