/**
 * The feedback page's rules (src/pages/Feedback.tsx): the list sorted newest
 * first, pages of five, the previous/next/page-number navigation, which page
 * numbers and ellipses are shown, and the five-star rating display.
 */
module FeedbackView {
  import opened Types
  import opened Seqs

  /** One user's feedback; `date` is `Date.getTime()`. */
  datatype Feedback = Feedback(
    id: string,
    username: string,
    userAvatar: Option<string>,
    rating: int,
    comment: string,
    date: int)

  function Min(a: int, b: int): int { if a <= b then a else b }
  function Max(a: int, b: int): int { if a >= b then a else b }

  // ---------------------------------------------------------------------------
  // Newest-first sort

  /** No entry is older than one after it. */
  predicate NewestFirst(s: seq<Feedback>) {
    forall i, j :: 0 <= i < j < |s| ==> s[i].date >= s[j].date
  }

  /** Places `x` in a newest-first list, in front of every entry that is not newer than it. */
  function Insert(x: Feedback, s: seq<Feedback>): (r: seq<Feedback>)
    requires NewestFirst(s)
    ensures NewestFirst(r)
    ensures multiset(r) == multiset(s) + multiset{x}
  {
    if s == [] then [x]
    else if x.date >= s[0].date then [x] + s
    else
      var rest := Insert(x, s[1..]);
      assert s == [s[0]] + s[1..];
      forall j | 0 <= j < |rest| ensures s[0].date >= rest[j].date {
        var y := rest[j];
        assert y in multiset(rest);
        if y != x {
          assert y in multiset(s[1..]);
        }
      }
      ConsNewestFirst(s[0], rest);
      [s[0]] + rest
  }

  /** An entry no older than any in a newest-first list can go in front of it. */
  lemma ConsNewestFirst(a: Feedback, t: seq<Feedback>)
    requires NewestFirst(t)
    requires forall j :: 0 <= j < |t| ==> a.date >= t[j].date
    ensures NewestFirst([a] + t)
  {
  }

  /**
   * `[...feedbackData].sort((a, b) => b.date - a.date)`: a newest-first permutation
   * of the input. `Array.prototype.sort` is stable, so entries with equal dates keep
   * their order; an insertion sort that puts each entry ahead of its equals does the same.
   */
  function SortNewestFirst(s: seq<Feedback>): (r: seq<Feedback>)
    ensures NewestFirst(r)
    ensures multiset(r) == multiset(s)
  {
    if s == [] then []
    else
      assert s == [s[0]] + s[1..];
      Insert(s[0], SortNewestFirst(s[1..]))
  }

  /** Inserting adds `x` to the entries of its own date, ahead of them, and leaves other dates alone. */
  lemma {:induction false} InsertStable(x: Feedback, s: seq<Feedback>, d: int)
    requires NewestFirst(s)
    ensures Filter(Insert(x, s), (f: Feedback) => f.date == d) ==
            (if x.date == d then [x] else []) + Filter(s, (f: Feedback) => f.date == d)
  {
    var p := (f: Feedback) => f.date == d;
    if s == [] {
      FilterCons(x, [], p);
    } else if x.date >= s[0].date {
      assert Insert(x, s) == [x] + s;
      FilterCons(x, s, p);
    } else {
      var rest := Insert(x, s[1..]);
      assert Insert(x, s) == [s[0]] + rest;
      InsertStable(x, s[1..], d);
      FilterCons(s[0], rest, p);
      assert s == [s[0]] + s[1..];
      FilterCons(s[0], s[1..], p);
      assert x.date == d ==> s[0].date != d;
    }
  }

  /** The sort is stable: the entries of any one date come out in the order they went in. */
  lemma {:induction false} SortIsStable(s: seq<Feedback>, d: int)
    ensures Filter(SortNewestFirst(s), (f: Feedback) => f.date == d) == Filter(s, (f: Feedback) => f.date == d)
  {
    if s != [] {
      SortIsStable(s[1..], d);
      InsertStable(s[0], SortNewestFirst(s[1..]), d);
      assert s == [s[0]] + s[1..];
      FilterCons(s[0], s[1..], (f: Feedback) => f.date == d);
    }
  }

  // ---------------------------------------------------------------------------
  // Pages of five

  const ItemsPerPage: nat := 5

  /** `Math.ceil(n / itemsPerPage)`: the fewest pages of five that hold `n` entries. */
  function TotalPages(n: nat): (r: nat)
    ensures r * ItemsPerPage >= n
    ensures r == 0 || (r - 1) * ItemsPerPage < n
  {
    (n + ItemsPerPage - 1) / ItemsPerPage
  }

  /** How `Array.prototype.slice` reads an index: negative counts from the end; clamped to the length. */
  function SliceIndex(i: int, len: nat): (k: nat)
    ensures k <= len
    ensures 0 <= i ==> k == Min(i, len)
  {
    if i < 0 then Max(len + i, 0) else Min(i, len)
  }

  /** `s.slice(start, end)`. */
  function JsSlice<T>(s: seq<T>, start: int, end: int): (r: seq<T>)
    ensures |r| <= |s|
  {
    var from, to := SliceIndex(start, |s|), SliceIndex(end, |s|);
    if from < to then s[from..to] else []
  }

  /**
   * `currentItems`: the entries shown on page `page`. Page `p >= 1` shows the entries
   * at positions `(p-1)*5` up to `min(p*5, n)`, and nothing past the end; any page
   * number, even one below 1, shows at most five entries.
   */
  function CurrentItems(s: seq<Feedback>, page: int): (r: seq<Feedback>)
    ensures page >= 1 && (page - 1) * ItemsPerPage <= |s| ==>
            r == s[(page - 1) * ItemsPerPage..Min(page * ItemsPerPage, |s|)]
    ensures page >= 1 && (page - 1) * ItemsPerPage >= |s| ==> r == []
    ensures |r| <= ItemsPerPage
  {
    JsSlice(s, (page - 1) * ItemsPerPage, page * ItemsPerPage)
  }

  /** Pages 1 to `k`, one after the other. */
  function PagesUpTo(s: seq<Feedback>, k: nat): seq<Feedback> {
    if k == 0 then [] else PagesUpTo(s, k - 1) + CurrentItems(s, k)
  }

  /** The first `k` pages together are the first `min(5k, n)` entries. */
  lemma {:induction false} PagesAreAPrefix(s: seq<Feedback>, k: nat)
    ensures PagesUpTo(s, k) == s[..Min(k * ItemsPerPage, |s|)]
  {
    if k > 0 {
      PagesAreAPrefix(s, k - 1);
      var a, b := Min((k - 1) * ItemsPerPage, |s|), Min(k * ItemsPerPage, |s|);
      if (k - 1) * ItemsPerPage <= |s| {
        assert s[..a] + s[a..b] == s[..b];
      }
    }
  }

  /** Reading pages 1 to `totalPages` in turn gives back the whole sorted list. */
  lemma AllPagesGiveTheList(s: seq<Feedback>)
    ensures PagesUpTo(s, TotalPages(|s|)) == s
  {
    PagesAreAPrefix(s, TotalPages(|s|));
  }

  // ---------------------------------------------------------------------------
  // Navigation

  /** The previous-page handler: `Math.max(prev - 1, 1)`. */
  function PreviousPage(current: int): (r: int)
    ensures r >= 1
    ensures current > 1 ==> r == current - 1
    ensures current <= 1 ==> r == 1
  {
    Max(current - 1, 1)
  }

  /** The next-page handler: `Math.min(prev + 1, totalPages)`. */
  function NextPage(current: int, totalPages: nat): (r: int)
    ensures r <= totalPages
    ensures current < totalPages ==> r == current + 1
    ensures current >= totalPages ==> r == totalPages
  {
    Min(current + 1, totalPages)
  }

  /** The page is one that exists. */
  predicate InRange(page: int, totalPages: nat) {
    1 <= page <= totalPages
  }

  /** Previous and next never leave the range of existing pages. */
  lemma NavigationStaysInRange(current: int, totalPages: nat)
    requires InRange(current, totalPages)
    ensures InRange(PreviousPage(current), totalPages)
    ensures InRange(NextPage(current, totalPages), totalPages)
  {
  }

  /** The pagination bar is rendered at all: there is a page 2. */
  function ShowsPagination(totalPages: nat): (r: bool)
    ensures r <==> InRange(2, totalPages)
  {
    totalPages > 1
  }

  /** The previous button is rendered (not on the first page): exactly when it would move one page back. */
  function ShowsPrevious(current: int): (r: bool)
    ensures r <==> PreviousPage(current) == current - 1
  {
    current > 1
  }

  /** The next button is rendered (not on the last page): exactly when it would move one page on. */
  function ShowsNext(current: int, totalPages: nat): (r: bool)
    ensures r <==> NextPage(current, totalPages) == current + 1
  {
    current < totalPages
  }

  /** A rendered previous or next button moves exactly one page; on a page in range a bar shows at least one of them. */
  lemma ButtonsMoveOnePage(current: int, totalPages: nat)
    requires InRange(current, totalPages)
    ensures ShowsPrevious(current) ==> PreviousPage(current) == current - 1
    ensures ShowsNext(current, totalPages) ==> NextPage(current, totalPages) == current + 1
    ensures ShowsPagination(totalPages) ==> ShowsPrevious(current) || ShowsNext(current, totalPages)
  {
  }

  // ---------------------------------------------------------------------------
  // Which page numbers are shown

  /** What the bar renders for one page number. */
  datatype PageControl = PageLink(page: int, isActive: bool) | Ellipsis | Nothing

  /** The rule for page `page`: first, last and the current page's neighbours are links; pages 2 and n-1 may become an ellipsis. */
  function ControlFor(page: int, current: int, totalPages: nat): (r: PageControl)
    ensures page == 1 || page == totalPages || page == current ==> r.PageLink?
    ensures r.PageLink? ==> r.page == page && (r.isActive <==> page == current)
    ensures r == Ellipsis ==> page == 2 || page == totalPages - 1
    ensures r == Nothing ==> page != 1 && page != totalPages && (page < current - 1 || page > current + 1)
    ensures current - 1 <= page <= current + 1 ==> r == PageLink(page, page == current)
    ensures r.PageLink? ==> page == 1 || page == totalPages || current - 1 <= page <= current + 1
    ensures r == Ellipsis <==> !r.PageLink? && ((page == 2 && current > 3) || (page == totalPages - 1 && current < totalPages - 2))
  {
    if page == 1 || page == totalPages || (page >= current - 1 && page <= current + 1) then
      PageLink(page, page == current)
    else if (page == 2 && current > 3) || (page == totalPages - 1 && current < totalPages - 2) then
      Ellipsis
    else
      Nothing
  }

  /** The controls for pages 1 to `totalPages`, in order. */
  function Controls(current: int, totalPages: nat): (r: seq<PageControl>)
    ensures |r| == totalPages
    ensures forall i :: 0 <= i < totalPages ==> r[i] == ControlFor(i + 1, current, totalPages)
  {
    seq(totalPages, i => ControlFor(i + 1, current, totalPages))
  }

  /** The first and last pages always get a link; the current page gets the only active one. */
  lemma LinksAtEndsAndCurrent(current: int, totalPages: nat)
    requires InRange(current, totalPages)
    ensures Controls(current, totalPages)[0].PageLink?
    ensures Controls(current, totalPages)[totalPages - 1].PageLink?
    ensures Controls(current, totalPages)[current - 1] == PageLink(current, true)
    ensures forall i :: 0 <= i < totalPages && i != current - 1 ==>
              Controls(current, totalPages)[i] != PageLink(i + 1, true)
  {
  }

  /** The page numbers that get a link. */
  function LinkedPages(current: int, totalPages: nat): set<int> {
    set page | 1 <= page <= totalPages && ControlFor(page, current, totalPages).PageLink?
  }

  /** However many pages there are, at most five page numbers are links. */
  lemma AtMostFiveLinks(current: int, totalPages: nat)
    ensures |LinkedPages(current, totalPages)| <= 5
  {
    var five := {1, totalPages, current - 1, current, current + 1};
    assert LinkedPages(current, totalPages) <= five;
    CardinalityOfSubset(LinkedPages(current, totalPages), five);
    assert |{current - 1, current, current + 1}| <= 3;
    assert |{1, totalPages}| <= 2;
    assert five == {1, totalPages} + {current - 1, current, current + 1};
  }

  /** A subset is no larger than its superset. */
  lemma CardinalityOfSubset(a: set<int>, b: set<int>)
    requires a <= b
    ensures |a| <= |b|
  {
    assert b == a + (b - a);
  }

  /**
   * Every page number left out is stood for by an ellipsis: one before the current
   * page means page 2 shows an ellipsis, one after it means page n-1 does.
   */
  lemma HiddenPagesAreMarked(current: int, totalPages: nat, page: int)
    requires InRange(current, totalPages) && InRange(page, totalPages)
    requires ControlFor(page, current, totalPages) == Nothing
    ensures page < current ==> ControlFor(2, current, totalPages) == Ellipsis
    ensures page > current ==> ControlFor(totalPages - 1, current, totalPages) == Ellipsis
  {
  }

  // ---------------------------------------------------------------------------
  // Star rating

  /** A filled star or an empty one. */
  datatype Star = Filled | Empty

  /** The number of filled stars. */
  function FilledCount(stars: seq<Star>): (n: nat)
    ensures n <= |stars|
  {
    if stars == [] then 0
    else FilledCount(stars[..|stars| - 1]) + (if stars[|stars| - 1] == Filled then 1 else 0)
  }

  /**
   * `renderStarRating`: five stars, the first ones filled, as many filled as the
   * rating clamped to 0..5.
   */
  method RenderStarRating(rating: int) returns (stars: seq<Star>)
    ensures |stars| == 5
    ensures forall i :: 0 <= i < 5 ==> (stars[i] == Filled <==> i + 1 <= rating)
    ensures FilledCount(stars) == Min(Max(rating, 0), 5)
  {
    stars := [];
    var i := 1;
    while i <= 5
      invariant 1 <= i <= 6
      invariant |stars| == i - 1
      invariant forall k :: 0 <= k < i - 1 ==> (stars[k] == Filled <==> k + 1 <= rating)
      invariant FilledCount(stars) == Min(Max(rating, 0), i - 1)
    {
      var star := if i <= rating then Filled else Empty;
      assert (stars + [star])[..|stars|] == stars;
      stars := stars + [star];
      i := i + 1;
    }
  }

  // ---------------------------------------------------------------------------
  // Page state

  /** The feedback page: the entries it shows and the page being viewed. */
  class FeedbackPage {
    const feedbackData: seq<Feedback>
    var currentPage: int

    /** The number of pages for the page's entries. */
    function PageCount(): nat {
      TotalPages(|feedbackData|)
    }

    /** The page starts on page 1. */
    constructor (feedbackData: seq<Feedback>)
      ensures this.feedbackData == feedbackData && currentPage == 1
    {
      this.feedbackData := feedbackData;
      currentPage := 1;
    }

    /** The entries on the page being viewed, newest first. */
    function CurrentView(): (items: seq<Feedback>)
      reads this
      ensures |items| <= ItemsPerPage
    {
      CurrentItems(SortNewestFirst(feedbackData), currentPage)
    }

    /** The previous button's handler. */
    method Previous()
      modifies this
      ensures currentPage == PreviousPage(old(currentPage))
      ensures InRange(old(currentPage), PageCount()) ==> InRange(currentPage, PageCount())
    {
      currentPage := PreviousPage(currentPage);
    }

    /** The next button's handler. */
    method Next()
      modifies this
      ensures currentPage == NextPage(old(currentPage), PageCount())
      ensures InRange(old(currentPage), PageCount()) ==> InRange(currentPage, PageCount())
    {
      currentPage := NextPage(currentPage, PageCount());
    }

    /** A page number's handler; only pages that are rendered as links can be clicked. */
    method GoToPage(page: int)
      requires InRange(page, PageCount())
      requires ControlFor(page, currentPage, PageCount()).PageLink?
      modifies this
      ensures currentPage == page && InRange(currentPage, PageCount())
    {
      currentPage := page;
    }
  }
}
