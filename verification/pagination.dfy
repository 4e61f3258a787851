/** Client-side pagination of the head-visual gallery: the server hands back
    up to 50 visuals, which are shown ten per page with Prev/Next buttons. */
module Pagination {
  import opened Js

  /** Number of visuals shown per gallery page. */
  const PageSize: nat := 10

  /** The number of pages for `n` visuals: `n / PageSize` rounded up, and
      never less than one so that "Page 1 of 1" shows for an empty
      gallery. */
  function PageCount(n: nat): (c: nat)
    ensures c >= 1
    ensures n == 0 ==> c == 1
    ensures n > 0 ==> (c - 1) * PageSize < n <= c * PageSize
  {
    var ceil := (n + PageSize - 1) / PageSize;
    if ceil < 1 then 1 else ceil
  }

  /** The visuals on page `page`: the slice of `PageSize` visuals starting
      at `(page - 1) * PageSize`. */
  function PageItems<T>(visuals: seq<T>, page: int): (r: seq<T>)
    ensures page >= 1 ==> |r| <= PageSize
    ensures page >= 1 && (page - 1) * PageSize < |visuals| ==>
              r == visuals[(page - 1) * PageSize .. Min(page * PageSize, |visuals|)]
    ensures page >= 1 && (page - 1) * PageSize >= |visuals| ==> r == []
    ensures page == 0 ==> r == []
  {
    var start := (page - 1) * PageSize;
    Slice(visuals, start, start + PageSize)
  }

  function Min(a: int, b: int): int {
    if a <= b then a else b
  }

  /** The pages `1..k` laid end to end. */
  function Pages<T>(visuals: seq<T>, k: nat): seq<T> {
    if k == 0 then [] else Pages(visuals, k - 1) + PageItems(visuals, k)
  }

  /** The first `k` pages hold exactly the first `k * PageSize` visuals. */
  lemma {:induction false} PagesArePrefix<T>(visuals: seq<T>, k: nat)
    ensures Pages(visuals, k) == visuals[..Min(k * PageSize, |visuals|)]
  {
    if k > 0 {
      PagesArePrefix(visuals, k - 1);
      var lo := Min((k - 1) * PageSize, |visuals|);
      var hi := Min(k * PageSize, |visuals|);
      if (k - 1) * PageSize < |visuals| {
        assert PageItems(visuals, k) == visuals[lo..hi];
      } else {
        assert PageItems(visuals, k) == [];
        assert lo == hi;
      }
      assert visuals[..lo] + visuals[lo..hi] == visuals[..hi];
    }
  }

  /** Every visual is shown on exactly one of the pages `1..PageCount`: the
      pages laid end to end are the whole gallery, in order. */
  lemma {:induction false} PagesCoverGallery<T>(visuals: seq<T>)
    ensures Pages(visuals, PageCount(|visuals|)) == visuals
  {
    var c := PageCount(|visuals|);
    PagesArePrefix(visuals, c);
    assert Min(c * PageSize, |visuals|) == |visuals|;
  }

  /** Visual `i` sits at position `i % PageSize` of page `i / PageSize + 1`,
      and that page is one the Prev/Next buttons can reach. */
  lemma {:induction false} ItemPage<T>(visuals: seq<T>, i: nat)
    requires i < |visuals|
    ensures 1 <= i / PageSize + 1 <= PageCount(|visuals|)
    ensures i % PageSize < |PageItems(visuals, i / PageSize + 1)|
    ensures PageItems(visuals, i / PageSize + 1)[i % PageSize] == visuals[i]
  {
  }

  /** The Prev button: disabled on page 1, otherwise one page back but never
      below page 1. */
  function PrevPage(page: int): (p: int)
    ensures page >= 1 ==> 1 <= p <= page
    ensures page > 1 ==> p == page - 1
    ensures page <= 1 ==> p == page
  {
    if page <= 1 then page
    else if page - 1 < 1 then 1 else page - 1
  }

  /** The Next button: disabled on the last page, otherwise one page forward
      but never past the page count. */
  function NextPage(page: int, pageCount: int): (p: int)
    ensures page <= pageCount ==> page <= p <= pageCount
    ensures page < pageCount ==> p == page + 1
    ensures page >= pageCount ==> p == page
  {
    if page >= pageCount then page
    else if pageCount < page + 1 then pageCount else page + 1
  }

  /** Inside the page range, Next undoes Prev and Prev undoes Next. */
  lemma PrevNextInverse(page: int, pageCount: int)
    ensures 1 < page <= pageCount ==> NextPage(PrevPage(page), pageCount) == page
    ensures 1 <= page < pageCount ==> PrevPage(NextPage(page, pageCount)) == page
  {
  }

  /** What the gallery shows: the loaded visuals and the current page. */
  datatype Gallery<T> = Gallery(visuals: seq<T>, page: int)

  /** The user's actions on the gallery; `Reload` is a successful
      (re)load of the visuals from the server. */
  datatype Event<T> = Prev | Next | Reload(items: seq<T>)

  /** The state before any load: no visuals, page 1. */
  function Initial<T>(): Gallery<T> {
    Gallery([], 1)
  }

  /** The current page is one the controls can show. */
  predicate Valid<T>(g: Gallery<T>) {
    1 <= g.page <= PageCount(|g.visuals|)
  }

  /** The effect of one event; a reload resets to page 1. */
  function Step<T>(g: Gallery<T>, e: Event<T>): (r: Gallery<T>)
    ensures e.Reload? ==> r == Gallery(e.items, 1)
    ensures !e.Reload? ==> r.visuals == g.visuals
    ensures Valid(g) ==> Valid(r)
  {
    match e
    case Prev => g.(page := PrevPage(g.page))
    case Next => g.(page := NextPage(g.page, PageCount(|g.visuals|)))
    case Reload(items) => Gallery(items, 1)
  }

  /** The effect of a sequence of events, first to last. */
  function Run<T>(g: Gallery<T>, events: seq<Event<T>>): Gallery<T>
    decreases |events|
  {
    if |events| == 0 then g else Run(Step(g, events[0]), events[1..])
  }

  /** No sequence of events moves a valid gallery out of range. */
  lemma {:induction false} RunPreservesValid<T>(g: Gallery<T>, events: seq<Event<T>>)
    requires Valid(g)
    ensures Valid(Run(g, events))
    decreases |events|
  {
    if |events| > 0 {
      RunPreservesValid(Step(g, events[0]), events[1..]);
    }
  }

  /** From the initial state, every sequence of Prev, Next and reloads keeps
      the page within `1..PageCount`. */
  lemma ReachablePageInRange<T>(events: seq<Event<T>>)
    ensures 1 <= Run(Initial<T>(), events).page <= PageCount(|Run(Initial<T>(), events).visuals|)
  {
    RunPreservesValid(Initial<T>(), events);
  }
}
