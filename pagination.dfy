/**
  The listing half of `getAnnouncements`: dropping the values that could not
  be fetched, then cutting one page out of what is left.
 */
module Pagination {
  import opened Text
  import opened Types

  /** `KV.list({ limit: 1000 })` */
  const ListLimit: nat := 1000

  function Min(a: int, b: int): int { if a <= b then a else b }
  function Max(a: int, b: int): int { if a >= b then a else b }

  // ---------------------------------------------------------------------------
  // Dropping failed fetches

  /** `results.filter(item => item !== null)` */
  function Present(fetched: seq<Option<Announcement>>): (r: seq<Announcement>)
    ensures |r| <= |fetched|
  {
    if fetched == [] then []
    else
      var last := fetched[|fetched| - 1];
      Present(fetched[..|fetched| - 1]) + (if last.Some? then [last.value] else [])
  }

  /** Every value kept was fetched, and every fetched value is kept. */
  lemma {:induction false} PresentKeepsExactlyTheValues(fetched: seq<Option<Announcement>>)
    ensures forall a :: a in Present(fetched) <==> Some(a) in fetched
  {
    if fetched != [] {
      var init := fetched[..|fetched| - 1];
      PresentKeepsExactlyTheValues(init);
      assert fetched == init + [fetched[|fetched| - 1]];
    }
  }

  /** Filtering distributes over concatenation: the values kept stay in order, repeats included. */
  lemma {:induction false} PresentConcat(a: seq<Option<Announcement>>, b: seq<Option<Announcement>>)
    ensures Present(a + b) == Present(a) + Present(b)
  {
    if b == [] {
      assert a + b == a;
    } else {
      assert (a + b)[..|a + b| - 1] == a + b[..|b| - 1];
      assert (a + b)[|a + b| - 1] == b[|b| - 1];
      PresentConcat(a, b[..|b| - 1]);
    }
  }

  /** When every fetch succeeded nothing is dropped, in order. */
  lemma {:induction false} PresentOfAllSome(fetched: seq<Option<Announcement>>)
    requires forall i :: 0 <= i < |fetched| ==> fetched[i].Some?
    ensures |Present(fetched)| == |fetched|
    ensures forall i :: 0 <= i < |fetched| ==> Present(fetched)[i] == fetched[i].value
  {
    if fetched != [] {
      PresentOfAllSome(fetched[..|fetched| - 1]);
    }
  }

  /**
    The announcement array that `getAnnouncements` builds with `push`:
    one pass over the fetched values, keeping the non-null ones.
   */
  method Gather(fetched: seq<Option<Announcement>>) returns (items: seq<Announcement>)
    ensures items == Present(fetched)
  {
    items := [];
    var i := 0;
    while i < |fetched|
      invariant 0 <= i <= |fetched|
      invariant items == Present(fetched[..i])
    {
      assert fetched[..i + 1][..i] == fetched[..i];
      if fetched[i].Some? {
        items := items + [fetched[i].value];
      }
      i := i + 1;
    }
    assert fetched[..|fetched|] == fetched;
  }

  // ---------------------------------------------------------------------------
  // Page arithmetic

  /** `Math.ceil(n / d)` */
  function CeilDiv(n: nat, d: nat): (q: nat)
    requires d > 0
    ensures q * d >= n
    ensures n > 0 ==> (q - 1) * d < n
    ensures n == 0 ==> q == 0
  {
    var q := (n + d - 1) / d;
    var r := (n + d - 1) % d;
    assert n + d - 1 == q * d + r;
    q
  }

  /** `Math.max(1, Math.ceil(totalItems / pageSize))` */
  function TotalPages(n: nat, pageSize: nat): (t: nat)
    requires pageSize > 0
    ensures t >= 1
  {
    Max(1, CeilDiv(n, pageSize))
  }

  /** `Math.min(totalPages, Math.max(1, page))` */
  function ClampPage(page: int, totalPages: nat): int {
    Min(totalPages, Max(1, page))
  }

  /** The first index of page `p`; it never passes the end of the list. */
  function PageStart(n: nat, pageSize: nat, p: int): (s: nat)
    requires pageSize > 0 && 1 <= p <= TotalPages(n, pageSize)
    ensures s <= n
    ensures n > 0 ==> s < n
  {
    var s := (p - 1) * pageSize;
    assert s <= (TotalPages(n, pageSize) - 1) * pageSize by {
      MulMonotone(p - 1, TotalPages(n, pageSize) - 1, pageSize);
    }
    s
  }

  lemma MulMonotone(a: nat, b: nat, c: nat)
    requires a <= b
    ensures a * c <= b * c
  {
  }

  /**
    The page `getAnnouncements` returns: the requested page clamped into
    range, and the items from `(page - 1) * pageSize` up to `pageSize` further.
    (`page || 1` in the source is absorbed by the clamp; the only caller
    passes a page size of 10.)
   */
  function Paginate(all: seq<Announcement>, page: int, pageSize: nat): (l: Listing)
    requires pageSize > 0
    ensures l.totalItems == |all| && l.error.None?
    ensures l.totalPages >= 1 && l.totalPages * pageSize >= |all|
    ensures |all| > 0 ==> (l.totalPages - 1) * pageSize < |all|
    ensures |all| == 0 ==> l.totalPages == 1
    ensures 1 <= l.currentPage <= l.totalPages
    ensures 1 <= page <= l.totalPages ==> l.currentPage == page
    ensures page < 1 ==> l.currentPage == 1
    ensures page > l.totalPages ==> l.currentPage == l.totalPages
    ensures |l.items| <= pageSize
  {
    var n := |all|;
    var totalPages := TotalPages(n, pageSize);
    var p := ClampPage(page, totalPages);
    var start := PageStart(n, pageSize, p);
    var end := Min(start + pageSize, n);
    Listing(all[start..end], p, totalPages, n, None)
  }

  /** The items of page `p` are exactly the slice `[(p-1)*pageSize, min(p*pageSize, n))`. */
  lemma PageIsSlice(all: seq<Announcement>, page: int, pageSize: nat)
    requires pageSize > 0
    ensures var l := Paginate(all, page, pageSize);
            var p := l.currentPage;
            (p - 1) * pageSize <= Min(p * pageSize, |all|)
            && l.items == all[(p - 1) * pageSize .. Min(p * pageSize, |all|)]
  {
    var l := Paginate(all, page, pageSize);
    var p := l.currentPage;
    assert (p - 1) * pageSize + pageSize == p * pageSize;
  }

  /** The page an index falls on is a page in range. */
  lemma PageOfIndexInRange(n: nat, pageSize: nat, i: nat)
    requires pageSize > 0 && i < n
    ensures i / pageSize * pageSize <= i < i / pageSize * pageSize + pageSize
    ensures i / pageSize + 1 <= TotalPages(n, pageSize)
  {
    var q := i / pageSize;
    assert i == q * pageSize + i % pageSize;
    var c := CeilDiv(n, pageSize);
    if q + 1 > c {
      MulMonotone(c, q, pageSize);
      assert false;
    }
  }

  /** Item `i` of the list appears on page `i / pageSize + 1`, at its offset from that page's first index. */
  lemma EveryItemOnItsPage(all: seq<Announcement>, pageSize: nat, i: nat)
    requires pageSize > 0 && i < |all|
    ensures var l := Paginate(all, i / pageSize + 1, pageSize);
            l.currentPage == i / pageSize + 1
            && i - (i / pageSize) * pageSize < |l.items|
            && l.items[i - (i / pageSize) * pageSize] == all[i]
  {
    var n := |all|;
    var q := i / pageSize;
    PageOfIndexInRange(n, pageSize, i);
    var start := PageStart(n, pageSize, q + 1);
    assert start == q * pageSize;
    var l := Paginate(all, q + 1, pageSize);
    assert l.currentPage == q + 1;
    assert l.items == all[start..Min(start + pageSize, n)];
    assert start <= i < Min(start + pageSize, n);
    assert l.items[i - start] == all[i];
  }

  /** With at least one item, no page in range is empty. */
  lemma PagesInRangeNonEmpty(all: seq<Announcement>, page: int, pageSize: nat)
    requires pageSize > 0 && |all| > 0
    ensures |Paginate(all, page, pageSize).items| > 0
  {
  }

  /** Asking for a page out of range gives the same answer as asking for the nearest page in range. */
  lemma ClampIdempotent(all: seq<Announcement>, page: int, pageSize: nat)
    requires pageSize > 0
    ensures Paginate(all, Paginate(all, page, pageSize).currentPage, pageSize) == Paginate(all, page, pageSize)
  {
  }

  /** The fixed result `getAnnouncements` returns when the listing itself fails. */
  function FailedListing(error: ErrorKind): (l: Listing)
    ensures l.items == [] && l.currentPage == 1 && l.totalPages == 1 && l.totalItems == 0
    ensures l.error == Some(error)
  {
    Listing([], 1, 1, 0, Some(error))
  }
}
