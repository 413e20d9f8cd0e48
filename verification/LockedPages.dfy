/** Page locks that count (src/allocators.h:30-103): a page stays locked as long as a locked
    range touches it. Each call is one atomic step; locking a page is taken to succeed. */
module LockedPages {
  import opened Numerals

  const ADDRESS_SPACE: nat := 0x1_0000_0000_0000_0000

  datatype Range = Range(base: nat, size: nat)

  /** The address with the bits below the page size cleared. */
  function PageOf(address: nat, page_size: nat): (p: nat)
    requires page_size > 0
    ensures p <= address < p + page_size
  {
    address - address % page_size
  }

  predicate Aligned(page: nat, page_size: nat)
    requires page_size > 0
  {
    page % page_size == 0
  }

  /** The page is one of those that the loops run over. */
  predicate Touches(r: Range, page: nat, page_size: nat)
    requires page_size > 0
  {
    r.size > 0 && Aligned(page, page_size) && PageOf(r.base, page_size) <= page <= PageOf(r.base + r.size - 1, page_size)
  }

  /** Those are exactly the pages on which some byte of the range lies. */
  lemma TouchesIff(r: Range, page: nat, page_size: nat)
    requires page_size > 0 && Aligned(page, page_size)
    ensures Touches(r, page, page_size) <==>
      exists a :: r.base <= a < r.base + r.size && PageOf(a, page_size) == page
  {
    if Touches(r, page, page_size) {
      var a := if page < r.base then r.base else page;
      Inside(a, page, page_size);
      assert PageOf(a, page_size) == page;
    } else if r.size > 0 {
      forall a | r.base <= a < r.base + r.size ensures PageOf(a, page_size) != page {
        PageUp(r.base, a, page_size);
        PageUp(a, r.base + r.size - 1, page_size);
      }
    }
  }

  lemma Multiple(p: nat, page_size: nat)
    requires page_size > 0
    ensures Aligned(PageOf(p, page_size), page_size) && PageOf(p, page_size) == p / page_size * page_size
  {
    assert p == p / page_size * page_size + p % page_size;
    DivMod(p / page_size, page_size, 0);
  }

  lemma PageAligned(p: nat, page_size: nat)
    requires page_size > 0
    ensures Aligned(PageOf(p, page_size), page_size)
  {
    Multiple(p, page_size);
  }

  /** An address on a page has that page. */
  lemma Inside(a: nat, page: nat, page_size: nat)
    requires page_size > 0 && Aligned(page, page_size) && page <= a < page + page_size
    ensures PageOf(a, page_size) == page
  {
    assert page == page / page_size * page_size + page % page_size;
    DivMod(page / page_size, page_size, a - page);
  }

  lemma PageUp(a: nat, b: nat, page_size: nat)
    requires page_size > 0 && a <= b
    ensures PageOf(a, page_size) <= PageOf(b, page_size)
  {
    Multiple(a, page_size);
    Multiple(b, page_size);
    var m, n := a / page_size, b / page_size;
    assert m * page_size < (n + 1) * page_size by {
      assert (n + 1) * page_size == n * page_size + page_size;
    }
    MulLess(m, n + 1, page_size);
    MulUp(m, n, page_size);
  }

  /** Pages are a page size apart. */
  lemma NextPage(page: nat, last: nat, page_size: nat)
    requires page_size > 0 && Aligned(page, page_size) && Aligned(last, page_size) && page < last
    ensures page + page_size <= last && Aligned(page + page_size, page_size)
  {
    assert page == page / page_size * page_size + page % page_size;
    assert last == last / page_size * page_size + last % page_size;
    var m, n := page / page_size, last / page_size;
    MulLess(m, n, page_size);
    MulUp(m + 1, n, page_size);
    assert (m + 1) * page_size == page + page_size;
    DivMod(m + 1, page_size, 0);
  }

  // ---------------------------------------------------------------- counts

  /** How many of the ranges touch the page. */
  function Touching(live: seq<Range>, page: nat, page_size: nat): nat
    requires page_size > 0
  {
    if live == [] then 0
    else Touching(live[..|live| - 1], page, page_size) + (if Touches(live[|live| - 1], page, page_size) then 1 else 0)
  }

  lemma {:induction false} TouchingSum(a: seq<Range>, b: seq<Range>, page: nat, page_size: nat)
    requires page_size > 0
    ensures Touching(a + b, page, page_size) == Touching(a, page, page_size) + Touching(b, page, page_size)
  {
    hide Touches;
    if b == [] {
      assert a + b == a;
    } else {
      assert (a + b)[..|a + b| - 1] == a + b[..|b| - 1];
      TouchingSum(a, b[..|b| - 1], page, page_size);
    }
  }

  lemma TouchingOne(r: Range, page: nat, page_size: nat)
    requires page_size > 0
    ensures Touching([r], page, page_size) == if Touches(r, page, page_size) then 1 else 0
  {
    hide Touches;
    assert [r][..0] == [];
  }

  function WithoutRange(live: seq<Range>, k: nat): seq<Range>
    requires k < |live|
  {
    live[..k] + live[k + 1..]
  }

  lemma TouchingLess(live: seq<Range>, k: nat, page: nat, page_size: nat)
    requires page_size > 0 && k < |live|
    ensures Touching(live, page, page_size) ==
      Touching(WithoutRange(live, k), page, page_size) + (if Touches(live[k], page, page_size) then 1 else 0)
  {
    hide Touches, Touching;
    assert live == live[..k] + [live[k]] + live[k + 1..];
    TouchingSum(live[..k] + [live[k]], live[k + 1..], page, page_size);
    TouchingSum(live[..k], [live[k]], page, page_size);
    TouchingSum(live[..k], live[k + 1..], page, page_size);
    TouchingOne(live[k], page, page_size);
  }

  // ---------------------------------------------------------------- the manager

  class LockedPageManager {
    const page_size: nat
    var histogram: map<nat, int>
    /** The pages that the operating system holds locked. */
    var locked: set<nat>
    /** The ranges locked and not unlocked again. */
    ghost var live: seq<Range>

    constructor (page_size: nat)
      requires page_size > 0
      ensures Valid() && this.page_size == page_size && live == []
    {
      this.page_size := page_size;
      histogram, locked, live := map[], {}, [];
    }

    /** A page's count is the number of live ranges that touch it; a page is held exactly
        when that is positive. */
    ghost predicate Valid()
      reads this
    {
      && page_size > 0
      && (forall page :: page in histogram <==> Touching(live, page, page_size) > 0)
      && (forall page :: page in histogram ==> histogram[page] == Touching(live, page, page_size))
      && locked == histogram.Keys
    }

    /** The last page of the range is not the last of the address space, where the loop's
        next address would wrap around. */
    predicate Fits(base_addr: nat, size: nat)
      requires page_size > 0
    {
      size > 0 ==> PageOf(base_addr + size - 1, page_size) + page_size < ADDRESS_SPACE
    }

    lemma FitsMeans(base_addr: nat, size: nat)
      requires page_size > 0 && size > 0 && Fits(base_addr, size)
      ensures base_addr + size - 1 < ADDRESS_SPACE && (base_addr + size - 1) % ADDRESS_SPACE == base_addr + size - 1
      ensures PageOf(base_addr + size - 1, page_size) + page_size < ADDRESS_SPACE
    {
    }

    /** One page more to hold, or one lock more on it. */
    method RaisePage(page: nat)
      requires locked == histogram.Keys
      modifies this`histogram, this`locked
      ensures histogram == old(histogram)[page := if page in old(histogram) then old(histogram)[page] + 1 else 1]
      ensures locked == histogram.Keys
    {
      if page !in histogram {
        locked := locked + {page};
        histogram := histogram[page := 1];
      } else {
        histogram := histogram[page := histogram[page] + 1];
      }
    }

    /** One lock less on the page; the last one gone, it is released. */
    method LowerPage(page: nat)
      requires locked == histogram.Keys && page in histogram
      modifies this`histogram, this`locked
      ensures
        var m := old(histogram)[page := old(histogram)[page] - 1];
        histogram == if m[page] == 0 then m - {page} else m
      ensures locked == histogram.Keys
    {
      histogram := histogram[page := histogram[page] - 1];
      if histogram[page] == 0 {
        locked := locked - {page};
        histogram := histogram - {page};
      }
    }

    method LockRange(base_addr: nat, size: nat)
      requires Valid() && Fits(base_addr, size)
      modifies this
      ensures Valid() && live == if size == 0 then old(live) else old(live) + [Range(base_addr, size)]
    {
      hide Touches, Touching, PageOf, Raised, Aligned;
      if size == 0 {
        return;
      }
      ghost var r, was := Range(base_addr, size), histogram;
      var start_page := PageOf(base_addr, page_size);
      FitsMeans(base_addr, size);
      var end_page := PageOf((base_addr + size - 1) % ADDRESS_SPACE, page_size);
      PageAligned(base_addr, page_size);
      PageAligned(base_addr + size - 1, page_size);
      PageUp(base_addr, base_addr + size - 1, page_size);
      RaisedNone(was, r, page_size);
      var page := start_page;
      while page <= end_page
        decreases end_page + page_size - page
        invariant start_page <= page <= end_page + page_size && Aligned(page, page_size)
        invariant locked == histogram.Keys && Raised(was, histogram, r, page, page_size) && live == old(live)
      {
        RaisedNext(was, histogram, r, page, page_size);
        RaisePage(page);
        StepPage(page, end_page, page_size);
        page := (page + page_size) % ADDRESS_SPACE;
      }
      live := live + [r];
      RaisedAll(was, histogram, r, page, page_size, old(live));
    }

    /** The range must be one that is live; on every page of it the count is there to be
        decreased. */
    method UnlockRange(base_addr: nat, size: nat)
      requires Valid() && Fits(base_addr, size) && (size > 0 ==> Range(base_addr, size) in live)
      modifies this
      ensures Valid()
      ensures size == 0 ==> live == old(live)
      ensures size > 0 ==> exists k :: 0 <= k < |old(live)| && old(live)[k] == Range(base_addr, size) && live == WithoutRange(old(live), k)
    {
      hide Touches, Touching, PageOf, Lowered, Aligned;
      if size == 0 {
        return;
      }
      ghost var r, was := Range(base_addr, size), histogram;
      ghost var k :| 0 <= k < |live| && live[k] == r;
      AllTouched(was, live, r, k, page_size);
      var start_page := PageOf(base_addr, page_size);
      FitsMeans(base_addr, size);
      var end_page := PageOf((base_addr + size - 1) % ADDRESS_SPACE, page_size);
      PageAligned(base_addr, page_size);
      PageAligned(base_addr + size - 1, page_size);
      PageUp(base_addr, base_addr + size - 1, page_size);
      LoweredNone(was, r, page_size);
      var page := start_page;
      while page <= end_page
        invariant start_page <= page <= end_page + page_size && Aligned(page, page_size)
        invariant locked == histogram.Keys && Lowered(was, histogram, r, page, page_size) && live == old(live)
        decreases end_page + page_size - page
      {
        LoweredNext(was, histogram, r, page, page_size);
        assert page in histogram;
        LowerPage(page);
        StepPage(page, end_page, page_size);
        page := (page + page_size) % ADDRESS_SPACE;
      }
      LoweredAll(was, histogram, r, page, page_size, live, k);
      live := WithoutRange(live, k);
    }

    method GetLockedPageCount() returns (n: nat)
      requires Valid()
      ensures n == |locked| && (live == [] ==> n == 0)
    {
      n := |histogram|;
      assert |histogram| == |histogram.Keys|;
      if live == [] {
        assert histogram == map[];
      }
    }
  }

  /** The counts with one more on each page that the loop has passed. */
  ghost predicate Raised(was: map<nat, int>, now: map<nat, int>, r: Range, page: nat, page_size: nat)
    requires page_size > 0
  {
    && (forall p :: p in now <==> p in was || Passed(r, p, page, page_size))
    && (forall p :: p in now ==>
          now[p] == (if p in was then was[p] else 0) + (if Passed(r, p, page, page_size) then 1 else 0))
  }

  lemma RaisedNone(was: map<nat, int>, r: Range, page_size: nat)
    requires page_size > 0
    ensures Raised(was, was, r, PageOf(r.base, page_size), page_size)
  {
    hide PageOf;
    PassedNone(r, page_size);
  }

  lemma RaisedNext(was: map<nat, int>, now: map<nat, int>, r: Range, page: nat, page_size: nat)
    requires page_size > 0 && Aligned(page, page_size) && r.size > 0 && Raised(was, now, r, page, page_size)
    requires PageOf(r.base, page_size) <= page <= PageOf(r.base + r.size - 1, page_size)
    ensures Raised(was, now[page := if page in now then now[page] + 1 else 1], r, page + page_size, page_size)
  {
    hide PageOf, Touches, Passed;
    PassedNext(r, page, page_size);
  }

  lemma RaisedAll(was: map<nat, int>, now: map<nat, int>, r: Range, page: nat, page_size: nat, live: seq<Range>)
    requires page_size > 0 && r.size > 0 && page > PageOf(r.base + r.size - 1, page_size)
    requires Raised(was, now, r, page, page_size)
    requires forall p :: p in was <==> Touching(live, p, page_size) > 0
    requires forall p :: p in was ==> was[p] == Touching(live, p, page_size)
    ensures forall p :: p in now <==> Touching(live + [r], p, page_size) > 0
    ensures forall p :: p in now ==> now[p] == Touching(live + [r], p, page_size)
  {
    hide PageOf, Touches, Touching, Passed;
    forall p: nat
      ensures Touching(live + [r], p, page_size) == Touching(live, p, page_size) + (if Passed(r, p, page, page_size) then 1 else 0)
    {
      PassedAll(r, p, page, page_size);
      TouchingSum(live, [r], p, page_size);
      TouchingOne(r, p, page_size);
    }
  }

  /** The counts with one less on each page that the loop has passed; a count of 0 is gone. */
  ghost predicate Lowered(was: map<nat, int>, now: map<nat, int>, r: Range, page: nat, page_size: nat)
    requires page_size > 0
  {
    && (forall p :: p in now <==> p in was && (Passed(r, p, page, page_size) ==> was[p] > 1))
    && (forall p :: p in now ==> now[p] == was[p] - (if Passed(r, p, page, page_size) then 1 else 0))
  }

  ghost predicate TouchedCounted(was: map<nat, int>, r: Range, page_size: nat)
    requires page_size > 0
  {
    && (forall p :: p in was ==> was[p] > 0)
    && (forall p :: Touches(r, p, page_size) ==> p in was)
  }

  lemma AllTouched(was: map<nat, int>, live: seq<Range>, r: Range, k: nat, page_size: nat)
    requires page_size > 0 && k < |live| && live[k] == r
    requires forall p :: p in was <==> Touching(live, p, page_size) > 0
    requires forall p :: p in was ==> was[p] == Touching(live, p, page_size)
    ensures TouchedCounted(was, r, page_size)
  {
    hide Touches, Touching;
    forall p | Touches(r, p, page_size) ensures p in was {
      TouchingLess(live, k, p, page_size);
    }
  }

  lemma LoweredNone(was: map<nat, int>, r: Range, page_size: nat)
    requires page_size > 0
    ensures Lowered(was, was, r, PageOf(r.base, page_size), page_size)
  {
    hide PageOf;
    PassedNone(r, page_size);
  }

  lemma LoweredNext(was: map<nat, int>, now: map<nat, int>, r: Range, page: nat, page_size: nat)
    requires page_size > 0 && Aligned(page, page_size) && r.size > 0 && Lowered(was, now, r, page, page_size)
    requires PageOf(r.base, page_size) <= page <= PageOf(r.base + r.size - 1, page_size)
    requires TouchedCounted(was, r, page_size)
    ensures page in now
    ensures
      var m := now[page := now[page] - 1];
      Lowered(was, if m[page] == 0 then m - {page} else m, r, page + page_size, page_size)
  {
    TouchedPage(r, page, page_size);
    hide PageOf, Touches, Passed;
    PassedNext(r, page, page_size);
  }

  lemma LoweredAll(was: map<nat, int>, now: map<nat, int>, r: Range, page: nat, page_size: nat, live: seq<Range>, k: nat)
    requires page_size > 0 && r.size > 0 && page > PageOf(r.base + r.size - 1, page_size)
    requires Lowered(was, now, r, page, page_size) && k < |live| && live[k] == r
    requires forall p :: p in was <==> Touching(live, p, page_size) > 0
    requires forall p :: p in was ==> was[p] == Touching(live, p, page_size)
    ensures forall p :: p in now <==> Touching(WithoutRange(live, k), p, page_size) > 0
    ensures forall p :: p in now ==> now[p] == Touching(WithoutRange(live, k), p, page_size)
  {
    hide PageOf, Touches, Touching, Passed, WithoutRange;
    forall p: nat
      ensures Touching(live, p, page_size) == Touching(WithoutRange(live, k), p, page_size) + (if Passed(r, p, page, page_size) then 1 else 0)
    {
      PassedAll(r, p, page, page_size);
      TouchingLess(live, k, p, page_size);
    }
  }

  lemma TouchedPage(r: Range, page: nat, page_size: nat)
    requires page_size > 0 && Aligned(page, page_size) && r.size > 0
    requires PageOf(r.base, page_size) <= page <= PageOf(r.base + r.size - 1, page_size)
    ensures Touches(r, page, page_size)
  {
    hide PageOf;
  }

  lemma StepPage(page: nat, last: nat, page_size: nat)
    requires page_size > 0 && Aligned(page, page_size) && Aligned(last, page_size) && page <= last
    ensures page + page_size <= last + page_size && Aligned(page + page_size, page_size)
    ensures last + page_size < ADDRESS_SPACE ==> (page + page_size) % ADDRESS_SPACE == page + page_size
  {
    assert page == page / page_size * page_size + page % page_size;
    assert (page / page_size + 1) * page_size == page + page_size;
    DivMod(page / page_size + 1, page_size, 0);
  }

  /** A touched page that the loop has passed. */
  predicate Passed(r: Range, p: nat, page: nat, page_size: nat)
    requires page_size > 0
  {
    Touches(r, p, page_size) && p < page
  }

  lemma PassedNext(r: Range, page: nat, page_size: nat)
    requires page_size > 0 && Aligned(page, page_size) && r.size > 0
    requires PageOf(r.base, page_size) <= page <= PageOf(r.base + r.size - 1, page_size)
    ensures forall p :: Passed(r, p, page + page_size, page_size) <==> Passed(r, p, page, page_size) || p == page
    ensures !Passed(r, page, page, page_size)
  {
    hide PageOf;
    forall p: nat ensures Passed(r, p, page + page_size, page_size) <==> Passed(r, p, page, page_size) || p == page {
      if Touches(r, p, page_size) && page < p {
        NextPage(page, p, page_size);
      }
    }
  }

  lemma PassedNone(r: Range, page_size: nat)
    requires page_size > 0
    ensures forall p: nat :: !Passed(r, p, PageOf(r.base, page_size), page_size)
  {
  }

  lemma PassedAll(r: Range, p: nat, page: nat, page_size: nat)
    requires page_size > 0 && r.size > 0 && page > PageOf(r.base + r.size - 1, page_size)
    ensures Passed(r, p, page, page_size) <==> Touches(r, p, page_size)
  {
  }
}
