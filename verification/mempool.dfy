/** The bounded page pool (`MemPool`). The Go pool is a buffered channel of
    byte slices; here it is a FIFO queue of the capacities of the pooled pages
    (a pooled page is always truncated to length 0, so its capacity is all
    that is left of it). Access is sequential: the channel's thread safety is
    not modelled. */
module MemPool {
  import opened Common

  const DefaultPageSize: int := 256
  const DefaultPoolSize: nat := 100

  /** `pageSize` is the capacity of freshly allocated pages, `bound` the
      channel's buffer size, and `free` the capacities of the pooled pages,
      oldest first. */
  datatype Pool = Pool(pageSize: int, bound: nat, free: seq<nat>)

  /** The channel never holds more pages than its buffer size. */
  predicate Valid(p: Pool) {
    |p.free| <= p.bound
  }

  /** `NewMemPool(pageSize, poolSize)`; `make(chan, poolSize)` panics on a
      negative size, hence the precondition. */
  function NewMemPool(pageSize: int, poolSize: int): (p: Pool)
    requires poolSize >= 0
    ensures Valid(p) && |p.free| == 0
    ensures p.pageSize == pageSize && p.bound == poolSize
  {
    Pool(pageSize, poolSize, [])
  }

  /** `NewMemPool` with a page size below 1 replaced by the default, so that
      every fresh page has room for a byte. */
  function NewMemPoolCorrected(pageSize: int, poolSize: int): (p: Pool)
    requires poolSize >= 0
    ensures Valid(p) && |p.free| == 0 && p.bound == poolSize && p.pageSize > 0
    ensures pageSize > 0 ==> p == NewMemPool(pageSize, poolSize)
  {
    NewMemPool(if pageSize > 0 then pageSize else DefaultPageSize, poolSize)
  }

  /** `NewDefaultMemPool()`: pages of 256 bytes, at most 100 pooled. */
  function NewDefaultMemPool(): (p: Pool)
    ensures Valid(p) && |p.free| == 0
    ensures p.pageSize == 256 && p.bound == 100
  {
    NewMemPool(DefaultPageSize, DefaultPoolSize)
  }

  /** `Acquire()`: the oldest pooled page if there is one, otherwise a new page
      of length 0 and capacity `pageSize` (`make` panics on a negative size). */
  function Acquire(p: Pool): (r: (Page, Pool))
    requires |p.free| > 0 || p.pageSize >= 0
    ensures r.0.data == []
    ensures r.1.pageSize == p.pageSize && r.1.bound == p.bound
    ensures |p.free| > 0 ==> r.0.cap == p.free[0] && r.1.free == p.free[1..]
    ensures |p.free| == 0 ==> r.0.cap == p.pageSize && r.1 == p
    ensures Valid(p) ==> Valid(r.1)
  {
    if |p.free| > 0 then (Page([], p.free[0]), p.(free := p.free[1..]))
    else (Page([], p.pageSize as nat), p)
  }

  /** Offers one page to the channel: it is truncated to length 0 and kept if
      the channel has room, dropped otherwise (the send never blocks). */
  function Offer(p: Pool, page: Page): (r: Pool)
    requires Valid(p)
    ensures Valid(r)
    ensures r.pageSize == p.pageSize && r.bound == p.bound
    ensures |p.free| < p.bound ==> r.free == p.free + [page.cap]
    ensures |p.free| == p.bound ==> r == p
  {
    if |p.free| < p.bound then p.(free := p.free + [page.cap]) else p
  }

  /** Capacities of a list of pages. */
  function Caps(pages: seq<Page>): (r: seq<nat>)
    ensures |r| == |pages|
    ensures forall i :: 0 <= i < |pages| ==> r[i] == pages[i].cap
  {
    seq(|pages|, i requires 0 <= i < |pages| => pages[i].cap)
  }

  /** Offering the first page, then the rest: the pages kept are still the
      first ones. */
  lemma ReleaseStep(p: Pool, pages: seq<Page>, q: Pool, r: Pool)
    requires Valid(p) && |pages| > 0 && q == Offer(p, pages[0])
    requires |r.free| == Min(q.bound, |q.free| + |pages| - 1)
    requires r.free == q.free + Caps(pages[1..])[..|r.free| - |q.free|]
    ensures |r.free| == Min(p.bound, |p.free| + |pages|)
    ensures r.free == p.free + Caps(pages)[..|r.free| - |p.free|]
  {
    if |p.free| < p.bound {
      var m := |r.free| - |q.free|;
      assert Caps(pages)[..m + 1] == [pages[0].cap] + Caps(pages[1..])[..m];
      Assoc(p.free, [pages[0].cap], Caps(pages[1..])[..m]);
    } else {
      assert Caps(pages)[..0] == [];
    }
  }

  /** `Release(pages...)`: offers the pages in order. The pages that fit are
      exactly the first ones, and the occupancy becomes min(bound, before + k). */
  function Release(p: Pool, pages: seq<Page>): (r: Pool)
    requires Valid(p)
    ensures Valid(r)
    ensures r.pageSize == p.pageSize && r.bound == p.bound
    ensures |r.free| == Min(p.bound, |p.free| + |pages|)
    ensures r.free == p.free + Caps(pages)[..|r.free| - |p.free|]
    decreases |pages|
  {
    if |pages| == 0 then p
    else
      var q := Offer(p, pages[0]);
      var r := Release(q, pages[1..]);
      ReleaseStep(p, pages, q, r);
      r
  }

  /** Releasing two lists one after the other is releasing them joined. */
  lemma {:induction false} ReleaseAppend(p: Pool, xs: seq<Page>, ys: seq<Page>)
    requires Valid(p)
    ensures Release(Release(p, xs), ys) == Release(p, xs + ys)
    decreases |xs|
  {
    if |xs| > 0 {
      assert (xs + ys)[0] == xs[0] && (xs + ys)[1..] == xs[1..] + ys;
      ReleaseAppend(Offer(p, xs[0]), xs[1..], ys);
    } else {
      assert xs + ys == ys;
    }
  }

  /** Releasing pages with room only ever pools capacities with room. */
  lemma ReleasePositive(p: Pool, pages: seq<Page>)
    requires Valid(p)
    requires forall i :: 0 <= i < |p.free| ==> p.free[i] > 0
    requires forall i :: 0 <= i < |pages| ==> pages[i].cap > 0
    ensures forall i :: 0 <= i < |Release(p, pages).free| ==> Release(p, pages).free[i] > 0
  {
    var r := Release(p, pages);
    forall i | |p.free| <= i < |r.free|
      ensures r.free[i] > 0
    {
      assert r.free[i] == Caps(pages)[i - |p.free|];
    }
  }

  /** The operations a client of the pool performs. */
  datatype PoolOp = AcquireOp | ReleaseOp(pages: seq<Page>)

  /** Runs a sequence of operations; acquiring on an empty pool needs a
      non-negative page size. */
  function Run(p: Pool, ops: seq<PoolOp>): Pool
    requires Valid(p) && p.pageSize >= 0
    decreases |ops|
  {
    if |ops| == 0 then p
    else match ops[0]
      case AcquireOp => Run(Acquire(p).1, ops[1..])
      case ReleaseOp(pages) => Run(Release(p, pages), ops[1..])
  }

  /** Across any sequence of acquisitions and releases the pool never holds
      more pages than its bound, and its configuration never changes. */
  lemma {:induction false} RunKeepsBound(p: Pool, ops: seq<PoolOp>)
    requires Valid(p) && p.pageSize >= 0
    ensures Valid(Run(p, ops))
    ensures Run(p, ops).pageSize == p.pageSize && Run(p, ops).bound == p.bound
    decreases |ops|
  {
    if |ops| > 0 {
      match ops[0]
      case AcquireOp => RunKeepsBound(Acquire(p).1, ops[1..]);
      case ReleaseOp(pages) => RunKeepsBound(Release(p, pages), ops[1..]);
    }
  }

  /** A released page comes back from an otherwise empty pool with length 0
      and the capacity it had, whatever it held when released. */
  lemma ReleaseThenAcquire(p: Pool, page: Page)
    requires Valid(p) && |p.free| == 0 && p.bound > 0
    ensures Acquire(Release(p, [page])).0 == Page([], page.cap)
    ensures |Acquire(Release(p, [page])).1.free| == 0
  {
    assert Caps([page])[..1] == [page.cap];
  }
}
