/** The pooled writer (`writer`): a buffer whose pages come from a memory
    pool. Writing fills the current page and continues on freshly acquired
    pages; releasing hands every page back to the pool. The pool is threaded
    through explicitly: every operation returns the writer together with the
    pool state it leaves behind. */
module Writer {
  import opened Common
  import MemPool
  import Buffer
  import opened Escape

  datatype Writer = Writer(mem: MemPool.Pool, buf: Buffer.Buffer)

  /** A pool the writer can work with: fresh and pooled pages all have room
      for at least one byte. On a page of capacity 0, a `writeString` longer
      than the room left loops for ever; a `writeByte` would grow the page
      with `append`, which this model does not do. */
  predicate Feeds(p: MemPool.Pool) {
    && MemPool.Valid(p)
    && p.pageSize > 0
    && forall i :: 0 <= i < |p.free| ==> p.free[i] > 0
  }

  /** The writer's invariant: a valid buffer whose pages all came from a
      feeding pool, and no page, current or retired, filled past its
      capacity. */
  predicate Sound(w: Writer) {
    && Buffer.Valid(w.buf)
    && Fits(w.buf.page)
    && w.buf.page.cap > 0
    && (forall i :: 0 <= i < |w.buf.store| ==> w.buf.store[i].cap > 0 && Fits(w.buf.store[i]))
    && Feeds(w.mem)
  }

  /** A page filled to its capacity. */
  predicate Full(p: Page) {
    |p.data| == p.cap
  }

  /** The retired pages of `r` are those of `w`, then `w`'s current page,
      then pages filled to capacity: what the writing loops leave behind
      once they have moved past `w`'s current page. */
  predicate RetiresFull(w: Writer, r: Writer) {
    && |r.buf.store| > |w.buf.store|
    && r.buf.store[..|w.buf.store|] == w.buf.store
    && r.buf.store[|w.buf.store|] == w.buf.page
    && forall i :: |w.buf.store| < i < |r.buf.store| ==> Full(r.buf.store[i])
  }

  /** The bytes written so far. */
  function Text(w: Writer): Bytes {
    Buffer.Contents(w.buf)
  }

  /** Pages the pool and the writer hold between them. */
  function Accounted(w: Writer): nat {
    |w.mem.free| + |w.buf.store| + 1
  }

  /** The pool's configuration is untouched. */
  predicate SameConfig(a: Writer, b: Writer) {
    a.mem.pageSize == b.mem.pageSize && a.mem.bound == b.mem.bound
  }

  /** `newWrirter(mem)`: a buffer on exactly one page acquired from the pool. */
  function NewWriter(p: MemPool.Pool): (w: Writer)
    requires Feeds(p)
    ensures Sound(w) && Text(w) == [] && |w.buf.store| == 0
    ensures w.buf.page == MemPool.Acquire(p).0 && w.mem == MemPool.Acquire(p).1
    ensures Accounted(w) >= |p.free| && Accounted(w) >= 1
  {
    var acq := MemPool.Acquire(p);
    var page := acq.0;
    var m := acq.1;
    Writer(m, Buffer.NewBuffer(page))
  }

  /** `writeByte(b)`: one more byte, on the current page if it has room,
      otherwise on a freshly acquired page after retiring the full one. */
  function WriteByte(w: Writer, b: byte): (r: Writer)
    requires Sound(w)
    ensures Sound(r) && SameConfig(w, r) && Accounted(r) >= Accounted(w)
    ensures Text(r) == Text(w) + [b]
    ensures |w.buf.page.data| < w.buf.page.cap ==>
      r.buf.store == w.buf.store && r.mem == w.mem && r.buf.page == Page(w.buf.page.data + [b], w.buf.page.cap)
    ensures |w.buf.page.data| == w.buf.page.cap ==>
      && r.buf.store == w.buf.store + [w.buf.page] && r.buf.page.data == [b]
      && r.mem == MemPool.Acquire(w.mem).1 && r.buf.page.cap == MemPool.Acquire(w.mem).0.cap
  {
    var page := w.buf.page;
    if |page.data| < page.cap then
      w.(buf := w.buf.(page := Page(page.data + [b], page.cap)))
    else
      var acq := MemPool.Acquire(w.mem);
      var newPage := acq.0;
      var m := acq.1;
      Writer(m, Buffer.Add(w.buf, Page(newPage.data + [b], newPage.cap)))
  }

  /** Retiring the current page and then, if the loop goes on, a full page
      with it: the retired pages still have the shape `RetiresFull` states. */
  lemma RetireStep(w: Writer, w1: Writer, r: Writer)
    requires w1.buf.store == w.buf.store + [w.buf.page]
    requires r == w1 || (Full(w1.buf.page) && RetiresFull(w1, r))
    ensures RetiresFull(w, r)
  {
    var n := |w.buf.store|;
    if r != w1 {
      assert r.buf.store[..n] == r.buf.store[..n + 1][..n];
      forall i | n < i < |r.buf.store|
        ensures Full(r.buf.store[i])
      {
        if i == n + 1 {
          assert r.buf.store[i] == w1.buf.page;
        }
      }
    }
  }

  /** One round of the `writeString` loop: the current page is retired and
      a freshly acquired page takes min(its capacity, what is left) bytes
      from `beg` on. */
  function Refill(w: Writer, s: Bytes, beg: nat): (r: Writer)
    requires Sound(w) && beg < |s|
    ensures Sound(r) && SameConfig(w, r) && Accounted(r) >= Accounted(w)
    ensures r.mem == MemPool.Acquire(w.mem).1
    ensures r.buf.store == w.buf.store + [w.buf.page]
    ensures r.buf.page.cap == MemPool.Acquire(w.mem).0.cap
    ensures |r.buf.page.data| == Min(|s| - beg, r.buf.page.cap) > 0
    ensures r.buf.page.data == s[beg..beg + |r.buf.page.data|]
    ensures Text(r) == Text(w) + r.buf.page.data
  {
    var acq := MemPool.Acquire(w.mem);
    var newPage := acq.0;
    var m := acq.1;
    var end := Min(beg + newPage.cap, |s|);
    Writer(m, Buffer.Add(w.buf, Page(newPage.data + s[beg..end], newPage.cap)))
  }

  /** What one round of the loop adds to what the rest of the loop
      guarantees. */
  lemma FillStep(w: Writer, s: Bytes, beg: nat, w1: Writer, end: nat, r: Writer)
    requires Sound(w) && beg < |s|
    requires w1 == Refill(w, s, beg) && end == beg + |w1.buf.page.data|
    requires Sound(r) && SameConfig(w1, r) && Accounted(r) >= Accounted(w1)
    requires Text(r) == Text(w1) + s[end..]
    requires end == |s| ==> r == w1
    requires end < |s| ==> RetiresFull(w1, r) && |r.buf.page.data| > 0
    ensures SameConfig(w, r) && Accounted(r) >= Accounted(w)
    ensures Text(r) == Text(w) + s[beg..]
    ensures RetiresFull(w, r) && |r.buf.page.data| > 0
  {
    SplitAppend(Text(w), s, beg, end);
    RetireStep(w, w1, r);
  }

  /** The page-splitting loop of `writeString`: from `beg` on, each acquired
      page receives min(its capacity, what is left) bytes, so every page it
      retires after the current one is full and the last page is not
      empty. */
  function Fill(w: Writer, s: Bytes, beg: nat): (r: Writer)
    requires Sound(w) && beg <= |s|
    ensures Sound(r) && SameConfig(w, r) && Accounted(r) >= Accounted(w)
    ensures Text(r) == Text(w) + s[beg..]
    ensures beg == |s| ==> r == w
    ensures beg < |s| ==> RetiresFull(w, r) && |r.buf.page.data| > 0
    decreases |s| - beg
  {
    if beg >= |s| then w
    else
      var w1 := Refill(w, s, beg);
      var end := beg + |w1.buf.page.data|;
      var r := Fill(w1, s, end);
      FillStep(w, s, beg, w1, end, r);
      r
  }

  /** One round of the loop, then the rest of it. */
  lemma FillUnfold(w: Writer, s: Bytes, beg: nat, w1: Writer, end: nat)
    requires Sound(w) && beg < |s|
    requires w1 == Refill(w, s, beg) && end == beg + |w1.buf.page.data|
    ensures Fill(w, s, beg) == Fill(w1, s, end)
  {
  }

  /** The loop of `writeString` as written, for any pool whose fresh pages
      can be allocated: each round acquires a page and advances by its
      capacity, with nothing that ensures progress. `None` means the loop had
      not finished after `fuel` rounds. */
  function FillAsWritten(w: Writer, s: Bytes, beg: nat, fuel: nat): (r: Option<Writer>)
    requires w.mem.pageSize >= 0 && beg <= |s|
    ensures beg == |s| ==> r == Some(w)
    ensures r.Some? ==> Text(r.value) == Text(w) + s[beg..]
    decreases fuel
  {
    if beg >= |s| then Some(w)
    else if fuel == 0 then None
    else
      var acq := MemPool.Acquire(w.mem);
      var end := Min(beg + acq.0.cap, |s|);
      var w1 := Writer(acq.1, Buffer.Add(w.buf, Page(acq.0.data + s[beg..end], acq.0.cap)));
      var r := FillAsWritten(w1, s, end, fuel - 1);
      SplitAppend(Text(w), s, beg, end);
      r
  }

  /** With a page size of 0 and an empty pool, the loop as written never
      finishes: every acquired page has capacity 0, so `beg` never moves. */
  lemma {:induction false} ZeroPageStalls(w: Writer, s: Bytes, beg: nat, fuel: nat)
    requires w.mem.pageSize == 0 && |w.mem.free| == 0 && beg < |s|
    ensures FillAsWritten(w, s, beg, fuel) == None
    decreases fuel
  {
    if fuel > 0 {
      var w1 := Writer(w.mem, Buffer.Add(w.buf, Page(s[beg..beg], 0)));
      assert [] + s[beg..beg] == s[beg..beg];
      assert FillAsWritten(w, s, beg, fuel) == FillAsWritten(w1, s, beg, fuel - 1);
      ZeroPageStalls(w1, s, beg, fuel - 1);
    }
  }

  /** On a sound writer a round of the loop as written is a `Refill`. */
  lemma AsWrittenRound(w: Writer, s: Bytes, beg: nat, fuel: nat, w1: Writer, end: nat)
    requires Sound(w) && beg < |s| && fuel > 0
    requires w1 == Refill(w, s, beg) && end == beg + |w1.buf.page.data|
    ensures FillAsWritten(w, s, beg, fuel) == FillAsWritten(w1, s, end, fuel - 1)
  {
  }

  /** On a writer over a feeding pool the loop as written finishes within
      one round per byte left, with the result of `Fill`. */
  lemma {:induction false} FillAsWrittenAgrees(w: Writer, s: Bytes, beg: nat, fuel: nat)
    requires Sound(w) && beg <= |s| && fuel >= |s| - beg
    ensures FillAsWritten(w, s, beg, fuel) == Some(Fill(w, s, beg))
    decreases |s| - beg
  {
    if beg < |s| {
      var w1 := Refill(w, s, beg);
      var end := beg + |w1.buf.page.data|;
      FillUnfold(w, s, beg, w1, end);
      AsWrittenRound(w, s, beg, fuel, w1, end);
      FillAsWrittenAgrees(w1, s, end, fuel - 1);
    }
  }

  /** Every writer over the corrected pool feeds, so the loop as written
      finishes on it. */
  lemma CorrectedPoolFinishes(pageSize: int, poolSize: int, s: Bytes)
    requires poolSize >= 0
    ensures Feeds(MemPool.NewMemPoolCorrected(pageSize, poolSize))
    ensures var w := NewWriter(MemPool.NewMemPoolCorrected(pageSize, poolSize));
      FillAsWritten(w, s, 0, |s|) == Some(Fill(w, s, 0))
  {
    var w := NewWriter(MemPool.NewMemPoolCorrected(pageSize, poolSize));
    FillAsWrittenAgrees(w, s, 0, |s|);
  }

  /** Free bytes on the current page. */
  function Room(w: Writer): int {
    w.buf.page.cap - |w.buf.page.data|
  }

  /** The writer with its current page topped up to capacity from the front
      of `s`, as `writeString` does before it acquires more pages. */
  function TopUp(w: Writer, s: Bytes): (r: Writer)
    requires Sound(w) && |s| > Room(w)
    ensures Sound(r) && r.mem == w.mem && r.buf.store == w.buf.store
    ensures r.buf.page.cap == w.buf.page.cap && Full(r.buf.page)
    ensures Text(r) == Text(w) + s[..Room(w)]
  {
    w.(buf := w.buf.(page := Page(w.buf.page.data + s[..Room(w)], w.buf.page.cap)))
  }

  /** `writeString(str)`: the text grows by exactly `str`. A string that fits
      stays on the current page; otherwise the current page is topped up and
      retired, and every page retired after it is full. No page is filled past
      its capacity (part of `Sound`). */
  function WriteString(w: Writer, s: Bytes): (r: Writer)
    requires Sound(w)
    ensures Sound(r) && SameConfig(w, r) && Accounted(r) >= Accounted(w)
    ensures Text(r) == Text(w) + s
    ensures |s| <= Room(w) ==>
      r.mem == w.mem && r.buf.store == w.buf.store && r.buf.page == Page(w.buf.page.data + s, w.buf.page.cap)
    ensures |s| > Room(w) ==>
      r == Fill(TopUp(w, s), s, Room(w)) && RetiresFull(TopUp(w, s), r) && |r.buf.page.data| > 0
  {
    var page := w.buf.page;
    var space := Room(w);
    if space >= |s| then
      w.(buf := w.buf.(page := Page(page.data + s, page.cap)))
    else
      var r := Fill(TopUp(w, s), s, space);
      assert s == s[..space] + s[space..];
      r
  }

  /** `writeByte(b)` leaves the writer and the pool exactly as
      `writeString` of the one-byte string does. */
  lemma WriteByteAsString(w: Writer, b: byte)
    requires Sound(w)
    ensures WriteByte(w, b) == WriteString(w, [b])
  {
    if |w.buf.page.data| == w.buf.page.cap {
      assert w.buf.page.data + [b][..0] == w.buf.page.data;
      assert TopUp(w, [b]) == w;
      FillUnfold(w, [b], 0, Refill(w, [b], 0), 1);
    }
  }

  /** The scanning loop of `writeEscaped`: bytes from `beg` to `end` form a
      pending run of unreserved bytes; a byte that must be escaped flushes the
      run and then writes its `%XX` form. */
  function EscapeLoop(w: Writer, s: Bytes, beg: nat, end: nat): (r: Writer)
    requires Sound(w) && beg <= end <= |s|
    requires forall i :: beg <= i < end ==> Unreserved(s[i])
    ensures Sound(r) && SameConfig(w, r) && Accounted(r) >= Accounted(w)
    ensures Text(r) == Text(w) + Escaped(s[beg..])
    decreases |s| - end
  {
    if end < |s| then
      if ShouldEscape(s[end]) then
        var w2 := WriteString(WriteString(w, s[beg..end]), EscapeByte(s[end]));
        EscapeSplit(s, beg, end);
        Assoc(Text(w), s[beg..end], EscapeByte(s[end]));
        Assoc(Text(w), s[beg..end] + EscapeByte(s[end]), Escaped(s[end + 1..]));
        EscapeLoop(w2, s, end + 1, end + 1)
      else
        EscapeLoop(w, s, beg, end + 1)
    else
      EscapeSplit(s, beg, end);
      WriteString(w, s[beg..end])
  }

  /** How the escaped rest of the input splits at the scanning position: the
      pending unreserved run, then the current byte's escape (if any), then
      the rest. */
  lemma EscapeSplit(s: Bytes, beg: nat, end: nat)
    requires beg <= end <= |s|
    requires forall i :: beg <= i < end ==> Unreserved(s[i])
    ensures end == |s| ==> Escaped(s[beg..]) == s[beg..end]
    ensures end < |s| && ShouldEscape(s[end]) ==>
      Escaped(s[beg..]) == s[beg..end] + EscapeByte(s[end]) + Escaped(s[end + 1..])
  {
    EscapedUnreserved(s[beg..end]);
    if end < |s| {
      assert s[beg..] == s[beg..end] + s[end..];
      EscapedAppend(s[beg..end], s[end..]);
      assert s[end..][1..] == s[end + 1..];
    } else {
      assert s[beg..] == s[beg..end];
    }
  }

  /** `writeEscaped(str)`: appends, byte by byte, the byte itself if it is
      unreserved and its `%XX` escape otherwise. */
  function WriteEscaped(w: Writer, s: Bytes): (r: Writer)
    requires Sound(w)
    ensures Sound(r) && SameConfig(w, r) && Accounted(r) >= Accounted(w)
    ensures Text(r) == Text(w) + Escaped(s)
  {
    assert s[0..] == s;
    EscapeLoop(w, s, 0, 0)
  }

  /** Every page a sound writer holds has room for a byte. */
  lemma PagesHaveRoom(w: Writer)
    requires Sound(w)
    ensures forall i :: 0 <= i < |[w.buf.page] + w.buf.store| ==> ([w.buf.page] + w.buf.store)[i].cap > 0
  {
    var pages := [w.buf.page] + w.buf.store;
    forall i | 0 <= i < |pages|
      ensures pages[i].cap > 0
    {
      if i > 0 {
        assert pages[i] == w.buf.store[i - 1];
      }
    }
  }

  /** `release()`: the current page and then every retired page are offered
      to the pool, in that order; the pool keeps the capacities of as many of
      them as it has room for, and with room for all of them the occupancy
      grows by the number of retired pages plus one. */
  function Release(w: Writer): (p: MemPool.Pool)
    requires Sound(w)
    ensures Feeds(p)
    ensures p.pageSize == w.mem.pageSize && p.bound == w.mem.bound
    ensures |p.free| == Min(w.mem.bound, Accounted(w))
    ensures p.free == w.mem.free + MemPool.Caps([w.buf.page] + w.buf.store)[..|p.free| - |w.mem.free|]
  {
    var p1 := MemPool.Release(w.mem, [w.buf.page]);
    var p2 := MemPool.Release(p1, w.buf.store);
    var pages := [w.buf.page] + w.buf.store;
    MemPool.ReleaseAppend(w.mem, [w.buf.page], w.buf.store);
    PagesHaveRoom(w);
    assert |pages| == |w.buf.store| + 1;
    MemPool.ReleasePositive(w.mem, pages);
    p2
  }

  /** Number of fresh pages needed for `n` more bytes when every page holds `size`. */
  function PagesFor(n: int, size: nat): nat
    requires size > 0
    decreases n
  {
    if n <= 0 then 0 else 1 + PagesFor(n - size, size)
  }

  /** Bytes left on the last of those pages. */
  function LastFill(n: int, size: nat): int
    requires size > 0
    decreases n
  {
    if n <= size then n else LastFill(n - size, size)
  }

  /** One round of the loop on an empty pool: a fresh page of `pageSize`
      bytes is filled, and the page counts shift by one page. */
  lemma EmptyPoolRound(w: Writer, s: Bytes, beg: nat)
    requires Sound(w) && beg < |s| && |w.mem.free| == 0
    ensures var w1 := Refill(w, s, beg);
      var end := beg + |w1.buf.page.data|;
      var size := w.mem.pageSize;
      && w1.mem == w.mem && |w1.buf.store| == |w.buf.store| + 1
      && (end < |s| ==> PagesFor(|s| - beg, size) == 1 + PagesFor(|s| - end, size)
                        && LastFill(|s| - beg, size) == LastFill(|s| - end, size))
      && (end == |s| ==> PagesFor(|s| - beg, size) == 1
                         && LastFill(|s| - beg, size) == |w1.buf.page.data|)
  {
    var size := w.mem.pageSize;
    var w1 := Refill(w, s, beg);
    assert w1.buf.page.cap == size;
    if beg + size < |s| {
      assert PagesFor(|s| - beg, size) == 1 + PagesFor(|s| - beg - size, size);
    } else {
      assert PagesFor(|s| - beg - size, size) == 0;
    }
  }

  /** With an empty pool, the loop of `writeString` retires one page per
      fresh page of `pageSize` it fills, each full except the last. */
  lemma {:induction false} FillFromEmptyPool(w: Writer, s: Bytes, beg: nat)
    requires Sound(w) && beg < |s| && |w.mem.free| == 0
    ensures |Fill(w, s, beg).buf.store| == |w.buf.store| + PagesFor(|s| - beg, w.mem.pageSize)
    ensures |Fill(w, s, beg).buf.page.data| == LastFill(|s| - beg, w.mem.pageSize)
    ensures |Fill(w, s, beg).mem.free| == 0
    decreases |s| - beg
  {
    var w1 := Refill(w, s, beg);
    var end := beg + |w1.buf.page.data|;
    FillUnfold(w, s, beg, w1, end);
    EmptyPoolRound(w, s, beg);
    if end < |s| {
      FillFromEmptyPool(w1, s, end);
    }
  }

  /** Four pages of ten hold 34 bytes, the last one four. */
  lemma PagesOf34()
    ensures PagesFor(34, 10) == 4 && LastFill(34, 10) == 4
  {
    assert PagesFor(24, 10) == 3 by {
      assert PagesFor(4, 10) == 1;
      assert PagesFor(14, 10) == 2;
    }
    assert LastFill(24, 10) == 4 by {
      assert LastFill(14, 10) == 4;
    }
  }

  /** A 44-byte string written through a fresh writer on an empty pool of
      10-byte pages leaves 4 retired pages and 4 bytes on the current page. */
  lemma WriteStringSplitExample(s: Bytes)
    requires |s| == 44
    ensures var r := WriteString(NewWriter(MemPool.NewMemPool(10, 100)), s);
      |r.buf.store| == 4 && |r.buf.page.data| == 4 && Text(r) == s
  {
    var w := NewWriter(MemPool.NewMemPool(10, 100));
    assert w.buf.page == Page([], 10) && |w.mem.free| == 0 && w.buf.store == [];
    FillFromEmptyPool(TopUp(w, s), s, 10);
    PagesOf34();
  }

  /** The writer's escaping on one of the library's own examples: "Test!"
      written into an empty writer gives "Test%21". */
  lemma WriteEscapedExample(w: Writer, s: Bytes)
    requires Sound(w) && Text(w) == [] && s == Ascii("Test!")
    ensures Text(WriteEscaped(w, s)) == Ascii("Test%21")
  {
    EscapedExample(s);
    assert [] + Escaped(s) == Escaped(s);
  }
}
