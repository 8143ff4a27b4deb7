/** The paged byte accumulator (`buffer`): a current page, the ordered list of
    retired pages, and the number of bytes in the retired pages. Its logical
    contents are the retired pages in order followed by the current page. */
module Buffer {
  import opened Common

  datatype Buffer = Buffer(page: Page, store: seq<Page>, bytes: int)

  /** The contents of a list of pages. */
  function Datas(pages: seq<Page>): (r: seq<Bytes>)
    ensures |r| == |pages|
    ensures forall i :: 0 <= i < |pages| ==> r[i] == pages[i].data
  {
    seq(|pages|, i requires 0 <= i < |pages| => pages[i].data)
  }

  /** The byte counter agrees with the retired pages. */
  predicate Valid(b: Buffer) {
    b.bytes == TotalLen(Datas(b.store))
  }

  /** Abstraction function: the bytes the buffer holds, in order. */
  function Contents(b: Buffer): Bytes {
    Concat(Datas(b.store)) + b.page.data
  }

  /** `newBuffer(page)`: the page becomes current, nothing is retired. */
  function NewBuffer(page: Page): (b: Buffer)
    ensures Valid(b)
    ensures b.page == page && |b.store| == 0 && b.bytes == 0
    ensures Contents(b) == page.data
  {
    Buffer(page, [], 0)
  }

  /** `add(page)`: retires the current page and makes `page` current. */
  function Add(b: Buffer, page: Page): (r: Buffer)
    ensures r.page == page && r.store == b.store + [b.page]
    ensures r.bytes == b.bytes + |b.page.data|
    ensures Valid(b) ==> Valid(r)
    ensures Contents(r) == Contents(b) + page.data
  {
    var r := Buffer(page, b.store + [b.page], b.bytes + |b.page.data|);
    assert Datas(r.store) == Datas(b.store) + [b.page.data];
    ConcatSnoc(Datas(b.store), b.page.data);
    r
  }

  /** `len()`: the retired byte count plus the current page's length, which
      for a valid buffer is the length of its contents. */
  function Len(b: Buffer): (n: int)
    ensures Valid(b) ==> n == |Contents(b)| == TotalLen(Datas(b.store)) + |b.page.data|
  {
    ConcatLength(Datas(b.store));
    b.bytes + |b.page.data|
  }

  /** Appends pages to a slice that has room for all of them, as the loop of
      `build` does. */
  function AppendPages(res: Page, pages: seq<Bytes>): (r: Page)
    requires |res.data| + TotalLen(pages) <= res.cap
    ensures r.cap == res.cap
    ensures r.data == res.data + Concat(pages)
    ensures Fits(r)
    decreases |pages|
  {
    if |pages| == 0 then res
    else
      var next := Page(res.data + pages[0], res.cap);
      var r := AppendPages(next, pages[1..]);
      assert r.data == res.data + (pages[0] + Concat(pages[1..]));
      r
  }

  /** `build(dst)`: if `dst` has at least `len()` spare capacity the contents
      are appended to it, keeping its bytes and capacity; otherwise they go
      into a fresh slice of capacity exactly `len()`, and the bytes of `dst`
      are not part of the result. */
  function Build(b: Buffer, dst: Page): (r: Page)
    requires Valid(b) && Fits(dst)
    ensures dst.cap - |dst.data| >= Len(b) ==> r.data == dst.data + Contents(b) && r.cap == dst.cap
    ensures dst.cap - |dst.data| < Len(b) ==> r.data == Contents(b) && r.cap == Len(b)
    ensures |r.data| == (if dst.cap - |dst.data| >= Len(b) then |dst.data| else 0) + Len(b)
    ensures Fits(r)
  {
    var size := b.bytes + |b.page.data|;
    var res := if dst.cap - |dst.data| >= size then dst else Page([], size);
    ConcatSnoc(Datas(b.store), b.page.data);
    assert Datas(b.store) + [b.page.data] == Datas(b.store + [b.page]);
    AppendPages(res, Datas(b.store) + [b.page.data])
  }

  /** Retires each of `pages` in turn, as repeated `add` calls do. */
  function AddAll(b: Buffer, pages: seq<Page>): Buffer
    decreases |pages|
  {
    if |pages| == 0 then b else AddAll(Add(b, pages[0]), pages[1..])
  }

  /** After any sequence of `add` calls the buffer is still valid, its length
      is the sum of the retired pages' lengths plus the current page's, and
      its contents are the old contents followed by every added page. */
  lemma {:induction false} AddAllContents(b: Buffer, pages: seq<Page>)
    requires Valid(b)
    ensures Valid(AddAll(b, pages))
    ensures Len(AddAll(b, pages)) == TotalLen(Datas(AddAll(b, pages).store)) + |AddAll(b, pages).page.data|
    ensures Contents(AddAll(b, pages)) == Contents(b) + Concat(Datas(pages))
    decreases |pages|
  {
    if |pages| > 0 {
      AddAllContents(Add(b, pages[0]), pages[1..]);
      assert Datas(pages)[1..] == Datas(pages[1..]);
    }
  }

  /** Building into no slice (`build(nil)`) yields exactly the contents. */
  lemma BuildNil(b: Buffer)
    requires Valid(b)
    ensures Build(b, Page([], 0)).data == Contents(b)
  {
  }
}
