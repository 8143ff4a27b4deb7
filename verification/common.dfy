/** Shared vocabulary of the model: bytes and byte strings, Go slices seen as
    pages with a capacity, optional values, results, and the error values the
    library produces. */
module Common {

  /** A Go `byte`. */
  type byte = b: int | 0 <= b < 256

  /** A Go `string` or `[]byte`, seen as its sequence of bytes. */
  type Bytes = seq<byte>

  /** A Go slice: its contents (`len` bytes) and its capacity. */
  datatype Page = Page(data: Bytes, cap: nat)

  /** A slice never holds more bytes than its capacity. */
  predicate Fits(p: Page) {
    |p.data| <= p.cap
  }

  datatype Option<+T> = None | Some(value: T)

  datatype Result<+T> = Ok(value: T) | Err(error: Error)

  /** The error values of the library, and opaque errors coming from code the
      model does not see (a marshaler, the HTTP transport, request construction). */
  datatype Error =
    | IllegalFormat          // "illegal character/Invalid format in url"
    | NotEnoughParameters    // "not enough parameters provided"
    | TooManyParameters      // "too many parameters provided"
    | InvalidFormat          // ErrInvalidFormat, "invalid endpoint format"
    | InvalidBodyType        // ErrInvalidBodyType, "invalid body type"
    | InvalidMiddlewareStage // "invalid middleware stage"
    | StatusFailed(code: int) // "request failed with status code N"
    | Foreign(id: nat)       // an error produced by a collaborator

  /** A Go `any` value stored in a request's value store or used as a body;
      `Nil` is Go's untyped nil. */
  datatype Any = Nil | Value(id: nat)

  // ASCII bytes the library treats specially.
  const OpenBrace: byte := 123   // '{'
  const CloseBrace: byte := 125  // '}'
  const Percent: byte := 37      // '%'
  const Question: byte := 63     // '?'
  const Ampersand: byte := 38    // '&'
  const Equals: byte := 61       // '='

  /** The bytes of an ASCII/Latin-1 Dafny string, for writing examples. */
  function Ascii(s: string): (r: Bytes)
    requires forall i :: 0 <= i < |s| ==> s[i] as int < 256
    ensures |r| == |s|
    ensures forall i :: 0 <= i < |s| ==> r[i] == s[i] as int
  {
    seq(|s|, i requires 0 <= i < |s| => s[i] as int)
  }

  /** The pages' contents, one after another. */
  function Concat(pages: seq<Bytes>): Bytes
  {
    if |pages| == 0 then [] else pages[0] + Concat(pages[1..])
  }

  /** Sum of the pages' lengths. */
  function TotalLen(pages: seq<Bytes>): nat
  {
    if |pages| == 0 then 0 else |pages[0]| + TotalLen(pages[1..])
  }

  /** Concatenating one more page at the end extends the concatenation by
      exactly that page, and the total length by its length. */
  lemma {:induction false} ConcatSnoc(pages: seq<Bytes>, p: Bytes)
    ensures Concat(pages + [p]) == Concat(pages) + p
    ensures TotalLen(pages + [p]) == TotalLen(pages) + |p|
  {
    if |pages| == 0 {
      assert pages + [p] == [p];
    } else {
      assert (pages + [p])[1..] == pages[1..] + [p];
      ConcatSnoc(pages[1..], p);
    }
  }

  /** The total length is the length of the concatenation. */
  lemma {:induction false} ConcatLength(pages: seq<Bytes>)
    ensures |Concat(pages)| == TotalLen(pages)
  {
    if |pages| > 0 {
      ConcatLength(pages[1..]);
    }
  }

  /** Concatenation regrouped; the solver only knows it element by element. */
  lemma Assoc<T>(a: seq<T>, b: seq<T>, c: seq<T>)
    ensures a + b + c == a + (b + c)
  {
  }

  /** Appending a slice and then the rest of the sequence after it is
      appending the whole suffix. */
  lemma SplitAppend<T>(t: seq<T>, s: seq<T>, i: nat, j: nat)
    requires i <= j <= |s|
    ensures t + s[i..j] + s[j..] == t + s[i..]
  {
    assert s[i..] == s[i..j] + s[j..];
  }

  function Min(a: int, b: int): int {
    if a <= b then a else b
  }
}
