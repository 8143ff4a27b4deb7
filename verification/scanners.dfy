/** The two endpoint scanners side by side: `fmtEndpoint` of the client's
    request chain and the one inside `RequestBuilder.Build`. They accept the
    same templates except for a stray `}`, which only the builder rejects, and
    where both accept they produce the same endpoint. */
module Scanners {
  import opened Common
  import MemPool
  import opened Template
  import opened Writer
  import opened EndpointFormat
  import Builder

  /** On templates without a stray `}`, both scanners accept exactly the
      same inputs and build the same endpoint, the builder being given the
      parameters already escaped and the client no query. */
  lemma ScannersAgree(pool: MemPool.Pool, f: Bytes, ps: seq<Bytes>)
    requires Feeds(pool) && NoStrayClose(f) && Builder.CapacityHint(f, EscapeAll(ps)) >= 0
    ensures Builder.BuildEndpoint(f, EscapeAll(ps)).Ok? <==> FmtEndpoint(pool, f, [], ps).0.Ok?
    ensures Builder.BuildEndpoint(f, EscapeAll(ps)).Ok? ==>
      Builder.BuildEndpoint(f, EscapeAll(ps)).value == FmtEndpoint(pool, f, [], ps).0.value
  {
    assert QueryPart([]) == [];
  }

  /** A lone `}` is template text to `fmtEndpoint` and an error to the
      builder. */
  lemma StrayCloseDiffers(pool: MemPool.Pool, f: Bytes)
    requires Feeds(pool) && f == [CloseBrace]
    ensures FmtEndpoint(pool, f, [], []).0 == Result.Ok(f)
    ensures Builder.BuildEndpoint(f, []) == Err(InvalidFormat)
  {
    assert !NoStrayClose(f) by {
      assert f[0] == CloseBrace;
    }
    assert Placeheld(f) && CountOpen(f) == 0 by {
      assert f[1..] == [];
    }
    assert Subst(f, []) == f by {
      assert f[1..] == [];
    }
    assert QueryPart([]) == [];
    assert Builder.CapacityHint(f, []) == 1;
  }
}
