/** Reference definitions for endpoint templates and query strings, stated
    independently of the scanners that build endpoints. A template uses `{}`
    as its only placeholder. */
module Template {
  import opened Common
  import opened Escape

  /** Number of `{` bytes in the template. */
  function CountOpen(f: Bytes): nat
    decreases |f|
  {
    if |f| == 0 then 0 else (if f[0] == OpenBrace then 1 else 0) + CountOpen(f[1..])
  }

  /** Position `i` holds a `{` that is not immediately followed by `}`. */
  predicate BadOpen(f: Bytes, i: int)
    requires 0 <= i < |f|
  {
    f[i] == OpenBrace && (i + 1 == |f| || f[i + 1] != CloseBrace)
  }

  /** Every `{` is immediately followed by `}`. */
  predicate Placeheld(f: Bytes) {
    forall i :: 0 <= i < |f| ==> !BadOpen(f, i)
  }

  /** Every `}` closes a `{` immediately before it. */
  predicate NoStrayClose(f: Bytes) {
    forall i :: 0 <= i < |f| && f[i] == CloseBrace ==> i > 0 && f[i - 1] == OpenBrace
  }

  /** Some malformed `{` is reached while at most `n` placeholders precede it. */
  ghost predicate IllegalWithin(f: Bytes, n: nat) {
    exists i :: 0 <= i < |f| && BadOpen(f, i) && CountOpen(f[..i]) <= n
  }

  /** The template with its `{}` placeholders replaced, left to right, by
      `vals`; every other byte is kept. */
  function Subst(f: Bytes, vals: seq<Bytes>): Bytes
    requires Placeheld(f) && CountOpen(f) == |vals|
    decreases |f|
  {
    if |f| == 0 then []
    else if f[0] == OpenBrace then
      PlaceholderStep(f, 0);
      vals[0] + Subst(f[2..], vals[1..])
    else
      LiteralStep(f, 0);
      [f[0]] + Subst(f[1..], vals)
  }

  /** Counting the `{` of a prefix one byte at a time. */
  lemma CountOpenPrefix(g: Bytes, i: nat)
    requires 0 < i <= |g|
    ensures CountOpen(g[..i]) == (if g[0] == OpenBrace then 1 else 0) + CountOpen(g[1..][..i - 1])
  {
    assert g[..i][1..] == g[1..][..i - 1];
  }

  /** Past a byte other than `{`, nothing about the template changes. */
  lemma {:induction false} LiteralStep(g: Bytes, n: nat)
    requires |g| > 0 && g[0] != OpenBrace
    ensures CountOpen(g) == CountOpen(g[1..])
    ensures Placeheld(g) <==> Placeheld(g[1..])
    ensures IllegalWithin(g, n) <==> IllegalWithin(g[1..], n)
  {
    var t := g[1..];
    assert forall i :: 1 <= i < |g| ==> (BadOpen(g, i) <==> BadOpen(t, i - 1));
    if Placeheld(t) {
      forall i | 0 <= i < |g|
        ensures !BadOpen(g, i)
      {
        if i >= 1 {
          assert !BadOpen(t, i - 1);
        }
      }
    }
    if Placeheld(g) {
      forall j | 0 <= j < |t|
        ensures !BadOpen(t, j)
      {
        assert !BadOpen(g, j + 1);
      }
    }
    if IllegalWithin(g, n) {
      var i :| 0 <= i < |g| && BadOpen(g, i) && CountOpen(g[..i]) <= n;
      CountOpenPrefix(g, i);
      assert BadOpen(t, i - 1) && CountOpen(t[..i - 1]) <= n;
    }
    if IllegalWithin(t, n) {
      var j :| 0 <= j < |t| && BadOpen(t, j) && CountOpen(t[..j]) <= n;
      CountOpenPrefix(g, j + 1);
      assert BadOpen(g, j + 1) && CountOpen(g[..j + 1]) <= n;
    }
  }

  /** Past a well-formed `{}`, one placeholder fewer remains, and one
      parameter fewer is available. */
  lemma {:induction false} PlaceholderStep(g: Bytes, n: nat)
    requires |g| > 0 && g[0] == OpenBrace && !BadOpen(g, 0)
    ensures |g| >= 2 && g[1] == CloseBrace
    ensures CountOpen(g) == CountOpen(g[2..]) + 1
    ensures Placeheld(g) <==> Placeheld(g[2..])
    ensures n > 0 ==> (IllegalWithin(g, n) <==> IllegalWithin(g[2..], n - 1))
    ensures !IllegalWithin(g, 0)
  {
    var t := g[2..];
    assert g[1..][1..] == t;
    assert forall i :: 2 <= i < |g| ==> (BadOpen(g, i) <==> BadOpen(t, i - 2));
    if Placeheld(t) {
      forall i | 0 <= i < |g|
        ensures !BadOpen(g, i)
      {
        if i >= 2 {
          assert !BadOpen(t, i - 2);
        }
      }
    }
    if Placeheld(g) {
      forall j | 0 <= j < |t|
        ensures !BadOpen(t, j)
      {
        assert !BadOpen(g, j + 2);
      }
    }
    forall i | 2 <= i <= |g|
      ensures CountOpen(g[..i]) == 1 + CountOpen(t[..i - 2])
    {
      CountOpenPrefix(g, i);
      CountOpenPrefix(g[1..], i - 1);
      assert g[1..][1..][..i - 2] == t[..i - 2];
    }
    if IllegalWithin(g, n) {
      var i :| 0 <= i < |g| && BadOpen(g, i) && CountOpen(g[..i]) <= n;
      assert i >= 2;
      if n > 0 {
        assert BadOpen(t, i - 2) && CountOpen(t[..i - 2]) <= n - 1;
      }
    }
    if n > 0 && IllegalWithin(t, n - 1) {
      var j :| 0 <= j < |t| && BadOpen(t, j) && CountOpen(t[..j]) <= n - 1;
      assert BadOpen(g, j + 2) && CountOpen(g[..j + 2]) <= n;
    }
  }

  /** A template whose every `{` is followed by `}` spends two bytes on each
      placeholder. */
  lemma {:induction false} PlaceheldLength(f: Bytes)
    requires Placeheld(f)
    ensures |f| >= 2 * CountOpen(f)
    decreases |f|
  {
    if |f| > 0 {
      if f[0] == OpenBrace {
        PlaceholderStep(f, 0);
        PlaceheldLength(f[2..]);
      } else {
        LiteralStep(f, 0);
        PlaceheldLength(f[1..]);
      }
    }
  }

  /** Every `{` is immediately followed by `}` and every `}` immediately
      follows a `{`: the templates the request builder accepts. */
  predicate WellFormed(f: Bytes) {
    Placeheld(f) && NoStrayClose(f)
  }

  /** Past a byte that is neither brace, stray closing braces are neither
      gained nor lost. */
  lemma CloseLiteralStep(g: Bytes)
    requires |g| > 0 && g[0] != OpenBrace && g[0] != CloseBrace
    ensures NoStrayClose(g) <==> NoStrayClose(g[1..])
  {
    var t := g[1..];
    if NoStrayClose(t) {
      forall i | 0 <= i < |g| && g[i] == CloseBrace
        ensures i > 0 && g[i - 1] == OpenBrace
      {
        assert t[i - 1] == CloseBrace;
      }
    }
    if NoStrayClose(g) {
      forall j | 0 <= j < |t| && t[j] == CloseBrace
        ensures j > 0 && t[j - 1] == OpenBrace
      {
        assert g[j + 1] == CloseBrace;
      }
    }
  }

  /** Past a well-formed `{}`, stray closing braces are neither gained nor
      lost. */
  lemma ClosePlaceholderStep(g: Bytes)
    requires |g| >= 2 && g[0] == OpenBrace && g[1] == CloseBrace
    ensures NoStrayClose(g) <==> NoStrayClose(g[2..])
  {
    var t := g[2..];
    if NoStrayClose(t) {
      forall i | 0 <= i < |g| && g[i] == CloseBrace
        ensures i > 0 && g[i - 1] == OpenBrace
      {
        if i >= 2 {
          assert t[i - 2] == CloseBrace;
          if i == 2 {
            assert false;
          }
        }
      }
    }
    if NoStrayClose(g) {
      forall j | 0 <= j < |t| && t[j] == CloseBrace
        ensures j > 0 && t[j - 1] == OpenBrace
      {
        assert g[j + 2] == CloseBrace;
      }
    }
  }

  /** Each parameter percent-escaped. */
  function EscapeAll(ps: seq<Bytes>): (r: seq<Bytes>)
    ensures |r| == |ps|
    ensures forall i :: 0 <= i < |ps| ==> r[i] == Escaped(ps[i])
  {
    seq(|ps|, i requires 0 <= i < |ps| => Escaped(ps[i]))
  }

  /** A query map seen as its keys with their value lists, in the order a
      map iteration happens to visit them. */
  type QueryList = seq<(Bytes, seq<Bytes>)>

  /** One key with each of its values, in order. */
  function ValuePairs(k: Bytes, vs: seq<Bytes>): (r: seq<(Bytes, Bytes)>)
    ensures |r| == |vs|
    ensures forall i :: 0 <= i < |vs| ==> r[i] == (k, vs[i])
  {
    seq(|vs|, i requires 0 <= i < |vs| => (k, vs[i]))
  }

  /** Every key/value pair of the query, key by key. */
  function QueryPairs(q: QueryList): seq<(Bytes, Bytes)>
    decreases |q|
  {
    if |q| == 0 then [] else ValuePairs(q[0].0, q[0].1) + QueryPairs(q[1..])
  }

  /** `key=value`, both escaped. */
  function PairText(p: (Bytes, Bytes)): Bytes {
    Escaped(p.0) + [Equals] + Escaped(p.1)
  }

  /** The pairs joined by `&`; `first` says no pair has been written yet, so
      that no `&` precedes the first one. */
  function QueryText(pairs: seq<(Bytes, Bytes)>, first: bool): Bytes
    decreases |pairs|
  {
    if |pairs| == 0 then []
    else (if first then [] else [Ampersand]) + PairText(pairs[0]) + QueryText(pairs[1..], false)
  }

  /** The query suffix: nothing for an empty map, otherwise `?` and the
      joined pairs. */
  function QueryPart(q: QueryList): Bytes {
    if |q| > 0 then [Question] + QueryText(QueryPairs(q), true) else []
  }

  /** Joining two runs of pairs. */
  lemma {:induction false} QueryTextAppend(a: seq<(Bytes, Bytes)>, b: seq<(Bytes, Bytes)>, first: bool)
    ensures QueryText(a + b, first) == QueryText(a, first) + QueryText(b, first && |a| == 0)
    decreases |a|
  {
    if |a| == 0 {
      assert a + b == b;
    } else {
      assert (a + b)[1..] == a[1..] + b;
      QueryTextAppend(a[1..], b, false);
    }
  }
}
