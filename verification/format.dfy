/** `Request.fmtEndpoint`: fills the `{}` placeholders of an endpoint
    template with percent-escaped path parameters and appends the escaped
    query parameters, writing through a pooled writer that is released on
    every exit path. */
module EndpointFormat {
  import opened Common
  import opened Escape
  import opened Template
  import MemPool
  import opened Writer
  import Buffer

  /** State of the template scan when it leaves the loop: the writer, the
      start of the not yet copied text and the number of parameters used; or
      the error it stopped with, and the writer to release. */
  datatype Scan = Scanned(w: Writer, lst: nat, idx: nat) | Failed(w: Writer, err: Error)

  /** Substituting from a `{}`: the first value, then the rest. */
  lemma PlaceholderText(f: Bytes, ps: seq<Bytes>, cur: nat, idx: nat, j: nat)
    requires cur + 1 < |f| && f[cur] == OpenBrace && f[cur + 1] == CloseBrace && idx < j <= |ps|
    requires Placeheld(f[cur + 2..]) && CountOpen(f[cur + 2..]) == j - idx - 1
    ensures Placeheld(f[cur..]) && CountOpen(f[cur..]) == j - idx
    ensures Subst(f[cur..], EscapeAll(ps[idx..j])) == Escaped(ps[idx]) + Subst(f[cur + 2..], EscapeAll(ps[idx + 1..j]))
  {
    var g := f[cur..];
    PlaceholderStep(g, 0);
    assert g[2..] == f[cur + 2..];
    assert EscapeAll(ps[idx..j])[1..] == EscapeAll(ps[idx + 1..j]);
  }

  /** Substituting from a byte other than `{`: that byte, then the rest. */
  lemma LiteralText(f: Bytes, vals: seq<Bytes>, cur: nat)
    requires cur < |f| && f[cur] != OpenBrace
    requires Placeheld(f[cur + 1..]) && CountOpen(f[cur + 1..]) == |vals|
    ensures Placeheld(f[cur..]) && CountOpen(f[cur..]) == |vals|
    ensures Subst(f[cur..], vals) == [f[cur]] + Subst(f[cur + 1..], vals)
  {
    var g := f[cur..];
    LiteralStep(g, 0);
    assert g[1..] == f[cur + 1..];
  }

  /** What the scan from `cur` promises, for a writer that held `t`. */
  ghost predicate ScanFrom(t: Bytes, f: Bytes, ps: seq<Bytes>, lst: nat, cur: nat, idx: nat, r: Scan)
    requires lst <= cur <= |f| && idx <= |ps|
  {
    && ((r.Failed? && r.err == IllegalFormat) <==> IllegalWithin(f[cur..], |ps| - idx))
    && ((r.Failed? && r.err == NotEnoughParameters) <==>
          !IllegalWithin(f[cur..], |ps| - idx) && CountOpen(f[cur..]) > |ps| - idx)
    && (r.Scanned? ==>
          && Placeheld(f[cur..])
          && r.idx == idx + CountOpen(f[cur..]) <= |ps|
          && r.lst <= |f|
          && Text(r.w) + f[r.lst..] == t + f[lst..cur] + Subst(f[cur..], EscapeAll(ps[idx..r.idx])))
  }

  /** The scan past a placeholder, whose parameter was written escaped after
      the pending text, seen from its `{`. */
  lemma PlaceholderScanned(t: Bytes, t2: Bytes, f: Bytes, ps: seq<Bytes>, lst: nat, cur: nat, idx: nat, r: Scan)
    requires lst <= cur && cur + 1 < |f| && f[cur] == OpenBrace && f[cur + 1] == CloseBrace && idx < |ps|
    requires t2 == t + f[lst..cur] + Escaped(ps[idx])
    requires ScanFrom(t2, f, ps, cur + 2, cur + 2, idx + 1, r)
    ensures ScanFrom(t, f, ps, lst, cur, idx, r)
  {
    var g := f[cur..];
    PlaceholderStep(g, |ps| - idx);
    assert g[2..] == f[cur + 2..];
    if r.Scanned? {
      var rest := Subst(f[cur + 2..], EscapeAll(ps[idx + 1..r.idx]));
      PlaceholderText(f, ps, cur, idx, r.idx);
      assert t2 + f[cur + 2..cur + 2] == t2;
      Assoc(t + f[lst..cur], Escaped(ps[idx]), rest);
    }
  }

  /** The scan past a byte other than `{`, which stays in the pending text. */
  lemma LiteralScanned(t: Bytes, f: Bytes, ps: seq<Bytes>, lst: nat, cur: nat, idx: nat, r: Scan)
    requires lst <= cur < |f| && f[cur] != OpenBrace && idx <= |ps|
    requires ScanFrom(t, f, ps, lst, cur + 1, idx, r)
    ensures ScanFrom(t, f, ps, lst, cur, idx, r)
  {
    var g := f[cur..];
    LiteralStep(g, |ps| - idx);
    assert g[1..] == f[cur + 1..];
    if r.Scanned? {
      var rest := Subst(f[cur + 1..], EscapeAll(ps[idx..r.idx]));
      LiteralText(f, EscapeAll(ps[idx..r.idx]), cur);
      assert f[lst..cur + 1] == f[lst..cur] + [f[cur]];
      Assoc(t, f[lst..cur], [f[cur]]);
      Assoc(t + f[lst..cur], [f[cur]], rest);
    }
  }

  /** The scanning loop, from position `cur` with `idx` parameters used and
      template text from `lst` not yet copied. A `{` must be immediately
      followed by `}` (checked first) and needs an unused parameter; any
      other byte, a lone `}` included, is copied later as template text. */
  function ScanLoop(w: Writer, f: Bytes, ps: seq<Bytes>, lst: nat, cur: nat, idx: nat): (r: Scan)
    requires Sound(w) && lst <= cur <= |f| && idx <= |ps|
    ensures Sound(r.w) && SameConfig(w, r.w) && Accounted(r.w) >= Accounted(w)
    ensures r.Failed? ==> r.err == IllegalFormat || r.err == NotEnoughParameters
    ensures (r.Failed? && r.err == IllegalFormat) <==> IllegalWithin(f[cur..], |ps| - idx)
    ensures (r.Failed? && r.err == NotEnoughParameters) <==>
      !IllegalWithin(f[cur..], |ps| - idx) && CountOpen(f[cur..]) > |ps| - idx
    ensures r.Scanned? ==>
      && Placeheld(f[cur..])
      && r.idx == idx + CountOpen(f[cur..]) <= |ps|
      && r.lst <= |f|
      && Text(r.w) + f[r.lst..] == Text(w) + f[lst..cur] + Subst(f[cur..], EscapeAll(ps[idx..r.idx]))
    decreases |f| - cur
  {
    var g := f[cur..];
    if cur < |f| then
      if f[cur] == OpenBrace then
        if cur + 1 == |f| || f[cur + 1] != CloseBrace then
          assert BadOpen(g, 0) && g[..0] == [];
          Failed(w, IllegalFormat)
        else if idx >= |ps| then
          PlaceholderStep(g, 0);
          Failed(w, NotEnoughParameters)
        else
          var w1 := WriteString(w, f[lst..cur]);
          var w2 := WriteEscaped(w1, ps[idx]);
          var r := ScanLoop(w2, f, ps, cur + 2, cur + 2, idx + 1);
          PlaceholderScanned(Text(w), Text(w2), f, ps, lst, cur, idx, r);
          r
      else
        var r := ScanLoop(w, f, ps, lst, cur + 1, idx);
        LiteralScanned(Text(w), f, ps, lst, cur, idx, r);
        r
    else
      assert g == [];
      Scanned(w, lst, idx)
  }

  /** The whole scan of `fmtEndpoint`, from the first byte of the template
      with no parameter used, on a writer that holds nothing yet. */
  function ScanAll(w: Writer, f: Bytes, ps: seq<Bytes>): (r: Scan)
    requires Sound(w) && Text(w) == []
    ensures Sound(r.w) && SameConfig(w, r.w) && Accounted(r.w) >= Accounted(w)
    ensures r.Failed? ==> r.err == IllegalFormat || r.err == NotEnoughParameters
    ensures (r.Failed? && r.err == IllegalFormat) <==> IllegalWithin(f, |ps|)
    ensures (r.Failed? && r.err == NotEnoughParameters) <==> !IllegalWithin(f, |ps|) && CountOpen(f) > |ps|
    ensures r.Scanned? ==> Placeheld(f) && r.idx == CountOpen(f) <= |ps| && r.lst <= |f|
    ensures r.Scanned? && r.idx == |ps| ==> Text(r.w) + f[r.lst..] == Subst(f, EscapeAll(ps))
  {
    var r := ScanLoop(w, f, ps, 0, 0, 0);
    assert f[0..] == f && ps[0..] == ps;
    assert Text(w) + f[0..0] == [];
    assert r.Scanned? && r.idx == |ps| ==> ps[0..r.idx] == ps;
    r
  }

  /** The separator before a pair: nothing before the first pair, `&`
      before every other. */
  function WriteSep(w: Writer, first: bool): (r: Writer)
    requires Sound(w)
    ensures Sound(r) && SameConfig(w, r) && Accounted(r) >= Accounted(w)
    ensures Text(r) == Text(w) + (if first then [] else [Ampersand])
  {
    if first then w else WriteByte(w, Ampersand)
  }

  /** One pair: the escaped key, `=`, the escaped value. */
  function WritePair(w: Writer, k: Bytes, v: Bytes): (r: Writer)
    requires Sound(w)
    ensures Sound(r) && SameConfig(w, r) && Accounted(r) >= Accounted(w)
    ensures Text(r) == Text(w) + PairText((k, v))
  {
    var w1 := WriteEscaped(w, k);
    var w2 := WriteByte(w1, Equals);
    var r := WriteEscaped(w2, v);
    Assoc(Text(w), Escaped(k), [Equals]);
    Assoc(Text(w), Escaped(k) + [Equals], Escaped(v));
    r
  }

  /** The inner query loop: each value of one key as `key=value`, with `&`
      before every pair but the very first of the query. */
  function WriteValues(w: Writer, k: Bytes, vs: seq<Bytes>, first: bool): (r: (Writer, bool))
    requires Sound(w)
    ensures Sound(r.0) && SameConfig(w, r.0) && Accounted(r.0) >= Accounted(w)
    ensures Text(r.0) == Text(w) + QueryText(ValuePairs(k, vs), first)
    ensures r.1 == (first && |vs| == 0)
    decreases |vs|
  {
    if |vs| == 0 then (w, first)
    else
      var sep: Bytes := if first then [] else [Ampersand];
      var w2 := WritePair(WriteSep(w, first), k, vs[0]);
      var r := WriteValues(w2, k, vs[1..], false);
      var pairs := ValuePairs(k, vs);
      assert pairs[1..] == ValuePairs(k, vs[1..]);
      var rest := QueryText(pairs[1..], false);
      assert QueryText(pairs, first) == sep + PairText((k, vs[0])) + rest;
      Assoc(Text(w), sep, PairText((k, vs[0])));
      Assoc(Text(w), sep + PairText((k, vs[0])), rest);
      r
  }

  /** The outer query loop, key by key. */
  function WriteEntries(w: Writer, q: QueryList, first: bool): (r: (Writer, bool))
    requires Sound(w)
    ensures Sound(r.0) && SameConfig(w, r.0) && Accounted(r.0) >= Accounted(w)
    ensures Text(r.0) == Text(w) + QueryText(QueryPairs(q), first)
    ensures r.1 == (first && |QueryPairs(q)| == 0)
    decreases |q|
  {
    if |q| == 0 then (w, first)
    else
      var head := ValuePairs(q[0].0, q[0].1);
      var a := WriteValues(w, q[0].0, q[0].1, first);
      var r := WriteEntries(a.0, q[1..], a.1);
      QueryTextAppend(head, QueryPairs(q[1..]), first);
      Assoc(Text(w), QueryText(head, first), QueryText(QueryPairs(q[1..]), a.1));
      r
  }

  /** The query suffix written after the path: `?` and the pairs, if the map
      has any key. */
  function WriteQuery(w: Writer, q: QueryList): (r: Writer)
    requires Sound(w)
    ensures Sound(r) && SameConfig(w, r) && Accounted(r) >= Accounted(w)
    ensures Text(r) == Text(w) + QueryPart(q)
  {
    if |q| > 0 then
      var w1 := WriteByte(w, Question);
      var r := WriteEntries(w1, q, true).0;
      Assoc(Text(w), [Question], QueryText(QueryPairs(q), true));
      r
    else w
  }

  /** What follows the scan: the template text after the last placeholder
      (written only if there is any), then the query suffix. */
  function WriteTail(w: Writer, f: Bytes, lst: nat, q: QueryList): (r: Writer)
    requires Sound(w) && lst <= |f|
    ensures Sound(r) && SameConfig(w, r) && Accounted(r) >= Accounted(w)
    ensures Text(r) == Text(w) + f[lst..] + QueryPart(q)
  {
    var w1 := if lst < |f| then WriteString(w, f[lst..]) else w;
    assert Text(w1) == Text(w) + f[lst..];
    WriteQuery(w1, q)
  }

  /** After a complete scan: the rest of the template and the query are
      written, the buffer is built, and the writer is released. */
  function Finish(w: Writer, f: Bytes, lst: nat, q: QueryList): (r: (Bytes, MemPool.Pool))
    requires Sound(w) && lst <= |f|
    ensures r.0 == Text(w) + f[lst..] + QueryPart(q)
    ensures Feeds(r.1) && r.1.pageSize == w.mem.pageSize && r.1.bound == w.mem.bound
    ensures |r.1.free| >= Min(w.mem.bound, Accounted(w))
  {
    var w2 := WriteTail(w, f, lst, q);
    var out := Buffer.Build(w2.buf, Page([], 0));
    assert out.data == Text(w2);
    (out.data, Release(w2))
  }

  /** The end of `fmtEndpoint` once the scan has stopped: the scan's error,
      or TooManyParameters if parameters are left over, or the rest of the
      template and the query written and the buffer built; in every case the
      writer is released. */
  function Conclude(s: Scan, f: Bytes, q: QueryList, ps: seq<Bytes>): (r: (Result<Bytes>, MemPool.Pool))
    requires Sound(s.w)
    requires s.Scanned? ==> s.lst <= |f| && s.idx <= |ps|
    requires s.Scanned? && s.idx == |ps| ==>
      Placeheld(f) && CountOpen(f) == |ps| && Text(s.w) + f[s.lst..] == Subst(f, EscapeAll(ps))
    ensures Feeds(r.1) && r.1.pageSize == s.w.mem.pageSize && r.1.bound == s.w.mem.bound
    ensures |r.1.free| >= Min(s.w.mem.bound, Accounted(s.w))
    ensures s.Failed? ==> r.0 == Err(s.err)
    ensures s.Scanned? && s.idx != |ps| ==> r.0 == Err(TooManyParameters)
    ensures s.Scanned? && s.idx == |ps| ==> r.0 == Result.Ok(Subst(f, EscapeAll(ps)) + QueryPart(q))
  {
    match s
    case Failed(w, e) => (Err(e), Release(w))
    case Scanned(w, lst, idx) =>
      if idx != |ps| then (Err(TooManyParameters), Release(w))
      else
        var fin := Finish(w, f, lst, q);
        (Result.Ok(fin.0), fin.1)
  }

  /** `fmtEndpoint(format, queryPrm, pathPrm)`, returning the endpoint or the
      first error together with the pool after the writer's release.
      - a `{` that is malformed and reached with at most |ps| placeholders
        before it gives IllegalFormat;
      - otherwise more placeholders than parameters gives NotEnoughParameters,
        fewer gives TooManyParameters;
      - it succeeds exactly for a well-formed template with as many
        placeholders as parameters, and yields the template with the escaped
        parameters substituted, followed by the query part;
      - releasing the writer never leaves the pool with fewer pages than
        before, and leaves at least one page in a pool that has room. */
  function FmtEndpoint(pool: MemPool.Pool, f: Bytes, q: QueryList, ps: seq<Bytes>): (r: (Result<Bytes>, MemPool.Pool))
    requires Feeds(pool)
    ensures Feeds(r.1) && r.1.pageSize == pool.pageSize && r.1.bound == pool.bound
    ensures |r.1.free| >= |pool.free| && (pool.bound > 0 ==> |r.1.free| > 0)
    ensures r.0 == Err(IllegalFormat) <==> IllegalWithin(f, |ps|)
    ensures r.0 == Err(NotEnoughParameters) <==> !IllegalWithin(f, |ps|) && CountOpen(f) > |ps|
    ensures r.0 == Err(TooManyParameters) <==> !IllegalWithin(f, |ps|) && CountOpen(f) < |ps|
    ensures r.0.Ok? <==> Placeheld(f) && CountOpen(f) == |ps|
    ensures r.0.Ok? ==> r.0.value == Subst(f, EscapeAll(ps)) + QueryPart(q)
  {
    var w0 := NewWriter(pool);
    var s := ScanAll(w0, f, ps);
    Conclude(s, f, q, ps)
  }

  /** The template and parameter of the library's own example: one
      placeholder at the end, and a parameter that needs escaping. */
  lemma PathExample(f: Bytes, p: Bytes)
    requires f == [104, 47, OpenBrace, CloseBrace]  // "h/{}"
    requires p == [97, 32, 98]                       // "a b"
    ensures Placeheld(f) && CountOpen(f) == 1
    ensures Subst(f, EscapeAll([p])) == [104, 47, 97, Percent, 50, 48, 98]  // "h/a%20b"
  {
    var g: Bytes := [OpenBrace, CloseBrace];
    assert f[1..] == [47] + g && f[1..][1..] == g && g[1..] == [CloseBrace] && g[1..][1..] == [] && g[2..] == [];
    assert CountOpen(g[1..]) == 0;
    assert CountOpen(g) == 1;
    assert CountOpen(f[1..]) == 1;
    assert CountOpen(f) == 1;
    assert Placeheld(f);
    assert p == [97] + [32] + [98];
    EscapedAppend([97] + [32], [98]);
    EscapedAppend([97], [32]);
    assert Escaped(p) == [97, 37, 50, 48, 98];
    var vals := EscapeAll([p]);
    assert vals == [Escaped(p)] && vals[1..] == [];
    assert Subst(g, vals) == Escaped(p);
    assert Subst(f, vals) == [104, 47] + Escaped(p);
  }

  /** The library's own example, end to end: `h/{}` with the parameter
      `a b` and no query gives `h/a%20b`. */
  lemma FmtEndpointExample(pool: MemPool.Pool, f: Bytes, p: Bytes)
    requires Feeds(pool)
    requires f == [104, 47, OpenBrace, CloseBrace]  // "h/{}"
    requires p == [97, 32, 98]                       // "a b"
    ensures FmtEndpoint(pool, f, [], [p]).0 == Result.Ok([104, 47, 97, Percent, 50, 48, 98])  // "h/a%20b"
  {
    PathExample(f, p);
    assert QueryPart([]) == [];
  }
}
