/** The request builder (`RequestBuilder`): accumulates a method, an
    endpoint template, a body with an optional marshaler, headers, query
    parameters and already-escaped path parameters, and turns them into a
    request. A nil Go map or slice reads exactly like an empty one, so both
    are the empty map or sequence here. */
module Builder {
  import opened Common
  import opened Template

  /** A Go `map[string][]string`. */
  type Multimap = map<Bytes, seq<Bytes>>

  /** The values of `k`, empty for a missing key as in Go. */
  function Values(m: Multimap, k: Bytes): seq<Bytes> {
    if k in m then m[k] else []
  }

  /** The `any` body of a builder: Go's nil; a `[]byte`, which may itself be
      a nil slice (`None`); or a value of some other type. */
  datatype Body = NilBody | ByteSlice(slice: Option<Bytes>) | OtherBody(v: Any)

  /** A marshaler, known by name; `marshal` below says what it does. */
  type MarshalerId = nat

  /** What a marshaler produces: the body bytes and headers to add. */
  datatype Marshaled = Marshaled(data: Bytes, headers: Multimap)

  /** A marshaler applied to a body: the encoders are code this model does not
      see, so they are a parameter. */
  type Marshal = (MarshalerId, Body) -> Result<Marshaled>

  datatype RequestBuilder = RequestBuilder(
    httpMethod: Bytes,
    format: Bytes,
    body: Body,
    marshaler: Option<MarshalerId>,
    headers: Multimap,
    queryPrms: Multimap,
    pathPrms: seq<Bytes>)

  /** `NewRequest(method, format)`: nothing else is set. */
  function NewRequest(httpMethod: Bytes, format: Bytes): (rb: RequestBuilder)
    ensures rb.httpMethod == httpMethod && rb.format == format
    ensures rb.body == NilBody && rb.marshaler == None
    ensures rb.headers == map[] && rb.queryPrms == map[] && rb.pathPrms == []
  {
    RequestBuilder(httpMethod, format, NilBody, None, map[], map[], [])
  }

  /** `WithRawBody(body)`: the bytes become the body and the marshaler is
      cleared; `None` is a nil slice. */
  function WithRawBody(rb: RequestBuilder, body: Option<Bytes>): (r: RequestBuilder)
    ensures r.body == ByteSlice(body) && r.marshaler == None
    ensures r.(body := rb.body, marshaler := rb.marshaler) == rb
  {
    rb.(body := ByteSlice(body), marshaler := None)
  }

  /** `WithBody(body, marshaler)`: both are replaced. */
  function WithBody(rb: RequestBuilder, body: Body, marshaler: Option<MarshalerId>): (r: RequestBuilder)
    ensures r.body == body && r.marshaler == marshaler
    ensures r.(body := rb.body, marshaler := rb.marshaler) == rb
  {
    rb.(body := body, marshaler := marshaler)
  }

  /** Appends values to one key of a multimap. */
  function AddValues(m: Multimap, k: Bytes, vs: seq<Bytes>): (r: Multimap)
    ensures r.Keys == m.Keys + {k}
    ensures Values(r, k) == Values(m, k) + vs
    ensures forall j :: j != k ==> Values(r, j) == Values(m, j)
  {
    m[k := Values(m, k) + vs]
  }

  /** `WithHeader(key, val)`: the value is appended to that key's values,
      despite the doc comment's "overwrite"; other keys are untouched. */
  function WithHeader(rb: RequestBuilder, key: Bytes, val: Bytes): (r: RequestBuilder)
    ensures Values(r.headers, key) == Values(rb.headers, key) + [val]
    ensures r.headers.Keys == rb.headers.Keys + {key}
    ensures forall j :: j != key ==> Values(r.headers, j) == Values(rb.headers, j)
    ensures r.(headers := rb.headers) == rb
  {
    rb.(headers := AddValues(rb.headers, key, [val]))
  }

  /** `WithQueryParameter(key, vals)`: appended the same way. */
  function WithQueryParameter(rb: RequestBuilder, key: Bytes, vals: seq<Bytes>): (r: RequestBuilder)
    ensures Values(r.queryPrms, key) == Values(rb.queryPrms, key) + vals
    ensures r.queryPrms.Keys == rb.queryPrms.Keys + {key}
    ensures forall j :: j != key ==> Values(r.queryPrms, j) == Values(rb.queryPrms, j)
    ensures r.(queryPrms := rb.queryPrms) == rb
  {
    rb.(queryPrms := AddValues(rb.queryPrms, key, vals))
  }

  /** Adding a header twice keeps both values, in order. */
  lemma HeadersAccumulate(rb: RequestBuilder, key: Bytes, v1: Bytes, v2: Bytes)
    ensures Values(WithHeader(WithHeader(rb, key, v1), key, v2).headers, key)
         == Values(rb.headers, key) + [v1, v2]
  {
    assert Values(rb.headers, key) + [v1] + [v2] == Values(rb.headers, key) + [v1, v2];
  }

  /** `WithPathParameters(params...)`: each parameter is escaped with
      `url.PathEscape` (a parameter here) and appended after the existing
      ones, in order. */
  function WithPathParameters(rb: RequestBuilder, params: seq<Bytes>, pathEscape: Bytes -> Bytes): (r: RequestBuilder)
    ensures |r.pathPrms| == |rb.pathPrms| + |params|
    ensures r.pathPrms[..|rb.pathPrms|] == rb.pathPrms
    ensures forall i :: 0 <= i < |params| ==> r.pathPrms[|rb.pathPrms| + i] == pathEscape(params[i])
    ensures r.(pathPrms := rb.pathPrms) == rb
  {
    var escaped := seq(|params|, i requires 0 <= i < |params| => pathEscape(params[i]));
    rb.(pathPrms := rb.pathPrms + escaped)
  }

  /** The capacity `Build` reserves for the endpoint:
      len(format) + the sum of len(param) - 2. */
  function CapacityHint(format: Bytes, ps: seq<Bytes>): int
    decreases |ps|
  {
    if |ps| == 0 then |format| else CapacityHint(format, ps[..|ps| - 1]) + |ps[|ps| - 1]| - 2
  }

  /** Each parameter lowers the hint by at most two. */
  lemma {:induction false} HintLowerBound(format: Bytes, ps: seq<Bytes>)
    ensures CapacityHint(format, ps) >= |format| - 2 * |ps|
    decreases |ps|
  {
    if |ps| > 0 {
      HintLowerBound(format, ps[..|ps| - 1]);
    }
  }

  /** A template that fits its parameters never gives a negative hint: only
      a mismatch can make `make` panic. */
  lemma FittingHint(format: Bytes, ps: seq<Bytes>)
    ensures WellFormed(format) && CountOpen(format) == |ps| ==> CapacityHint(format, ps) >= 0
  {
    if WellFormed(format) && CountOpen(format) == |ps| {
      PlaceheldLength(format);
      HintLowerBound(format, ps);
    }
  }

  /** An empty template with one empty parameter: the hint is -2, so `make`
      panics, although the template does not fit and `ErrInvalidFormat` is
      the answer the scan would give. */
  lemma EmptyTemplateHint()
    ensures CapacityHint([], [[]]) == -2
    ensures !(WellFormed([]) && CountOpen([]) == 1)
  {
    var ps: seq<Bytes> := [[]];
    assert ps[..0] == [];
  }

  /** Scanning past a placeholder `{}`: the template from there is well
      formed exactly when the rest is, holds one more placeholder, and
      substitutes the next parameter, then the rest. */
  lemma PlaceholderScan(f: Bytes, ps: seq<Bytes>, j: nat, pidx: nat)
    requires j + 1 < |f| && f[j] == OpenBrace && f[j + 1] == CloseBrace && pidx < |ps|
    ensures WellFormed(f[j..]) <==> WellFormed(f[j + 2..])
    ensures CountOpen(f[j..]) == CountOpen(f[j + 2..]) + 1
    ensures WellFormed(f[j + 2..]) && CountOpen(f[j + 2..]) == |ps| - pidx - 1 ==>
      Subst(f[j..], ps[pidx..]) == ps[pidx] + Subst(f[j + 2..], ps[pidx + 1..])
  {
    var g := f[j..];
    PlaceholderStep(g, |ps| - pidx);
    ClosePlaceholderStep(g);
    assert g[2..] == f[j + 2..];
    assert ps[pidx..][1..] == ps[pidx + 1..];
  }

  /** Scanning past a byte that is neither brace: nothing about the template
      changes, and it is copied ahead of the rest. */
  lemma LiteralScan(f: Bytes, ps: seq<Bytes>, j: nat, pidx: nat)
    requires j < |f| && f[j] != OpenBrace && f[j] != CloseBrace && pidx <= |ps|
    ensures WellFormed(f[j..]) <==> WellFormed(f[j + 1..])
    ensures CountOpen(f[j..]) == CountOpen(f[j + 1..])
    ensures WellFormed(f[j + 1..]) && CountOpen(f[j + 1..]) == |ps| - pidx ==>
      Subst(f[j..], ps[pidx..]) == [f[j]] + Subst(f[j + 1..], ps[pidx..])
  {
    var g := f[j..];
    LiteralStep(g, |ps| - pidx);
    CloseLiteralStep(g);
    assert g[1..] == f[j + 1..];
  }

  /** Copying a parameter: the text so far, the template text before the
      placeholder, the parameter, then the rest. */
  lemma CopyParam(endp: Bytes, text: Bytes, p: Bytes, none: Bytes, rest: Bytes)
    requires none == []
    ensures endp + text + p + none + rest == endp + text + (p + rest)
  {
    Assoc(endp + text, p, rest);
  }

  /** Copying one template byte: it joins the pending text ahead of the rest. */
  lemma CopyByte(endp: Bytes, f: Bytes, cursor: nat, i: nat, rest: Bytes)
    requires cursor <= i < |f|
    ensures endp + f[cursor..i + 1] + rest == endp + f[cursor..i] + ([f[i]] + rest)
  {
    assert f[cursor..i + 1] == f[cursor..i] + [f[i]];
    Assoc(endp, f[cursor..i], [f[i]]);
    Assoc(endp + f[cursor..i], [f[i]], rest);
  }

  /** The scan at the end of the template with every parameter used. */
  lemma FinishedScan(f: Bytes, ps: seq<Bytes>, cursor: nat, pidx: nat, endp: Bytes)
    requires cursor <= |f| && pidx == |ps|
    ensures WellFormed(f[|f|..]) && CountOpen(f[|f|..]) == |ps| - pidx
    ensures endp + f[cursor..] == endp + f[cursor..|f|] + Subst(f[|f|..], ps[pidx..])
  {
    assert f[|f|..] == [] && ps[pidx..] == [];
    assert f[cursor..] == f[cursor..|f|];
  }

  /** The scan after the `}` of a placeholder, seen from its `{`. */
  lemma ClosedScan(f: Bytes, ps: seq<Bytes>, i: nat, cursor: nat, pidx: nat, endp: Bytes, r: Result<Bytes>)
    requires 1 <= i < |f| && f[i - 1] == OpenBrace && f[i] == CloseBrace && pidx < |ps| && cursor <= i - 1
    requires r.Ok? <==> WellFormed(f[i + 1..]) && CountOpen(f[i + 1..]) == |ps| - (pidx + 1)
    requires r.Ok? ==> r.value == endp + f[cursor..i - 1] + ps[pidx] + f[i + 1..i + 1] + Subst(f[i + 1..], ps[pidx + 1..])
    ensures r.Ok? <==> WellFormed(f[i - 1..]) && CountOpen(f[i - 1..]) == |ps| - pidx
    ensures r.Ok? ==> r.value == endp + f[cursor..i - 1] + Subst(f[i - 1..], ps[pidx..])
  {
    PlaceholderScan(f, ps, i - 1, pidx);
    if r.Ok? {
      CopyParam(endp, f[cursor..i - 1], ps[pidx], f[i + 1..i + 1], Subst(f[i + 1..], ps[pidx + 1..]));
    }
  }

  /** The scan after a template byte that is neither brace, seen from that
      byte. */
  lemma CopiedScan(f: Bytes, ps: seq<Bytes>, i: nat, cursor: nat, pidx: nat, endp: Bytes, r: Result<Bytes>)
    requires cursor <= i < |f| && f[i] != OpenBrace && f[i] != CloseBrace && pidx <= |ps|
    requires r.Ok? <==> WellFormed(f[i + 1..]) && CountOpen(f[i + 1..]) == |ps| - pidx
    requires r.Ok? ==> r.value == endp + f[cursor..i + 1] + Subst(f[i + 1..], ps[pidx..])
    ensures r.Ok? <==> WellFormed(f[i..]) && CountOpen(f[i..]) == |ps| - pidx
    ensures r.Ok? ==> r.value == endp + f[cursor..i] + Subst(f[i..], ps[pidx..])
  {
    LiteralScan(f, ps, i, pidx);
    if r.Ok? {
      CopyByte(endp, f, cursor, i, Subst(f[i + 1..], ps[pidx..]));
    }
  }

  /** Where the scan gives up, the template from the current position is
      malformed or holds the wrong number of placeholders: an unclosed or
      misclosed `{`, a stray `}`, or a `{` with no parameter left. */
  lemma Rejected(f: Bytes, ps: seq<Bytes>, i: nat, open: bool, pidx: nat)
    requires i <= |f| && pidx <= |ps|
    requires open ==> 1 <= i && f[i - 1] == OpenBrace && pidx < |ps|
    requires i == |f| ==> open || pidx != |ps|
    requires i < |f| ==> (open && f[i] != CloseBrace) || (!open && f[i] == CloseBrace) || (f[i] == OpenBrace && pidx == |ps|)
    ensures var j := if open then i - 1 else i;
      !(WellFormed(f[j..]) && CountOpen(f[j..]) == |ps| - pidx)
  {
    var j := if open then i - 1 else i;
    var g := f[j..];
    if open {
      assert BadOpen(g, 0);
    } else if i < |f| && f[i] == CloseBrace {
      assert g[0] == CloseBrace && !NoStrayClose(g);
    } else if i < |f| {
      assert CountOpen(g) > 0;
    }
  }

  /** The endpoint scan of `Build`, at byte `i`. `open` says the byte before
      was a `{` still waiting for its `}`; `cursor` is the start of the
      template text not yet copied; `pidx` counts the parameters used. A `{`
      needs an unused parameter, must be followed at once by `}`, and a `}`
      must close a `{`; every failure is InvalidFormat. The parameters are
      copied as they are. */
  function ScanFormat(f: Bytes, ps: seq<Bytes>, i: nat, open: bool, cursor: nat, pidx: nat, endp: Bytes): (r: Result<Bytes>)
    requires i <= |f| && pidx <= |ps|
    requires open ==> 1 <= i && f[i - 1] == OpenBrace && pidx < |ps| && cursor <= i - 1
    requires !open ==> cursor <= i
    ensures r.Err? ==> r.error == InvalidFormat
    ensures var j := if open then i - 1 else i;
      && (r.Ok? <==> WellFormed(f[j..]) && CountOpen(f[j..]) == |ps| - pidx)
      && (r.Ok? ==> r.value == endp + f[cursor..j] + Subst(f[j..], ps[pidx..]))
    decreases |f| - i
  {
    if i == |f| then
      if open || pidx != |ps| then
        Rejected(f, ps, i, open, pidx);
        Err(InvalidFormat)
      else
        FinishedScan(f, ps, cursor, pidx, endp);
        Ok(endp + f[cursor..])
    else
      var ch := f[i];
      if (open && ch != CloseBrace) || (!open && ch == CloseBrace) then
        Rejected(f, ps, i, open, pidx);
        Err(InvalidFormat)
      else if ch == OpenBrace && pidx == |ps| then
        Rejected(f, ps, i, open, pidx);
        Err(InvalidFormat)
      else if ch == OpenBrace then
        ScanFormat(f, ps, i + 1, true, cursor, pidx, endp)
      else if ch == CloseBrace then
        var endp2 := endp + f[cursor..i - 1] + ps[pidx];
        var r := ScanFormat(f, ps, i + 1, false, i + 1, pidx + 1, endp2);
        ClosedScan(f, ps, i, cursor, pidx, endp, r);
        r
      else
        var r := ScanFormat(f, ps, i + 1, false, cursor, pidx, endp);
        CopiedScan(f, ps, i, cursor, pidx, endp, r);
        r
  }

  /** The endpoint part of `Build`: it succeeds exactly for a well-formed
      template with as many placeholders as parameters, and then yields the
      template with the parameters copied verbatim into the placeholders.
      A negative capacity hint makes Go's `make` panic, hence the
      precondition. */
  function BuildEndpoint(f: Bytes, ps: seq<Bytes>): (r: Result<Bytes>)
    requires CapacityHint(f, ps) >= 0
    ensures r.Err? ==> r.error == InvalidFormat
    ensures r.Ok? <==> WellFormed(f) && CountOpen(f) == |ps|
    ensures r.Ok? ==> r.value == Subst(f, ps)
  {
    assert f[0..] == f && ps[0..] == ps && f[0..0] == [];
    ScanFormat(f, ps, 0, false, 0, 0, [])
  }

  /** The endpoint part of `Build` with the template checked before the
      slice is allocated: a negative hint is reported as `ErrInvalidFormat`
      instead of panicking. */
  function BuildEndpointCorrected(f: Bytes, ps: seq<Bytes>): (r: Result<Bytes>)
    ensures r.Err? ==> r.error == InvalidFormat
    ensures r.Ok? <==> WellFormed(f) && CountOpen(f) == |ps|
    ensures r.Ok? ==> r.value == Subst(f, ps)
    ensures CapacityHint(f, ps) >= 0 ==> r == BuildEndpoint(f, ps)
  {
    FittingHint(f, ps);
    if CapacityHint(f, ps) < 0 then Err(InvalidFormat) else BuildEndpoint(f, ps)
  }

  /** The body part of `Build` as written: the marshaler's output or error
      if one is set; otherwise a non-nil byte slice as it is; otherwise any
      non-nil body, a nil byte slice included, is InvalidBodyType; a nil body
      is empty. */
  function SelectBodyAsWritten(rb: RequestBuilder, marshal: Marshal): (r: Result<Marshaled>)
    ensures rb.marshaler.Some? ==> r == marshal(rb.marshaler.value, rb.body)
    ensures rb.marshaler.None? && rb.body.ByteSlice? && rb.body.slice.Some? ==>
      r == Ok(Marshaled(rb.body.slice.value, map[]))
    ensures rb.marshaler.None? && rb.body == NilBody ==> r == Ok(Marshaled([], map[]))
    ensures rb.marshaler.None? && (rb.body.OtherBody? || rb.body == ByteSlice(None)) ==>
      r == Err(InvalidBodyType)
  {
    if rb.marshaler.Some? then marshal(rb.marshaler.value, rb.body)
    else if rb.body.ByteSlice? && rb.body.slice.Some? then Ok(Marshaled(rb.body.slice.value, map[]))
    else if rb.body != NilBody then Err(InvalidBodyType)
    else Ok(Marshaled([], map[]))
  }

  /** `WithRawBody(nil)` followed by `Build` fails with InvalidBodyType,
      although a nil byte slice needs no marshaler. */
  lemma RawNilBodyRejected(rb: RequestBuilder, marshal: Marshal)
    ensures SelectBodyAsWritten(WithRawBody(rb, None), marshal) == Err(InvalidBodyType)
  {
  }

  /** The body part of `Build` with a nil byte slice read as an empty body,
      like a nil body. */
  function SelectBody(rb: RequestBuilder, marshal: Marshal): (r: Result<Marshaled>)
    ensures rb.marshaler.Some? ==> r == marshal(rb.marshaler.value, rb.body)
    ensures rb.marshaler.None? ==> (r.Err? <==> rb.body.OtherBody?)
    ensures rb.marshaler.None? && r.Err? ==> r.error == InvalidBodyType
    ensures rb.marshaler.None? && r.Ok? ==> r.value.headers == map[]
    ensures rb.marshaler.None? && rb.body.ByteSlice? && rb.body.slice.Some? ==>
      r.Ok? && r.value.data == rb.body.slice.value
    ensures rb.marshaler.None? && (rb.body == NilBody || rb.body == ByteSlice(None)) ==>
      r == Ok(Marshaled([], map[]))
  {
    if rb.marshaler.None? && rb.body == ByteSlice(None) then Ok(Marshaled([], map[]))
    else SelectBodyAsWritten(rb, marshal)
  }

  /** The two body selections differ only on a nil byte slice without a
      marshaler. */
  lemma SelectBodyCorrection(rb: RequestBuilder, marshal: Marshal)
    ensures SelectBody(rb, marshal) != SelectBodyAsWritten(rb, marshal) <==>
      rb.marshaler.None? && rb.body == ByteSlice(None)
  {
  }

  /** Caller headers and marshaler headers are both added, caller values
      first, key by key (`Header.Add`). */
  function MergeHeaders(a: Multimap, b: Multimap): (r: Multimap)
    ensures r.Keys == a.Keys + b.Keys
    ensures forall k :: Values(r, k) == Values(a, k) + Values(b, k)
  {
    map k | k in a.Keys + b.Keys :: Values(a, k) + Values(b, k)
  }

  /** The request `Build` hands over: the handle that
      `http.NewRequestWithContext` returned, its headers, and the query
      parameters still to be merged into the URL. */
  datatype Outgoing = Outgoing(request: nat, headers: Multimap, query: Multimap)

  /** `http.NewRequestWithContext(ctx, method, url, body)`, code this model
      does not see. */
  type NewHttpRequest = (Bytes, Bytes, Bytes) -> Result<nat>

  /** The steps of `Build(ctx)` after the body has been selected: the
      endpoint first, then the given body result, then the request. */
  function BuildWith(rb: RequestBuilder, body: Result<Marshaled>, newRequest: NewHttpRequest): (r: Result<Outgoing>)
    requires CapacityHint(rb.format, rb.pathPrms) >= 0
    ensures !(WellFormed(rb.format) && CountOpen(rb.format) == |rb.pathPrms|) ==> r == Err(InvalidFormat)
    ensures WellFormed(rb.format) && CountOpen(rb.format) == |rb.pathPrms| ==>
      match body
      case Err(e) => r == Err(e)
      case Ok(m) =>
        match newRequest(rb.httpMethod, Subst(rb.format, rb.pathPrms), m.data)
        case Err(e) => r == Err(e)
        case Ok(h) => r == Ok(Outgoing(h, MergeHeaders(rb.headers, m.headers), rb.queryPrms))
  {
    match BuildEndpoint(rb.format, rb.pathPrms)
    case Err(e) => Err(e)
    case Ok(endp) =>
      match body
      case Err(e) => Err(e)
      case Ok(m) =>
        match newRequest(rb.httpMethod, endp, m.data)
        case Err(e) => Err(e)
        case Ok(h) => Ok(Outgoing(h, MergeHeaders(rb.headers, m.headers), rb.queryPrms))
  }

  /** `Build(ctx)` as written: the endpoint first, then the body as
      `SelectBodyAsWritten` chooses it, then the request; the first failure
      is the result. */
  function Build(rb: RequestBuilder, marshal: Marshal, newRequest: NewHttpRequest): (r: Result<Outgoing>)
    requires CapacityHint(rb.format, rb.pathPrms) >= 0
    ensures !(WellFormed(rb.format) && CountOpen(rb.format) == |rb.pathPrms|) ==> r == Err(InvalidFormat)
    ensures WellFormed(rb.format) && CountOpen(rb.format) == |rb.pathPrms| ==>
      match SelectBodyAsWritten(rb, marshal)
      case Err(e) => r == Err(e)
      case Ok(m) =>
        match newRequest(rb.httpMethod, Subst(rb.format, rb.pathPrms), m.data)
        case Err(e) => r == Err(e)
        case Ok(h) => r == Ok(Outgoing(h, MergeHeaders(rb.headers, m.headers), rb.queryPrms))
  {
    BuildWith(rb, SelectBodyAsWritten(rb, marshal), newRequest)
  }

  /** `Build(ctx)` corrected twice: a template whose hint is negative is
      rejected before anything is allocated, and a nil byte slice without a
      marshaler is an empty body. */
  function BuildCorrected(rb: RequestBuilder, marshal: Marshal, newRequest: NewHttpRequest): (r: Result<Outgoing>)
    ensures !(WellFormed(rb.format) && CountOpen(rb.format) == |rb.pathPrms|) ==> r == Err(InvalidFormat)
    ensures WellFormed(rb.format) && CountOpen(rb.format) == |rb.pathPrms| ==>
      match SelectBody(rb, marshal)
      case Err(e) => r == Err(e)
      case Ok(m) =>
        match newRequest(rb.httpMethod, Subst(rb.format, rb.pathPrms), m.data)
        case Err(e) => r == Err(e)
        case Ok(h) => r == Ok(Outgoing(h, MergeHeaders(rb.headers, m.headers), rb.queryPrms))
  {
    FittingHint(rb.format, rb.pathPrms);
    if CapacityHint(rb.format, rb.pathPrms) < 0 then Err(InvalidFormat)
    else BuildWith(rb, SelectBody(rb, marshal), newRequest)
  }

  /** With a fitting template, `Build` rejects a raw nil body; the corrected
      build treats it exactly as a builder with no body at all, and agrees
      with `Build` on every other body. */
  lemma BuildCorrection(rb: RequestBuilder, marshal: Marshal, newRequest: NewHttpRequest)
    requires CapacityHint(rb.format, rb.pathPrms) >= 0
    ensures WellFormed(rb.format) && CountOpen(rb.format) == |rb.pathPrms| ==>
      Build(WithRawBody(rb, None), marshal, newRequest) == Err(InvalidBodyType)
    ensures BuildCorrected(WithRawBody(rb, None), marshal, newRequest) ==
      Build(WithRawBody(rb, None).(body := NilBody), marshal, newRequest)
    ensures !(rb.marshaler.None? && rb.body == ByteSlice(None)) ==>
      BuildCorrected(rb, marshal, newRequest) == Build(rb, marshal, newRequest)
  {
    SelectBodyCorrection(rb, marshal);
  }
}
