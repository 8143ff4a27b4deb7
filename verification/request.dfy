/** The request of the client (`Request`) and its middleware chain. The
    chain is a list of stages run by a cursor: `Next` runs the stage under
    the cursor with the cursor moved past it, and moves it back afterwards.
    Two stages are the library's own: `prepare` builds the HTTP request and
    `execute` sends it. Code this model does not see (the marshalers,
    `http.NewRequestWithContext`, the HTTP client) is an `Env` of functions. */
module Requests {
  import opened Common
  import opened Template
  import MemPool
  import opened Writer
  import opened EndpointFormat
  import opened Middleware

  /** An `HttpClient`: `http.DefaultClient` or one the user supplied. */
  datatype HttpClient = DefaultClient | UserClient(id: nat)

  /** A `Marshaler`, known by name. */
  type MarshalerId = nat

  /** The `*http.Request` built by `prepare`: the handle the standard library
      returned and the headers set on it. */
  datatype HttpRequest = HttpRequest(handle: nat, header: map<Bytes, Bytes>)

  /** The collaborators:
      - `marshal(m, body)`: `m.Marshal(body)`, the data and the content type;
      - `newRequest(method, url, data)`: `http.NewRequestWithContext`;
      - `send(client, request)`: `client.Do(request)`, a response and an error,
        either of which may be nil. */
  datatype Env = Env(
    marshal: (MarshalerId, Any) -> Result<(Bytes, Bytes)>,
    newRequest: (Bytes, Bytes, Bytes) -> Result<nat>,
    send: (Option<HttpClient>, Option<HttpRequest>) -> (Option<nat>, Option<Error>))

  /** A stage of the chain: a user middleware, or `prepare`, or `execute`. */
  datatype Stage = Custom(steps: seq<Step>) | Prepare | Execute

  /** The request state. `fns` is not part of it: the chain never changes
      while it runs, so it is passed alongside. The query map is a list
      whose order is the order in which the map happens to be visited. */
  datatype Request = Request(
    mem: MemPool.Pool,
    client: Option<HttpClient>,
    values: Store,
    fni: nat,
    format: Bytes,
    httpMethod: Bytes,
    body: Any,
    marshaler: Option<MarshalerId>,
    headers: map<Bytes, Bytes>,
    queryParams: QueryList,
    pathParams: seq<Bytes>,
    endpoint: Bytes,
    data: Bytes,
    request: Option<HttpRequest>,
    response: Option<nat>,
    errors: seq<Error>)

  /** `newRequest(...)`: cursor 0, an empty store, nothing built yet. */
  function NewRequest(mem: MemPool.Pool, client: Option<HttpClient>, format: Bytes, httpMethod: Bytes,
                      body: Any, marshaler: Option<MarshalerId>, headers: map<Bytes, Bytes>,
                      queryParams: QueryList, pathParams: seq<Bytes>): (r: Request)
    ensures r.fni == 0 && r.values == map[] && r.errors == []
    ensures r.request == None && r.response == None && r.endpoint == [] && r.data == []
    ensures r.mem == mem && r.client == client && r.format == format && r.httpMethod == httpMethod
    ensures r.body == body && r.marshaler == marshaler && r.headers == headers
    ensures r.queryParams == queryParams && r.pathParams == pathParams
  {
    Request(mem, client, map[], 0, format, httpMethod, body, marshaler, headers,
            queryParams, pathParams, [], [], None, None, [])
  }

  /** `Error(err)`: appended after the earlier errors. */
  function AddError(r: Request, e: Error): (r': Request)
    ensures r'.errors == r.errors + [e]
    ensures r'.(errors := r.errors) == r
  {
    r.(errors := r.errors + [e])
  }

  /** `Set(key, val)`: only the store changes, and only at the key. */
  function ReqSet(r: Request, key: Bytes, val: Any): (r': Request)
    ensures Get(r'.values, key) == (val, true)
    ensures forall k :: k != key ==> Get(r'.values, k) == Get(r.values, k)
    ensures r'.(values := r.values) == r
  {
    r.(values := Set(r.values, key, val))
  }

  /** The fields a stage reads and never writes: the caller's inputs. */
  predicate SameInputs(a: Request, b: Request) {
    && a.client == b.client && a.format == b.format && a.httpMethod == b.httpMethod
    && a.body == b.body && a.marshaler == b.marshaler && a.headers == b.headers
    && a.queryParams == b.queryParams && a.pathParams == b.pathParams
  }

  /** What every stage keeps: a usable pool of the same configuration that
      did not shrink, the inputs, and the errors recorded so far (new ones
      only come after them). */
  predicate Keeps(a: Request, b: Request) {
    && Feeds(b.mem)
    && b.mem.pageSize == a.mem.pageSize && b.mem.bound == a.mem.bound
    && |b.mem.free| >= |a.mem.free|
    && SameInputs(a, b)
    && a.errors <= b.errors
  }

  const ContentType: Bytes := [67, 111, 110, 116, 101, 110, 116, 45, 84, 121, 112, 101] // "Content-Type"

  /** The headers `prepare` sets: the marshaler's content type, if it gave
      one, then the caller's headers, which win over it (`Header.Set`). */
  function RequestHeaders(contentType: Bytes, headers: map<Bytes, Bytes>): (h: map<Bytes, Bytes>)
    ensures forall k :: k in headers ==> k in h && h[k] == headers[k]
    ensures contentType != [] && ContentType !in headers ==> ContentType in h && h[ContentType] == contentType
    ensures h.Keys == headers.Keys + (if contentType != [] then {ContentType} else {})
  {
    (if contentType != [] then map[ContentType := contentType] else map[]) + headers
  }

  /** Whether `prepare` marshals: only with both a body and a marshaler. */
  predicate Marshals(r: Request) {
    r.body != Nil && r.marshaler.Some?
  }

  /** The body data and content type `prepare` sends: the marshaler's output
      when it marshals, nothing otherwise. */
  function Payload(env: Env, r: Request): (m: Result<(Bytes, Bytes)>)
    ensures Marshals(r) ==> m == env.marshal(r.marshaler.value, r.body)
    ensures !Marshals(r) ==> m == Result.Ok(([], []))
  {
    if Marshals(r) then env.marshal(r.marshaler.value, r.body) else Result.Ok(([], []))
  }

  /** The second half of `prepare`, once the endpoint is formatted: marshal
      the body if there is a body and a marshaler, then build the request.
      The flag says whether it got through; if not, the one error of the
      failing step was added and nothing else changed. */
  function Assemble(env: Env, r: Request, endpoint: Bytes): (p: (Request, bool))
    ensures p.1 ==> p.0 == r.(endpoint := endpoint, data := p.0.data, request := p.0.request)
    ensures !p.1 ==> p.0 == r.(errors := p.0.errors) && |p.0.errors| == |r.errors| + 1 && r.errors <= p.0.errors
    ensures Payload(env, r).Err? ==> !p.1 && p.0.errors[|r.errors|] == Payload(env, r).error
    ensures Payload(env, r).Ok? ==>
      var n := env.newRequest(r.httpMethod, endpoint, Payload(env, r).value.0);
      && (n.Err? ==> !p.1 && p.0.errors[|r.errors|] == n.error)
      && (n.Ok? ==> p.1 && p.0.data == Payload(env, r).value.0
                    && p.0.request == Some(HttpRequest(n.value, RequestHeaders(Payload(env, r).value.1, r.headers))))
  {
    match Payload(env, r)
    case Err(e) => (AddError(r, e), false)
    case Ok(dc) =>
      match env.newRequest(r.httpMethod, endpoint, dc.0)
      case Err(e) => (AddError(r, e), false)
      case Ok(h) =>
        (r.(endpoint := endpoint, data := dc.0, request := Some(HttpRequest(h, RequestHeaders(dc.1, r.headers)))), true)
  }

  /** The endpoint `prepare` formats for a template that fits. */
  function Endpoint(r: Request): Bytes
    requires Placeheld(r.format) && CountOpen(r.format) == |r.pathParams|
  {
    Subst(r.format, EscapeAll(r.pathParams)) + QueryPart(r.queryParams)
  }

  /** The conditions under which `prepare` gets through: the template fits
      the path parameters, the marshaler (if used) succeeds, and the request
      can be built from the endpoint and the data. */
  predicate Prepares(env: Env, r: Request) {
    && Placeheld(r.format) && CountOpen(r.format) == |r.pathParams|
    && Payload(env, r).Ok?
    && env.newRequest(r.httpMethod, Endpoint(r), Payload(env, r).value.0).Ok?
  }

  /** The request a successful `prepare` builds. */
  function Prepared(env: Env, r: Request): HttpRequest
    requires Prepares(env, r)
  {
    HttpRequest(env.newRequest(r.httpMethod, Endpoint(r), Payload(env, r).value.0).value,
                RequestHeaders(Payload(env, r).value.1, r.headers))
  }

  /** The work of `prepare` before it calls `Next`: format the endpoint, then
      assemble the request. The flag says whether it got through; if not,
      exactly one error was added and nothing else but the pool changed, so
      no later stage runs. `PrepareFails` says which error, and
      `PrepareBuilds` what was built. */
  function PrepareWork(env: Env, r: Request): (p: (Request, bool))
    requires Feeds(r.mem)
    ensures Keeps(r, p.0) && p.0.fni == r.fni && p.0.values == r.values && p.0.response == r.response
    ensures !p.1 ==> p.0 == r.(mem := p.0.mem, errors := p.0.errors) && |p.0.errors| == |r.errors| + 1
    ensures p.1 ==> p.0.errors == r.errors
  {
    var fe := FmtEndpoint(r.mem, r.format, r.queryParams, r.pathParams);
    var r1 := r.(mem := fe.1);
    match fe.0
    case Err(e) => (AddError(r1, e), false)
    case Ok(endpoint) => Assemble(env, r1, endpoint)
  }

  /** The error `prepare` records when it does not get through: the
      formatter's error for a template that does not fit (an illegal brace
      first, then too few or too many parameters), else the marshaler's
      error, else the error of building the request. */
  ghost function PrepareError(env: Env, r: Request): Error
    requires !Prepares(env, r)
  {
    if !(Placeheld(r.format) && CountOpen(r.format) == |r.pathParams|) then
      if IllegalWithin(r.format, |r.pathParams|) then IllegalFormat
      else if CountOpen(r.format) > |r.pathParams| then NotEnoughParameters
      else TooManyParameters
    else if Payload(env, r).Err? then Payload(env, r).error
    else env.newRequest(r.httpMethod, Endpoint(r), Payload(env, r).value.0).error
  }

  /** When `prepare` stops the chain, and with which error: a formatting
      error, the marshaler's error, or the error of building the request.
      A template that does not fit the parameters never gets through. */
  lemma PrepareFails(env: Env, r: Request)
    requires Feeds(r.mem)
    ensures var p := PrepareWork(env, r);
      var fe := FmtEndpoint(r.mem, r.format, r.queryParams, r.pathParams).0;
      && (!Prepares(env, r) ==> !p.1 && p.0.errors[|r.errors|] == PrepareError(env, r))
      && (fe.Err? ==> p.0.errors[|r.errors|] == fe.error)
      && (fe.Ok? && Payload(env, r).Err? ==> p.0.errors[|r.errors|] == Payload(env, r).error)
      && (fe.Ok? && Payload(env, r).Ok? && env.newRequest(r.httpMethod, Endpoint(r), Payload(env, r).value.0).Err? ==>
            p.0.errors[|r.errors|] == env.newRequest(r.httpMethod, Endpoint(r), Payload(env, r).value.0).error)
  {
    var fe := FmtEndpoint(r.mem, r.format, r.queryParams, r.pathParams);
    var r1 := r.(mem := fe.1);
    if fe.0.Err? {
      assert PrepareWork(env, r) == (AddError(r1, fe.0.error), false);
    } else {
      assert PrepareWork(env, r) == Assemble(env, r1, fe.0.value);
      assert Payload(env, r1) == Payload(env, r);
    }
  }

  /** When the conditions hold, `prepare` gets through, with the substituted
      template and its query as the endpoint, the payload as the data, and
      the request built from them, carrying the content type and the
      caller's headers. */
  lemma PrepareBuilds(env: Env, r: Request)
    requires Feeds(r.mem) && Prepares(env, r)
    ensures var p := PrepareWork(env, r);
      && p.1
      && p.0.endpoint == Endpoint(r)
      && p.0.data == Payload(env, r).value.0
      && p.0.request == Some(Prepared(env, r))
  {
    var fe := FmtEndpoint(r.mem, r.format, r.queryParams, r.pathParams);
    var r1 := r.(mem := fe.1);
    assert fe.0 == Result.Ok(Endpoint(r));
    assert PrepareWork(env, r) == Assemble(env, r1, Endpoint(r));
    assert Payload(env, r1) == Payload(env, r);
  }

  /** `execute`: the response is whatever the client returned, and its error,
      if any, is added. */
  function ExecuteWork(env: Env, r: Request): (r': Request)
    ensures r'.response == env.send(r.client, r.request).0
    ensures r'.errors == r.errors + (if env.send(r.client, r.request).1.Some? then [env.send(r.client, r.request).1.value] else [])
    ensures r'.(response := r.response, errors := r.errors) == r
  {
    var res := env.send(r.client, r.request);
    var r1 := r.(response := res.0);
    if res.1.Some? then AddError(r1, res.1.value) else r1
  }

  /** `Next()`: runs the stage under the cursor with the cursor advanced, then
      moves the cursor back; past the last stage it does nothing. */
  function Next(env: Env, fns: seq<Stage>, r: Request): (r': Request)
    requires r.fni <= |fns| && Feeds(r.mem)
    ensures Keeps(r, r') && r'.fni == r.fni
    ensures r.fni == |fns| ==> r' == r
    decreases |fns| - r.fni, 2, 0
  {
    if r.fni < |fns| then
      var r1 := RunStage(env, fns, fns[r.fni], r.(fni := r.fni + 1));
      r1.(fni := r1.fni - 1)
    else r
  }

  /** One stage, run with the cursor already past it. */
  function RunStage(env: Env, fns: seq<Stage>, st: Stage, r: Request): (r': Request)
    requires 1 <= r.fni <= |fns| && Feeds(r.mem)
    ensures Keeps(r, r') && r'.fni == r.fni
    decreases |fns| - r.fni + 1, 1, 0
  {
    match st
    case Custom(steps) => RunSteps(env, fns, steps, r)
    case Prepare =>
      var p := PrepareWork(env, r);
      if p.1 then Next(env, fns, p.0) else p.0
    case Execute => ExecuteWork(env, r)
  }

  /** A user middleware's script, one action at a time. */
  function RunSteps(env: Env, fns: seq<Stage>, steps: seq<Step>, r: Request): (r': Request)
    requires 1 <= r.fni <= |fns| && Feeds(r.mem)
    ensures Keeps(r, r') && r'.fni == r.fni
    decreases |fns| - r.fni + 1, 0, |steps|
  {
    if |steps| == 0 then r
    else
      match steps[0]
      case SetValue(k, v) => RunSteps(env, fns, steps[1..], ReqSet(r, k, v))
      case DelValue(k) => RunSteps(env, fns, steps[1..], r.(values := Del(r.values, k)))
      case RecordError(e) => RunSteps(env, fns, steps[1..], AddError(r, e))
      case CallNext => RunSteps(env, fns, steps[1..], Next(env, fns, r))
  }

  /** A middleware that only calls `Next`. */
  const PassThrough: Stage := Custom([CallNext])

  /** One middleware that only calls `Next` passes the request straight on. */
  lemma PassThroughStep(env: Env, fns: seq<Stage>, r: Request)
    requires r.fni < |fns| && fns[r.fni] == PassThrough && Feeds(r.mem)
    ensures Next(env, fns, r) == Next(env, fns, r.(fni := r.fni + 1)).(fni := r.fni)
  {
    var r' := r.(fni := r.fni + 1);
    assert RunSteps(env, fns, [CallNext], r') == RunSteps(env, fns, [], Next(env, fns, r'));
  }

  /** Middlewares that only call `Next` are invisible: running the chain from
      the first of them is running it from the stage after the last. */
  lemma {:induction false} SkipPassThrough(env: Env, fns: seq<Stage>, r: Request, k: nat)
    requires r.fni <= k <= |fns| && Feeds(r.mem)
    requires forall j :: r.fni <= j < k ==> fns[j] == PassThrough
    ensures Next(env, fns, r) == Next(env, fns, r.(fni := k)).(fni := r.fni)
    decreases k - r.fni
  {
    if r.fni < k {
      var r' := r.(fni := r.fni + 1);
      PassThroughStep(env, fns, r);
      SkipPassThrough(env, fns, r', k);
      assert r'.(fni := k) == r.(fni := k);
    }
  }

  /** A middleware that never calls `Next` ends the chain: no later stage
      runs, and only the store changes. */
  lemma {:induction false} StoreOnlyStops(env: Env, fns: seq<Stage>, steps: seq<Step>, r: Request)
    requires 1 <= r.fni <= |fns| && Feeds(r.mem) && StoreOnly(steps)
    ensures RunSteps(env, fns, steps, r) == r.(values := ApplyStore(r.values, steps))
    decreases |steps|
  {
    if |steps| > 0 {
      assert StoreOnly(steps[1..]) by {
        assert forall i :: 0 <= i < |steps| - 1 ==> steps[1..][i] == steps[i + 1];
      }
      match steps[0]
      case SetValue(k, v) => StoreOnlyStops(env, fns, steps[1..], ReqSet(r, k, v));
      case DelValue(k) => StoreOnlyStops(env, fns, steps[1..], r.(values := Del(r.values, k)));
    }
  }

  /** With the cursor on `execute`, the chain ends with what the HTTP client
      returned. */
  lemma ExecuteLast(env: Env, fns: seq<Stage>, r: Request)
    requires r.fni < |fns| && fns[r.fni] == Execute && Feeds(r.mem)
    ensures Next(env, fns, r).response == env.send(r.client, r.request).0
    ensures Next(env, fns, r).errors == r.errors + (if env.send(r.client, r.request).1.Some? then [env.send(r.client, r.request).1.value] else [])
  {
    assert Next(env, fns, r) == ExecuteWork(env, r.(fni := r.fni + 1)).(fni := r.fni);
  }

  /** From a stage followed only by pass-through middlewares and `execute`,
      the chain ends with what the HTTP client returned for the request as it
      stands. */
  lemma PassThroughToExecute(env: Env, fns: seq<Stage>, r: Request, k: nat)
    requires r.fni <= k < |fns| && fns[k] == Execute && Feeds(r.mem)
    requires forall j :: r.fni <= j < k ==> fns[j] == PassThrough
    ensures Next(env, fns, r).response == env.send(r.client, r.request).0
    ensures Next(env, fns, r).errors == r.errors + (if env.send(r.client, r.request).1.Some? then [env.send(r.client, r.request).1.value] else [])
  {
    SkipPassThrough(env, fns, r, k);
    ExecuteLast(env, fns, r.(fni := k));
  }
}
