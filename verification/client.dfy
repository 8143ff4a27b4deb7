/** The client (`Client`): the configured pool and HTTP client, the two
    middleware lists, and `Do`, which assembles the chain
    pre-build ++ [prepare] ++ pre-execute ++ [execute] and runs it on a fresh
    request. The pool is threaded through: `Do` returns it as the request
    left it. */
module Clients {
  import opened Common
  import MemPool
  import opened Writer
  import opened Template
  import opened EndpointFormat
  import opened Middleware
  import opened Requests
  import opened Options

  /** `MDW_BeforeBuild` and `MDW_BeforeExecute`. */
  const BeforeBuild: int := 0
  const BeforeExecute: int := 1

  /** `Client`: `l2` runs before the request is built, `l1` before it is sent. */
  datatype Client = Client(
    mem: MemPool.Pool,
    client: Option<HttpClient>,
    constr: Option<ConstructorId>,
    l2: seq<seq<Step>>,
    l1: seq<seq<Step>>)

  /** `NewClient(opts...)` as written: the pool, client and constructor come
      from the configuration, the middleware lists start empty. */
  function NewClientAsWritten(opts: seq<ClientOption>): (c: Client)
    ensures var cfg := NewConfiguration(opts);
      c.mem == cfg.mempool.value && c.client == cfg.httpClient && c.constr == cfg.newClientFn
    ensures c.l2 == [] && c.l1 == []
  {
    var cfg := NewConfiguration(opts);
    Client(cfg.mempool.value, cfg.httpClient, cfg.newClientFn, [], [])
  }

  /** `NewClient(opts...)` keeping the configured middlewares, in the order
      their options were given. */
  function NewClient(opts: seq<ClientOption>): (c: Client)
    ensures var cfg := NewConfiguration(opts);
      c.mem == cfg.mempool.value && c.client == cfg.httpClient && c.constr == cfg.newClientFn
    ensures c.l2 == HighLevel(opts) && c.l1 == LowLevel(opts)
  {
    var cfg := NewConfiguration(opts);
    MiddlewaresInOrder(Defaults, opts);
    Client(cfg.mempool.value, cfg.httpClient, cfg.newClientFn, cfg.hlMiddlewares, cfg.llMiddlewares)
  }

  /** A middleware given as an option never reaches the client as written,
      and does reach the corrected one. */
  lemma NewClientDropsMiddlewares(m: seq<Step>)
    ensures NewClientAsWritten([UseHighLevelMiddleware(m)]).l2 == []
    ensures NewClient([UseHighLevelMiddleware(m)]).l2 == [m]
  {
    assert HighLevel([UseHighLevelMiddleware(m)]) == [m] by {
      assert [UseHighLevelMiddleware(m)][1..] == [];
    }
  }

  /** `Use(stage, middlewares...)`: appended, in order, to the list of the
      stage; any other stage is an error and changes nothing. */
  function Use(c: Client, stage: int, mdws: seq<seq<Step>>): (r: (Client, Option<Error>))
    ensures stage == BeforeBuild ==> r == (c.(l2 := c.l2 + mdws), None)
    ensures stage == BeforeExecute ==> r == (c.(l1 := c.l1 + mdws), None)
    ensures stage != BeforeBuild && stage != BeforeExecute ==> r == (c, Some(InvalidMiddlewareStage))
  {
    if stage == BeforeBuild then (c.(l2 := c.l2 + mdws), None)
    else if stage == BeforeExecute then (c.(l1 := c.l1 + mdws), None)
    else (c, Some(InvalidMiddlewareStage))
  }

  /** `getClientForRequest()`: the constructor's client when a constructor is
      set, the stored client otherwise. `construct` stands for calling the
      constructor. */
  function ClientForRequest(c: Client, construct: ConstructorId -> Option<HttpClient>): (cl: Option<HttpClient>)
    ensures c.constr.Some? ==> cl == construct(c.constr.value)
    ensures c.constr.None? ==> cl == c.client
  {
    if c.constr.Some? then construct(c.constr.value) else c.client
  }

  /** The user middlewares as stages. */
  function Customs(mdws: seq<seq<Step>>): (fns: seq<Stage>)
    ensures |fns| == |mdws|
    ensures forall i :: 0 <= i < |mdws| ==> fns[i] == Custom(mdws[i])
  {
    seq(|mdws|, i requires 0 <= i < |mdws| => Custom(mdws[i]))
  }

  /** The chain `Do` runs: every pre-build middleware in order, then
      `prepare`, then every pre-execute middleware in order, then `execute`. */
  function Chain(c: Client): (fns: seq<Stage>)
    ensures |fns| == |c.l2| + |c.l1| + 2
    ensures forall i :: 0 <= i < |c.l2| ==> fns[i] == Custom(c.l2[i])
    ensures fns[|c.l2|] == Prepare
    ensures forall i :: 0 <= i < |c.l1| ==> fns[|c.l2| + 1 + i] == Custom(c.l1[i])
    ensures fns[|fns| - 1] == Execute
  {
    Customs(c.l2) + [Prepare] + Customs(c.l1) + [Execute]
  }

  /** Middlewares registered with `Use` run in the chain right after those
      already registered for the same stage: before `prepare` for
      BeforeBuild, before `execute` for BeforeExecute. */
  lemma UseExtendsChain(c: Client, mdws: seq<seq<Step>>)
    ensures Chain(Use(c, BeforeBuild, mdws).0)
      == Customs(c.l2) + Customs(mdws) + [Prepare] + Customs(c.l1) + [Execute]
    ensures Chain(Use(c, BeforeExecute, mdws).0)
      == Customs(c.l2) + [Prepare] + Customs(c.l1) + Customs(mdws) + [Execute]
  {
    assert Customs(c.l2 + mdws) == Customs(c.l2) + Customs(mdws);
    assert Customs(c.l1 + mdws) == Customs(c.l1) + Customs(mdws);
  }

  /** The inputs of one `Do` call. */
  datatype Call = Call(
    httpMethod: Bytes,
    format: Bytes,
    body: Any,
    marshaler: Option<MarshalerId>,
    headers: map<Bytes, Bytes>,
    query: QueryList,
    path: seq<Bytes>)

  /** The request `Do` starts the chain on. */
  function Start(c: Client, construct: ConstructorId -> Option<HttpClient>, call: Call): (r: Request)
    ensures r.fni == 0 && r.errors == [] && r.response == None && r.request == None && r.mem == c.mem
    ensures SameInputs(r, NewRequest(c.mem, ClientForRequest(c, construct), call.format, call.httpMethod,
                                     call.body, call.marshaler, call.headers, call.query, call.path))
  {
    NewRequest(c.mem, ClientForRequest(c, construct), call.format, call.httpMethod,
               call.body, call.marshaler, call.headers, call.query, call.path)
  }

  /** `Do(...)`: the response the chain left, with the first error recorded,
      or none; and the client with the pool as the request left it. */
  function Do(env: Env, construct: ConstructorId -> Option<HttpClient>, c: Client, call: Call)
    : (o: (Option<nat>, Option<Error>, Client))
    requires Feeds(c.mem)
    ensures Feeds(o.2.mem) && o.2 == c.(mem := o.2.mem)
    ensures o.2.mem.pageSize == c.mem.pageSize && o.2.mem.bound == c.mem.bound && |o.2.mem.free| >= |c.mem.free|
  {
    var r := Next(env, Chain(c), Start(c, construct, call));
    (r.response, if |r.errors| > 0 then Some(r.errors[0]) else None, c.(mem := r.mem))
  }

  /** Pre-build middlewares that only call `Next`. */
  predicate AllPassThrough(mdws: seq<seq<Step>>) {
    forall i :: 0 <= i < |mdws| ==> mdws[i] == [CallNext]
  }

  /** With pass-through pre-build middlewares, `Do` reaches `prepare` with the
      fresh request. */
  lemma ReachPrepare(env: Env, construct: ConstructorId -> Option<HttpClient>, c: Client, call: Call)
    requires Feeds(c.mem) && AllPassThrough(c.l2)
    ensures var r0 := Start(c, construct, call);
      var p := PrepareWork(env, r0.(fni := |c.l2| + 1));
      Next(env, Chain(c), r0) == (if p.1 then Next(env, Chain(c), p.0) else p.0).(fni := 0)
  {
    var fns, r0 := Chain(c), Start(c, construct, call);
    SkipPassThrough(env, fns, r0, |c.l2|);
    var r1 := r0.(fni := |c.l2|);
    assert fns[r1.fni] == Prepare;
  }

  /** A template that does not fit the parameters is reported by `Do` as the
      endpoint formatting error, with no response: nothing was sent. */
  lemma DoFailsOnBadTemplate(env: Env, construct: ConstructorId -> Option<HttpClient>, c: Client, call: Call)
    requires Feeds(c.mem) && AllPassThrough(c.l2)
    requires !(Placeheld(call.format) && CountOpen(call.format) == |call.path|)
    ensures Do(env, construct, c, call).0 == None
    ensures Do(env, construct, c, call).1 == Some(FmtEndpoint(c.mem, call.format, call.query, call.path).0.error)
  {
    var r0 := Start(c, construct, call);
    var r1 := r0.(fni := |c.l2| + 1);
    ReachPrepare(env, construct, c, call);
    PrepareFails(env, r1);
  }

  /** With pass-through pre-build middlewares, a call that `prepare` cannot
      get through, for whichever reason, makes `Do` return exactly the error
      of the step that failed, and no response: nothing was sent. */
  lemma DoReportsPrepareError(env: Env, construct: ConstructorId -> Option<HttpClient>, c: Client, call: Call)
    requires Feeds(c.mem) && AllPassThrough(c.l2)
    requires !Prepares(env, Start(c, construct, call))
    ensures Do(env, construct, c, call).0 == None
    ensures Do(env, construct, c, call).1 == Some(PrepareError(env, Start(c, construct, call)))
  {
    var r0 := Start(c, construct, call);
    var r1 := r0.(fni := |c.l2| + 1);
    assert Payload(env, r1) == Payload(env, r0);
    assert Prepares(env, r1) == Prepares(env, r0);
    assert PrepareError(env, r1) == PrepareError(env, r0);
    PrepareFails(env, r1);
    ReachPrepare(env, construct, c, call);
  }

  /** A first pre-build middleware that never calls `Next` makes `Do` return
      neither a response nor an error. */
  lemma DoStopsWithoutNext(env: Env, construct: ConstructorId -> Option<HttpClient>, c: Client, call: Call)
    requires Feeds(c.mem) && |c.l2| > 0 && StoreOnly(c.l2[0])
    ensures Do(env, construct, c, call).0 == None && Do(env, construct, c, call).1 == None
  {
    var fns, r0 := Chain(c), Start(c, construct, call);
    var r1 := r0.(fni := 1);
    assert fns[0] == Custom(c.l2[0]);
    assert Next(env, fns, r0) == RunSteps(env, fns, c.l2[0], r1).(fni := 0);
    StoreOnlyStops(env, fns, c.l2[0], r1);
  }

  /** Past `prepare`, pass-through pre-execute middlewares lead straight to
      `execute`. */
  lemma PreparedToExecute(env: Env, c: Client, p: Request)
    requires AllPassThrough(c.l1) && p.fni == |c.l2| + 1 && Feeds(p.mem)
    ensures Next(env, Chain(c), p).response == env.send(p.client, p.request).0
    ensures Next(env, Chain(c), p).errors == p.errors + (if env.send(p.client, p.request).1.Some? then [env.send(p.client, p.request).1.value] else [])
  {
    var fns, k := Chain(c), |c.l2| + 1 + |c.l1|;
    forall j | p.fni <= j < k
      ensures fns[j] == PassThrough
    {
      assert fns[|c.l2| + 1 + (j - |c.l2| - 1)] == Custom(c.l1[j - |c.l2| - 1]);
    }
    PassThroughToExecute(env, fns, p, k);
  }

  /** Through pass-through middlewares, when the call's template fits, its
      body marshals and its request can be built, `Do` returns exactly what
      the HTTP client chosen for the request returns for the prepared
      request. */
  lemma DoSendsPrepared(env: Env, construct: ConstructorId -> Option<HttpClient>, c: Client, call: Call)
    requires Feeds(c.mem) && AllPassThrough(c.l2) && AllPassThrough(c.l1)
    requires ClientForRequest(c, construct).Some?
    requires Prepares(env, Start(c, construct, call))
    ensures var sent := env.send(ClientForRequest(c, construct), Some(Prepared(env, Start(c, construct, call))));
      Do(env, construct, c, call).0 == sent.0 && Do(env, construct, c, call).1 == sent.1
  {
    var r0 := Start(c, construct, call);
    var r1 := r0.(fni := |c.l2| + 1);
    PrepareBuilds(env, r1);
    assert Prepared(env, r1) == Prepared(env, r0);
    var p := PrepareWork(env, r1).0;
    PreparedToExecute(env, c, p);
    ReachPrepare(env, construct, c, call);
  }
}
