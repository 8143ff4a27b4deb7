/** Client options (`Option`, `Configuration`): each option sets one field of
    the configuration, or appends one middleware; `newConfiguration` applies
    them in order over the defaults. A Go nil is `None`. */
module Options {
  import opened Common
  import MemPool
  import opened Middleware
  import opened Retriers
  import opened Requests

  /** A `func() HttpClient` constructor, known by name. */
  type ConstructorId = nat

  /** `Configuration`; the middleware lists hold the middlewares' scripts. */
  datatype Configuration = Configuration(
    mempool: Option<MemPool.Pool>,
    retrier: Option<Retrier>,
    httpClient: Option<HttpClient>,
    newClientFn: Option<ConstructorId>,
    hlMiddlewares: seq<seq<Step>>,
    llMiddlewares: seq<seq<Step>>)

  /** The options `UseMemoryPool`, `UseHttpClient`, `UseHttpClientConstructor`,
      `UseRetrier`, `UseHighLevelMiddleware` and `UseLowLevelMiddleware`. */
  datatype ClientOption =
    | UseMemoryPool(pool: Option<MemPool.Pool>)
    | UseHttpClient(client: Option<HttpClient>)
    | UseHttpClientConstructor(constr: Option<ConstructorId>)
    | UseRetrier(retr: Option<Retrier>)
    | UseHighLevelMiddleware(mdw: seq<Step>)
    | UseLowLevelMiddleware(mdw: seq<Step>)

  /** An option that sets a field rather than appending to a list. */
  predicate Setter(o: ClientOption) {
    !o.UseHighLevelMiddleware? && !o.UseLowLevelMiddleware?
  }

  /** Two options that name the same field. */
  predicate SameField(a: ClientOption, b: ClientOption) {
    || (a.UseMemoryPool? && b.UseMemoryPool?)
    || (a.UseHttpClient? && b.UseHttpClient?)
    || (a.UseHttpClientConstructor? && b.UseHttpClientConstructor?)
    || (a.UseRetrier? && b.UseRetrier?)
    || (a.UseHighLevelMiddleware? && b.UseHighLevelMiddleware?)
    || (a.UseLowLevelMiddleware? && b.UseLowLevelMiddleware?)
  }

  /** The configuration holds the value a setter option sets. */
  predicate Holds(c: Configuration, o: ClientOption)
    requires Setter(o)
  {
    match o
    case UseMemoryPool(p) => c.mempool == p
    case UseHttpClient(cl) => c.httpClient == cl
    case UseHttpClientConstructor(k) => c.newClientFn == k
    case UseRetrier(r) => c.retrier == r
  }

  /** The field an option names, as read from a configuration. */
  predicate SameOn(a: Configuration, b: Configuration, o: ClientOption) {
    match o
    case UseMemoryPool(_) => a.mempool == b.mempool
    case UseHttpClient(_) => a.httpClient == b.httpClient
    case UseHttpClientConstructor(_) => a.newClientFn == b.newClientFn
    case UseRetrier(_) => a.retrier == b.retrier
    case UseHighLevelMiddleware(_) => a.hlMiddlewares == b.hlMiddlewares
    case UseLowLevelMiddleware(_) => a.llMiddlewares == b.llMiddlewares
  }

  /** `o.Configure(c)`: a setter makes the configuration hold its value, a
      middleware option appends its middleware, and no other field moves. */
  function Configure(c: Configuration, o: ClientOption): (c': Configuration)
    ensures Setter(o) ==> Holds(c', o)
    ensures o.UseHighLevelMiddleware? ==> c'.hlMiddlewares == c.hlMiddlewares + [o.mdw]
    ensures o.UseLowLevelMiddleware? ==> c'.llMiddlewares == c.llMiddlewares + [o.mdw]
    ensures forall p :: !SameField(p, o) ==> SameOn(c, c', p)
  {
    match o
    case UseMemoryPool(p) => c.(mempool := p)
    case UseHttpClient(cl) => c.(httpClient := cl)
    case UseHttpClientConstructor(k) => c.(newClientFn := k)
    case UseRetrier(r) => c.(retrier := r)
    case UseHighLevelMiddleware(m) => c.(hlMiddlewares := c.hlMiddlewares + [m])
    case UseLowLevelMiddleware(m) => c.(llMiddlewares := c.llMiddlewares + [m])
  }

  /** The options applied in list order. */
  function ConfigureAll(c: Configuration, opts: seq<ClientOption>): Configuration
    decreases |opts|
  {
    if |opts| == 0 then c else ConfigureAll(Configure(c, opts[0]), opts[1..])
  }

  /** The defaults: `http.DefaultClient` and nothing else. */
  const Defaults: Configuration := Configuration(None, None, Some(DefaultClient), None, [], [])

  /** `newConfiguration(opts)`: the options over the defaults, then the
      default pool if no pool was left set. */
  function NewConfiguration(opts: seq<ClientOption>): (c: Configuration)
    ensures c.mempool.Some?
  {
    var c := ConfigureAll(Defaults, opts);
    if c.mempool.None? then c.(mempool := Some(MemPool.NewDefaultMemPool())) else c
  }

  /** Options that do not name a field leave it as it was. */
  lemma {:induction false} Untouched(c: Configuration, opts: seq<ClientOption>, p: ClientOption)
    requires forall j :: 0 <= j < |opts| ==> !SameField(p, opts[j])
    ensures SameOn(c, ConfigureAll(c, opts), p)
    decreases |opts|
  {
    if |opts| > 0 {
      Untouched(Configure(c, opts[0]), opts[1..], p);
    }
  }

  /** Applying two runs of options is applying them one run after the other. */
  lemma {:induction false} ConfigureAllAppend(c: Configuration, a: seq<ClientOption>, b: seq<ClientOption>)
    ensures ConfigureAll(c, a + b) == ConfigureAll(ConfigureAll(c, a), b)
    decreases |a|
  {
    if |a| == 0 {
      assert a + b == b;
    } else {
      assert (a + b)[1..] == a[1..] + b;
      ConfigureAllAppend(Configure(c, a[0]), a[1..], b);
    }
  }

  /** For pool, client, constructor and retrier the last option wins. */
  lemma LastWins(c: Configuration, opts: seq<ClientOption>, i: nat)
    requires i < |opts| && Setter(opts[i])
    requires forall j :: i < j < |opts| ==> !SameField(opts[i], opts[j])
    ensures Holds(ConfigureAll(c, opts), opts[i])
  {
    var pre, post := opts[..i], opts[i + 1..];
    assert opts == pre + ([opts[i]] + post);
    ConfigureAllAppend(c, pre, [opts[i]] + post);
    var c1 := ConfigureAll(c, pre);
    assert ConfigureAll(c1, [opts[i]] + post) == ConfigureAll(Configure(c1, opts[i]), post) by {
      assert ([opts[i]] + post)[1..] == post;
    }
    Untouched(Configure(c1, opts[i]), post, opts[i]);
  }

  /** The high-level middlewares of a list of options, in order. */
  function HighLevel(opts: seq<ClientOption>): seq<seq<Step>>
    decreases |opts|
  {
    if |opts| == 0 then []
    else (if opts[0].UseHighLevelMiddleware? then [opts[0].mdw] else []) + HighLevel(opts[1..])
  }

  /** The low-level middlewares of a list of options, in order. */
  function LowLevel(opts: seq<ClientOption>): seq<seq<Step>>
    decreases |opts|
  {
    if |opts| == 0 then []
    else (if opts[0].UseLowLevelMiddleware? then [opts[0].mdw] else []) + LowLevel(opts[1..])
  }

  /** Middleware options append, so each list keeps the options' order. */
  lemma {:induction false} MiddlewaresInOrder(c: Configuration, opts: seq<ClientOption>)
    ensures ConfigureAll(c, opts).hlMiddlewares == c.hlMiddlewares + HighLevel(opts)
    ensures ConfigureAll(c, opts).llMiddlewares == c.llMiddlewares + LowLevel(opts)
    decreases |opts|
  {
    if |opts| > 0 {
      MiddlewaresInOrder(Configure(c, opts[0]), opts[1..]);
    }
  }

  /** The default pool is used exactly when no pool option is given or the
      last one sets nil; otherwise the last pool given is used. The client
      defaults to `http.DefaultClient`. */
  lemma NewConfigurationDefaults(opts: seq<ClientOption>)
    ensures (forall j :: 0 <= j < |opts| ==> !opts[j].UseMemoryPool?) ==>
      NewConfiguration(opts).mempool == Some(MemPool.NewDefaultMemPool())
    ensures (forall j :: 0 <= j < |opts| ==> !opts[j].UseHttpClient?) ==>
      NewConfiguration(opts).httpClient == Some(DefaultClient)
    ensures forall i :: 0 <= i < |opts| && opts[i].UseMemoryPool? && (forall j :: i < j < |opts| ==> !opts[j].UseMemoryPool?) ==>
      NewConfiguration(opts).mempool == (if opts[i].pool.Some? then opts[i].pool else Some(MemPool.NewDefaultMemPool()))
  {
    if forall j :: 0 <= j < |opts| ==> !opts[j].UseMemoryPool? {
      Untouched(Defaults, opts, UseMemoryPool(None));
    }
    if forall j :: 0 <= j < |opts| ==> !opts[j].UseHttpClient? {
      Untouched(Defaults, opts, UseHttpClient(None));
    }
    forall i | 0 <= i < |opts| && opts[i].UseMemoryPool? && (forall j :: i < j < |opts| ==> !opts[j].UseMemoryPool?)
      ensures NewConfiguration(opts).mempool == (if opts[i].pool.Some? then opts[i].pool else Some(MemPool.NewDefaultMemPool()))
    {
      LastWins(Defaults, opts, i);
    }
  }
}
