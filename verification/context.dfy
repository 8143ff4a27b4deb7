/** The request context (`Context`): a prebuilt HTTP request, a chain of
    middlewares ending, as a rule, in `do`, which hands the request to a
    `Requester`. The requester is a function from the request to Go's
    `(response, error)` pair. */
module Contexts {
  import opened Common
  import opened Middleware

  /** `Requester.Do`: a response and an error, either of which may be nil. */
  type Requester = Option<nat> -> (Option<nat>, Option<Error>)

  /** A stage of the chain: a user middleware, or `do`. */
  datatype CtxStage = CtxCustom(steps: seq<Step>) | DoStage

  /** The context state; the requester and the chain never change while it
      runs, so they are passed alongside. */
  datatype Context = Context(
    values: Store,
    fni: nat,
    request: Option<nat>,
    response: Option<nat>,
    errors: seq<Error>)

  /** `newRequestContext(cl, req, fns)`: cursor 0, an empty store, no response
      and no errors yet. */
  function NewRequestContext(req: Option<nat>): (c: Context)
    ensures c.fni == 0 && c.request == req && c.response == None
    ensures c.values == map[] && c.errors == []
  {
    Context(map[], 0, req, None, [])
  }

  /** `Error(err)`: appended after the earlier errors. */
  function CtxError(c: Context, e: Error): (c': Context)
    ensures c'.errors == c.errors + [e]
    ensures c'.(errors := c.errors) == c
  {
    c.(errors := c.errors + [e])
  }

  /** `Set(key, val)`: only the store changes, and only at the key. */
  function CtxSet(c: Context, key: Bytes, val: Any): (c': Context)
    ensures Get(c'.values, key) == (val, true)
    ensures forall k :: k != key ==> Get(c'.values, k) == Get(c.values, k)
    ensures c'.(values := c.values) == c
  {
    c.(values := Set(c.values, key, val))
  }

  /** `Del(key)`: only the store changes, and only at the key. */
  function CtxDel(c: Context, key: Bytes): (c': Context)
    ensures Get(c'.values, key) == (Nil, false)
    ensures forall k :: k != key ==> Get(c'.values, k) == Get(c.values, k)
    ensures c'.(values := c.values) == c
  {
    c.(values := Del(c.values, key))
  }

  /** `do`: on an error only the error is added and the response is left as
      it was; otherwise the response is whatever the requester returned. */
  function DoWork(cl: Requester, c: Context): (c': Context)
    ensures cl(c.request).1.Some? ==> c' == c.(errors := c.errors + [cl(c.request).1.value])
    ensures cl(c.request).1.None? ==> c' == c.(response := cl(c.request).0)
  {
    var res := cl(c.request);
    if res.1.Some? then CtxError(c, res.1.value) else c.(response := res.0)
  }

  /** What every stage keeps: the request it was given, and the errors
      recorded so far, new ones only coming after them. */
  predicate CtxKeeps(a: Context, b: Context) {
    a.request == b.request && a.errors <= b.errors
  }

  /** `Next()`: runs the stage under the cursor with the cursor advanced, then
      moves the cursor back; past the last stage it does nothing. */
  function Next(cl: Requester, fns: seq<CtxStage>, c: Context): (c': Context)
    requires c.fni <= |fns|
    ensures CtxKeeps(c, c') && c'.fni == c.fni
    ensures c.fni == |fns| ==> c' == c
    decreases |fns| - c.fni, 1, 0
  {
    if c.fni < |fns| then
      var c1 := match fns[c.fni]
        case CtxCustom(steps) => RunSteps(cl, fns, steps, c.(fni := c.fni + 1))
        case DoStage => DoWork(cl, c.(fni := c.fni + 1));
      c1.(fni := c1.fni - 1)
    else c
  }

  /** A user middleware's script, one action at a time. */
  function RunSteps(cl: Requester, fns: seq<CtxStage>, steps: seq<Step>, c: Context): (c': Context)
    requires 1 <= c.fni <= |fns|
    ensures CtxKeeps(c, c') && c'.fni == c.fni
    decreases |fns| - c.fni + 1, 0, |steps|
  {
    if |steps| == 0 then c
    else
      match steps[0]
      case SetValue(k, v) => RunSteps(cl, fns, steps[1..], CtxSet(c, k, v))
      case DelValue(k) => RunSteps(cl, fns, steps[1..], CtxDel(c, k))
      case RecordError(e) => RunSteps(cl, fns, steps[1..], CtxError(c, e))
      case CallNext => RunSteps(cl, fns, steps[1..], Next(cl, fns, c))
  }

  /** A middleware that only calls `Next`. */
  const PassThrough: CtxStage := CtxCustom([CallNext])

  /** Middlewares that only call `Next` are invisible: a chain of them
      followed by `do` produces exactly what `do` alone produces. */
  lemma {:induction false} PassThroughThenDo(cl: Requester, fns: seq<CtxStage>, c: Context)
    requires c.fni < |fns| && fns[|fns| - 1] == DoStage
    requires forall j :: c.fni <= j < |fns| - 1 ==> fns[j] == PassThrough
    ensures Next(cl, fns, c) == DoWork(cl, c)
    decreases |fns| - c.fni
  {
    var c' := c.(fni := c.fni + 1);
    if c.fni < |fns| - 1 {
      assert fns[c.fni] == PassThrough;
      PassThroughThenDo(cl, fns, c');
      assert RunSteps(cl, fns, [CallNext], c') == Next(cl, fns, c');
    }
  }

  /** A middleware that never calls `Next` ends the chain: `do` is not run,
      so no response is set, whatever comes after it. */
  lemma {:induction false} StoreOnlyStops(cl: Requester, fns: seq<CtxStage>, steps: seq<Step>, c: Context)
    requires 1 <= c.fni <= |fns| && StoreOnly(steps)
    ensures RunSteps(cl, fns, steps, c) == c.(values := ApplyStore(c.values, steps))
    decreases |steps|
  {
    if |steps| > 0 {
      assert StoreOnly(steps[1..]) by {
        assert forall i :: 0 <= i < |steps| - 1 ==> steps[1..][i] == steps[i + 1];
      }
      match steps[0]
      case SetValue(k, v) => StoreOnlyStops(cl, fns, steps[1..], CtxSet(c, k, v));
      case DelValue(k) => StoreOnlyStops(cl, fns, steps[1..], CtxDel(c, k));
    }
  }
}
