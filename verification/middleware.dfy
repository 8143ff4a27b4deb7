/** What the two middleware chains (`Request` and `Context`) share: the
    key/value store a middleware reads and writes, and the actions a
    middleware performs. A Go middleware is arbitrary code; here it is a
    script of store updates, recorded errors and calls of `Next`, which is
    everything the chain machinery can observe of it. */
module Middleware {
  import opened Common

  /** The `Values map[string]any` of a request or context. */
  type Store = map<Bytes, Any>

  /** `Get(key)`: the stored value and true if the key is present, Go's nil
      and false otherwise. */
  function Get(s: Store, key: Bytes): (r: (Any, bool))
    ensures r.1 <==> key in s
    ensures r.1 ==> r.0 == s[key]
    ensures !r.1 ==> r.0 == Nil
  {
    if key in s then (s[key], true) else (Nil, false)
  }

  /** `Set(key, val)`: the key maps to the value, overwriting an old one;
      every other key keeps its value. */
  function Set(s: Store, key: Bytes, val: Any): (r: Store)
    ensures Get(r, key) == (val, true)
    ensures forall k :: k != key ==> Get(r, k) == Get(s, k)
    ensures r.Keys == s.Keys + {key}
  {
    s[key := val]
  }

  /** `Del(key)`: only that key disappears; a missing key changes nothing. */
  function Del(s: Store, key: Bytes): (r: Store)
    ensures Get(r, key) == (Nil, false)
    ensures forall k :: k != key ==> Get(r, k) == Get(s, k)
    ensures r.Keys == s.Keys - {key}
    ensures key !in s ==> r == s
  {
    s - {key}
  }

  /** Setting a key twice keeps the last value; deleting after setting
      leaves no trace of the key. */
  lemma SetSetDel(s: Store, key: Bytes, a: Any, b: Any)
    ensures Set(Set(s, key, a), key, b) == Set(s, key, b)
    ensures Del(Set(s, key, a), key) == Del(s, key)
  {
  }

  /** One action of a middleware. */
  datatype Step =
    | SetValue(key: Bytes, val: Any)  // Set(key, val)
    | DelValue(key: Bytes)            // Del(key), or delete on the exported map
    | RecordError(err: Error)         // Error(err)
    | CallNext                        // Next()

  /** A script that only touches the store. */
  predicate StoreOnly(steps: seq<Step>) {
    forall i :: 0 <= i < |steps| ==> steps[i].SetValue? || steps[i].DelValue?
  }

  /** The store after the store updates of a script. */
  function ApplyStore(s: Store, steps: seq<Step>): Store
    requires StoreOnly(steps)
    decreases |steps|
  {
    if |steps| == 0 then s
    else
      match steps[0]
      case SetValue(k, v) => ApplyStore(Set(s, k, v), steps[1..])
      case DelValue(k) => ApplyStore(Del(s, k), steps[1..])
  }
}
