/** Python's `defaultdict(list)` of handlers, keyed by an event: a map from key to
    the handlers registered under it, in registration order. A key that was never
    looked up reads as the empty list. */
module Registry {

  /** Handlers are opaque callables; the model identifies each by a number. */
  type HandlerId = int

  /** `registry[key]` without the insertion side effect. */
  function Lookup<K, V>(m: map<K, seq<V>>, k: K): seq<V>
  {
    if k in m then m[k] else []
  }

  /** `registry[key].append(v)`: only the list under `k` grows, by one element at
      its end; duplicates are kept. */
  function Register<K(!new), V>(m: map<K, seq<V>>, k: K, v: V): (r: map<K, seq<V>>)
    ensures Lookup(r, k) == Lookup(m, k) + [v]
    ensures forall k' :: k' != k ==> Lookup(r, k') == Lookup(m, k')
    ensures r.Keys == m.Keys + {k}
  {
    m[k := Lookup(m, k) + [v]]
  }

  /** The side effect of reading `registry[key]`: a missing key now maps to the
      empty list and no list changes. */
  function Touch<K(!new), V>(m: map<K, seq<V>>, k: K): (r: map<K, seq<V>>)
    ensures forall k' :: Lookup(r, k') == Lookup(m, k')
    ensures r.Keys == m.Keys + {k}
  {
    if k in m then m else m[k := []]
  }
}
