/** Ruby values that may be `nil`, and reading a Ruby Hash with `[]`. */
module RubyHash {

  /** A Ruby value: `nil`, or some other object. */
  datatype Nilable<+T> = Nil | Present(value: T)

  /** `m[k]` on a Ruby Hash whose stored values may themselves be `nil`: the
      value stored under `k` (which may be `nil`), or `nil` when `k` is
      absent, so a missing key and a key holding `nil` read alike. */
  function Index<K, V>(m: map<K, Nilable<V>>, k: K): (r: Nilable<V>)
    ensures k in m ==> r == m[k]
    ensures k !in m ==> r == Nil
    ensures r.Present? ==> k in m
  {
    if k in m then m[k] else Nil
  }
}
