/** Datatypes and small notions shared by every module. */
module Prelude {
  datatype Option<+T> = None | Some(value: T)

  datatype Result<+T, +E> = Ok(value: T) | Err(error: E)

  predicate StartsWith(s: string, prefix: string) {
    |prefix| <= |s| && s[..|prefix|] == prefix
  }

  /** Every entry of `m` is in `n` unchanged. */
  ghost predicate Kept<K, V>(m: map<K, V>, n: map<K, V>) {
    forall k | k in m :: k in n && n[k] == m[k]
  }

  /** Putting a file where none was keeps the others. */
  lemma KeptPut<K, V>(m: map<K, V>, k: K, v: V)
    ensures Kept(m, m)
    ensures k !in m ==> Kept(m, m[k := v])
  {
  }
}
