/** Vocabulary shared by the four ledger variants: optional values, raised
    exceptions, hexadecimal digests and dictionary lookups with a default. */
module Common {

  datatype Option<T> = None | Some(value: T)

  /** The exceptions the ledger code raises on its error paths. */
  datatype Exception = IndexError | ValueError | TypeError

  /** The result of an operation that either returns a value or raises. */
  datatype Outcome<T> = Ok(value: T) | Raised(exception: Exception)

  /** A hexadecimal SHA-256 digest, as `hexdigest()` returns it. */
  type Digest = string

  /** `'0' * n` */
  function Zeros(n: nat): (z: string)
    ensures |z| == n
    ensures forall i :: 0 <= i < n ==> z[i] == '0'
  {
    if n == 0 then "" else Zeros(n - 1) + "0"
  }

  /** `digest.startswith('0' * n)`: the proof-of-work difficulty predicate. */
  predicate StartsWithZeros(digest: Digest, n: nat) {
    Zeros(n) <= digest
  }

  /** The difficulty predicate read character by character: a digest meets
      difficulty `n` exactly when it is at least `n` long and its first `n`
      characters are all '0'. */
  lemma StartsWithZerosIff(digest: Digest, n: nat)
    ensures StartsWithZeros(digest, n) <==>
              n <= |digest| && forall i :: 0 <= i < n ==> digest[i] == '0'
  {
    if n <= |digest| && forall i :: 0 <= i < n ==> digest[i] == '0' {
      assert digest[..n] == Zeros(n);
    }
  }

  /** `d.get(k, 0)` on a dictionary of amounts. */
  function Get<K>(m: map<K, int>, k: K): int {
    if k in m then m[k] else 0
  }
}
