/** Indexing a list the way the source language does: a negative index counts
    from the end, anything else outside the list is an error. */
module PyList {
  import opened Results

  /** Indices a list of length `n` accepts, negative ones included. */
  predicate ValidIndex(n: nat, k: int) {
    -(n as int) <= k < n
  }

  /** The position a valid index refers to. */
  function Resolve(n: nat, k: int): (j: nat)
    requires ValidIndex(n, k)
    ensures j < n
    ensures 0 <= k ==> j == k
    ensures k < 0 ==> j == n + k
  {
    if k < 0 then n + k else k
  }

  /** `s[k]`, including the wrap-around for negative `k`. */
  function Get<T>(s: seq<T>, k: int): (r: Result<T>)
    ensures r.Ok? <==> ValidIndex(|s|, k)
    ensures r.Err? ==> r.error == IndexOutOfRange
    ensures r.Ok? ==> r.value == s[Resolve(|s|, k)]
  {
    if ValidIndex(|s|, k) then Ok(s[Resolve(|s|, k)]) else Err(IndexOutOfRange)
  }

  /** `[x] * n`: a list of n copies of x. */
  function Repeat<T>(x: T, n: nat): (r: seq<T>)
    ensures |r| == n
    ensures forall i :: 0 <= i < n ==> r[i] == x
  {
    if n == 0 then [] else Repeat(x, n - 1) + [x]
  }
}
