/**
 * The two C library services the value layer leans on: `realloc`, which
 * moves a block to new storage of a given size keeping the common prefix,
 * and the scan for the NUL that ends a C string (`strlen`, and the
 * hand-written loop in `fenn_buffer_push_cstring`). Allocation is assumed
 * to succeed.
 */
module Memory {

  /** `realloc(a, n)`: fresh storage of n elements whose first min(n, old
      length) elements are those of a. The rest is unspecified in C; here it
      holds `filler`. */
  method Realloc<T>(a: array<T>, n: nat, filler: T) returns (b: array<T>)
    ensures fresh(b) && b.Length == n
    ensures forall i :: 0 <= i < n && i < a.Length ==> b[i] == a[i]
  {
    b := new T[n](_ => filler);
    var i := 0;
    while i < n && i < a.Length
      invariant 0 <= i <= n
      invariant forall j :: 0 <= j < i && j < a.Length ==> b[j] == a[j]
    {
      b[i] := a[i];
      i := i + 1;
    }
  }

  /** The length of the C string held in s: the index of its first NUL. */
  function CStringLength(s: seq<bv8>): (n: nat)
    requires 0 in s
    ensures n < |s| && s[n] == 0 && 0 !in s[..n]
  {
    if s[0] == 0 then 0 else 1 + CStringLength(s[1..])
  }

  /** Counts the bytes before the first NUL. */
  method StrLen(s: seq<bv8>) returns (n: nat)
    requires 0 in s
    ensures n < |s| && s[n] == 0 && 0 !in s[..n]
  {
    n := 0;
    while s[n] != 0
      invariant n < |s| && 0 !in s[..n]
      decreases |s| - n
    {
      assert s[..n + 1] == s[..n] + [s[n]];
      n := n + 1;
    }
  }
}
