/**
 * The djb2 hash used for strings and for tuples: start at 5381 and, for
 * each element, multiply by 33 and add the element, all modulo 2^32.
 */
module Djb2 {

  const SEED: bv32 := 5381

  /** One round: `(hash << 5) + hash + x`, that is hash * 33 + x modulo
      2^32. */
  function Step(h: bv32, x: bv32): bv32 {
    (h << 5) + h + x
  }

  /** Folds `Step` over s from the left, starting at h, with f giving the
      word each element contributes. */
  function HashFrom<T>(h: bv32, s: seq<T>, f: T -> bv32): bv32
    decreases |s|
  {
    if s == [] then h else HashFrom(Step(h, f(s[0])), s[1..], f)
  }

  /** Appending one element costs one more round. */
  lemma {:induction false} HashFromAppend<T>(h: bv32, s: seq<T>, x: T, f: T -> bv32)
    ensures HashFrom(h, s + [x], f) == Step(HashFrom(h, s, f), f(x))
    decreases |s|
  {
    if s == [] {
      assert s + [x] == [x];
      assert [x][1..] == [];
    } else {
      assert (s + [x])[1..] == s[1..] + [x];
      HashFromAppend(Step(h, f(s[0])), s[1..], x, f);
    }
  }

  function ByteWord(b: bv8): bv32 {
    b as bv32
  }

  /** The hash of a byte string (`fenn_string_calchash`, as a function). */
  function StringHash(s: seq<bv8>): bv32 {
    HashFrom(SEED, s, ByteWord)
  }

  /** The empty string hashes to the seed and each byte adds one round. */
  lemma {:induction false} StringHashSnoc(s: seq<bv8>, b: bv8)
    ensures StringHash([]) == SEED
    ensures StringHash(s + [b]) == Step(StringHash(s), b as bv32)
  {
    HashFromAppend(SEED, s, b, ByteWord);
  }

  /** `fenn_string_calchash(str, len)`: a negative length scans nothing. */
  method CalcStringHash(str: seq<bv8>, len: int) returns (h: bv32)
    requires len <= |str|
    ensures h == StringHash(str[..if len < 0 then 0 else len])
  {
    var n := if len < 0 then 0 else len;
    h := SEED;
    var i := 0;
    while i < n
      invariant 0 <= i <= n
      invariant HashFrom(h, str[i..n], ByteWord) == StringHash(str[..n])
    {
      assert str[i..n][1..] == str[i + 1..n];
      h := Step(h, str[i] as bv32);
      i := i + 1;
    }
  }
}
