/**
 * Immutable strings (shared by strings, symbols and keywords): built by
 * `begin`/`end` or in one step from a byte range, with the length and the
 * djb2 hash cached in the header, compared bytewise and for equality
 * with an identity fast path and a hash-and-length pre-check.
 */
module FString {
  import opened Values
  import opened Djb2
  import Memory

  function Sign(x: int): int {
    if x < 0 then -1 else if x > 0 then 1 else 0
  }

  /** `memcmp(a, b, n)`: the difference of the first differing bytes, read
      unsigned, or 0 when the first n bytes agree. */
  function MemCmp(a: seq<bv8>, b: seq<bv8>, n: nat): (r: int)
    requires n <= |a| && n <= |b|
    ensures r == 0 <==> a[..n] == b[..n]
    decreases n
  {
    if n == 0 then 0
    else if a[0] != b[0] then a[0] as int - b[0] as int
    else
      var r := MemCmp(a[1..], b[1..], n - 1);
      assert a[..n] == [a[0]] + a[1..][..n - 1];
      assert b[..n] == [b[0]] + b[1..][..n - 1];
      r
  }

  /** `memcmp` decides on the first byte where the ranges differ. */
  lemma {:induction false} MemCmpFirstDifference(a: seq<bv8>, b: seq<bv8>, n: nat, i: nat)
    requires i < n <= |a| && n <= |b|
    requires a[..i] == b[..i] && a[i] != b[i]
    ensures MemCmp(a, b, n) == a[i] as int - b[i] as int
    decreases i
  {
    if i > 0 {
      assert a[0] == a[..i][0] && b[0] == b[..i][0];
      assert a[1..][..i - 1] == a[..i][1..] && b[1..][..i - 1] == b[..i][1..];
      MemCmpFirstDifference(a[1..], b[1..], n - 1, i - 1);
    }
  }

  /** Swapping the operands of `memcmp` negates its result. */
  lemma {:induction false} MemCmpAntisymmetric(a: seq<bv8>, b: seq<bv8>, n: nat)
    requires n <= |a| && n <= |b|
    ensures MemCmp(b, a, n) == -MemCmp(a, b, n)
    decreases n
  {
    if n > 0 && a[0] == b[0] {
      MemCmpAntisymmetric(a[1..], b[1..], n - 1);
    }
  }

  /** What three comparison results, of x with y, of y with z and of x
      with z, must satisfy for the order they come from to be transitive:
      two steps that do not go up do not go up, a strict step makes the
      whole strict, and two level steps are level. */
  predicate Chains(xy: int, yz: int, xz: int) {
    && (xy <= 0 && yz <= 0 ==> xz <= 0)
    && (xy < 0 && yz <= 0 ==> xz < 0)
    && (xy <= 0 && yz < 0 ==> xz < 0)
    && (xy == 0 && yz == 0 ==> xz == 0)
  }

  /** Lexicographic order on byte strings, bytes read unsigned and a proper
      prefix first, as -1, 0 or 1. */
  function LexCompare(x: seq<bv8>, y: seq<bv8>): (r: int)
    ensures r == -1 || r == 0 || r == 1
    ensures r == 0 <==> x == y
    decreases |x|
  {
    if x == [] then (if y == [] then 0 else -1)
    else if y == [] then 1
    else if x[0] as int < y[0] as int then -1
    else if x[0] as int > y[0] as int then 1
    else
      var r := LexCompare(x[1..], y[1..]);
      assert x == [x[0]] + x[1..] && y == [y[0]] + y[1..];
      r
  }

  /** `memcmp` over the common length of two byte strings decides their
      lexicographic order when it is not 0; otherwise the lengths do. */
  lemma {:induction false} MemCmpLex(x: seq<bv8>, y: seq<bv8>, n: nat)
    requires n <= |x| && n <= |y| && (n == |x| || n == |y|)
    ensures LexCompare(x, y) == if MemCmp(x, y, n) != 0 then Sign(MemCmp(x, y, n)) else Sign(|x| - |y|)
    decreases n
  {
    if n > 0 && x[0] == y[0] {
      MemCmpLex(x[1..], y[1..], n - 1);
    }
  }

  /** Lexicographic order is transitive. */
  lemma {:induction false} LexCompareTransitive(x: seq<bv8>, y: seq<bv8>, z: seq<bv8>)
    ensures Chains(LexCompare(x, y), LexCompare(y, z), LexCompare(x, z))
    decreases |x|
  {
    if x != [] && y != [] && z != [] && x[0] == y[0] && y[0] == z[0] {
      LexCompareTransitive(x[1..], y[1..], z[1..]);
    }
  }

  /** `fenn_string_compare`: bytewise over the common length, then the
      shorter string first. The sign of the result is the lexicographic
      order of the contents. */
  function StringCompare(lhs: StringObj, rhs: StringObj): (r: int)
    ensures Sign(r) == LexCompare(lhs.data, rhs.data)
  {
    var xlen := |lhs.data|;
    var ylen := |rhs.data|;
    var len := if xlen > ylen then ylen else xlen;
    MemCmpLex(lhs.data, rhs.data, len);
    var res := MemCmp(lhs.data, rhs.data, len);
    if res != 0 then res
    else if xlen == ylen then 0
    else if xlen < ylen then -1
    else 1
  }

  /** String comparison is transitive. */
  lemma StringCompareTransitive(a: StringObj, b: StringObj, c: StringObj)
    ensures Chains(StringCompare(a, b), StringCompare(b, c), StringCompare(a, c))
  {
    LexCompareTransitive(a.data, b.data, c.data);
  }

  /** Comparison is 0 exactly for equal contents. */
  lemma StringCompareZero(lhs: StringObj, rhs: StringObj)
    ensures StringCompare(lhs, rhs) == 0 <==> lhs.data == rhs.data
  {
    var n := if |lhs.data| > |rhs.data| then |rhs.data| else |lhs.data|;
    if |lhs.data| == |rhs.data| {
      assert lhs.data[..n] == lhs.data && rhs.data[..n] == rhs.data;
    }
  }

  /** A strict prefix compares below the string it begins. */
  lemma StringComparePrefix(lhs: StringObj, rhs: StringObj)
    requires |lhs.data| < |rhs.data| && lhs.data == rhs.data[..|lhs.data|]
    ensures StringCompare(lhs, rhs) == -1
  {
    assert lhs.data[..|lhs.data|] == lhs.data;
  }

  /** Otherwise the first differing byte decides, compared unsigned. */
  lemma StringCompareFirstDifference(lhs: StringObj, rhs: StringObj, i: nat)
    requires i < |lhs.data| && i < |rhs.data|
    requires lhs.data[..i] == rhs.data[..i] && lhs.data[i] != rhs.data[i]
    ensures Sign(StringCompare(lhs, rhs)) == Sign(lhs.data[i] as int - rhs.data[i] as int)
  {
    var n := if |lhs.data| > |rhs.data| then |rhs.data| else |lhs.data|;
    MemCmpFirstDifference(lhs.data, rhs.data, n, i);
    assert lhs.data[..n] != rhs.data[..n] by {
      assert lhs.data[..n][i] != rhs.data[..n][i];
    }
  }

  /** Swapping the operands negates the comparison. */
  lemma StringCompareAntisymmetric(lhs: StringObj, rhs: StringObj)
    ensures StringCompare(rhs, lhs) == -StringCompare(lhs, rhs)
  {
    var n := if |lhs.data| > |rhs.data| then |rhs.data| else |lhs.data|;
    MemCmpAntisymmetric(lhs.data, rhs.data, n);
  }

  /** `fenn_string_equalconst`: compares a string with `rlen` bytes of
      memory at address `rhsAddr` whose hash is claimed to be `rhash`. The
      same address answers yes at once; a different hash or length answers
      no; otherwise the bytes decide. */
  function EqualConst(lhs: StringObj, rhsAddr: Addr, rhs: seq<bv8>, rlen: int, rhash: bv32): (r: bool)
    requires lhs.addr == rhsAddr || lhs.hash != rhash || |lhs.data| != rlen || rlen <= |rhs|
    ensures lhs.addr == rhsAddr ==> r
    ensures lhs.addr != rhsAddr && (lhs.hash != rhash || |lhs.data| != rlen) ==> !r
    ensures lhs.addr != rhsAddr && lhs.hash == rhash && |lhs.data| == rlen ==> (r <==> lhs.data == rhs[..rlen])
  {
    var lhash := lhs.hash;
    var llen := |lhs.data|;
    if lhs.addr == rhsAddr then true
    else if lhash != rhash || llen != rlen then false
    else
      assert lhs.data[..rlen] == lhs.data;
      MemCmp(lhs.data, rhs, rlen) == 0
  }

  /** `fenn_string_equal`: `EqualConst` against another string object. The
      same object is equal to itself; two objects at different addresses are
      equal exactly when their cached hashes and their contents agree. */
  function StringEqual(lhs: StringObj, rhs: StringObj): (r: bool)
    ensures lhs.addr == rhs.addr ==> r
    ensures lhs.addr != rhs.addr ==> (r <==> lhs.hash == rhs.hash && lhs.data == rhs.data)
  {
    assert rhs.data[..|rhs.data|] == rhs.data;
    EqualConst(lhs, rhs.addr, rhs.data, |rhs.data|, rhs.hash)
  }

  /** The hash of a string built by `end` or in one step. */
  ghost predicate Finished(s: StringObj) {
    s.hash == StringHash(s.data)
  }

  /** For finished strings, where one address holds one string, equality is
      equality of contents. */
  lemma StringEqualContents(lhs: StringObj, rhs: StringObj)
    requires Finished(lhs) && Finished(rhs)
    requires lhs.addr == rhs.addr ==> lhs == rhs
    ensures StringEqual(lhs, rhs) <==> lhs.data == rhs.data
  {
    assert rhs.data[..|rhs.data|] == rhs.data;
  }

  /** Equality is symmetric. */
  lemma StringEqualSymmetric(lhs: StringObj, rhs: StringObj)
    ensures StringEqual(lhs, rhs) == StringEqual(rhs, lhs)
  {
    assert rhs.data[..|rhs.data|] == rhs.data;
    assert lhs.data[..|lhs.data|] == lhs.data;
  }

  /**
   * The header and storage of a string under construction or finished:
   * `length` bytes followed by a NUL, and the cached hash. The address is
   * the one the allocator returned for the data.
   */
  class StringHead {
    const addr: Addr
    var length: int
    var hash: bv32
    var data: array<bv8>

    ghost predicate Valid()
      reads this, data
    {
      0 <= length && data.Length == length + 1 && data[length] == 0
    }

    /** The string object this header currently describes. */
    function View(): StringObj
      reads this, data
      requires Valid()
    {
      StringObj(addr, hash, data[..length])
    }

    /** `fenn_string_begin(length)`: zeroed storage (the allocator zeroes)
        of the given length, NUL-terminated, hash not yet computed. */
    constructor Begin(length: int, addr: Addr)
      requires 0 <= length
      ensures Valid() && fresh(data)
      ensures this.length == length && this.addr == addr && hash == 0
      ensures forall i :: 0 <= i <= length ==> data[i] == 0
    {
      this.addr := addr;
      this.length := length;
      this.hash := 0;
      this.data := new bv8[length + 1](_ => 0);
      new;
      data[length] := 0;
    }

    /** `fenn_string_end`: caches the hash of the contents written so far,
        leaving the contents as they are. */
    method End()
      requires Valid()
      modifies this`hash
      ensures Valid() && Finished(View())
      ensures View().data == old(View().data)
    {
      hash := CalcStringHash(data[..], length);
      assert data[..][..length] == data[..length];
    }

    /** `fenn_string(buf, len)`: copies len bytes, NUL-terminates and caches
        their hash. */
    static method FromBytes(buf: seq<bv8>, len: int, addr: Addr) returns (s: StringHead)
      requires 0 <= len <= |buf|
      ensures fresh(s) && fresh(s.data) && s.Valid()
      ensures s.addr == addr && s.length == len
      ensures s.View().data == buf[..len] && Finished(s.View())
    {
      s := new StringHead.Begin(len, addr);
      s.hash := CalcStringHash(buf, len);
      forall i | 0 <= i < len {
        s.data[i] := buf[i];
      }
      s.data[len] := 0;
    }

    /** `fenn_cstring(str)`: the bytes of a C string up to its NUL. */
    static method FromCString(str: seq<bv8>, addr: Addr) returns (s: StringHead)
      requires 0 in str
      ensures fresh(s) && fresh(s.data) && s.Valid() && s.addr == addr
      ensures s.length == Memory.CStringLength(str)
      ensures s.View().data == str[..s.length] && Finished(s.View())
    {
      var len := Memory.StrLen(str);
      s := FromBytes(str, len, addr);
    }
  }
}
