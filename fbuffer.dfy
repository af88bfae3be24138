/**
 * The growable byte buffer: `count` bytes in use out of `capacity`
 * allocated, both 32-bit signed. Growth goes through `ensure` (a requested
 * size times a growth factor) or `extra` (twice the size needed); every
 * append goes through `extra`.
 */
module FBuffer {
  import opened Values
  import Memory

  const INT32_MIN: int := -0x8000_0000
  const INT32_MAX: int := 0x7FFF_FFFF

  predicate IsInt32(x: int) {
    INT32_MIN <= x <= INT32_MAX
  }

  /** Two's-complement wrap-around of an int32 product or sum that
      overflows, which is what the machine does with it. */
  function Wrap32(x: int): (r: int)
    ensures IsInt32(r)
    ensures IsInt32(x) ==> r == x
  {
    (x - INT32_MIN) % 0x1_0000_0000 + INT32_MIN
  }

  function Max0(x: int): nat {
    if x > 0 then x else 0
  }

  /* ---------------------------------------------------- growth policies */

  /** The capacity `fenn_buffer_ensure` asks for, as written: the product is
      formed in int32 before it is widened, so the clamp never fires. */
  function GrownCapacityAsWritten(request: int, growth: int): (r: int)
    requires IsInt32(request) && IsInt32(growth)
    ensures r == Wrap32(request * growth)
  {
    var big := Wrap32(request * growth);
    if big > INT32_MAX then INT32_MAX else big
  }

  /** The capacity `fenn_buffer_ensure` evidently means: the product formed
      in 64 bits, clamped to the largest int32. */
  function GrownCapacity(request: int, growth: int): (r: int)
    requires IsInt32(request) && IsInt32(growth)
    ensures IsInt32(r)
    ensures 0 <= request && 1 <= growth ==> request <= r
    ensures INT32_MIN <= request * growth <= INT32_MAX ==> r == request * growth
  {
    var big := request * growth;
    assert 0 <= request && 1 <= growth ==> request <= big by {
      if 0 <= request && 1 <= growth {
        ProductAtLeast(request, growth);
      }
    }
    if big > INT32_MAX then INT32_MAX else if big < INT32_MIN then INT32_MIN else big
  }

  /** A growth factor of at least 1 does not shrink a request. */
  lemma {:induction false} ProductAtLeast(a: nat, b: nat)
    requires 1 <= b
    ensures a <= a * b
    decreases b
  {
    if b > 1 {
      ProductAtLeast(a, b - 1);
      assert a * b == a * (b - 1) + a;
    }
  }

  /** With a request of 2^30 and a growth factor of 2 the int32 product
      wraps to -2^31: the buffer would shrink below the request, while the
      64-bit product clamps to the largest int32. */
  lemma EnsureProductOverflow()
    ensures GrownCapacityAsWritten(0x4000_0000, 2) == INT32_MIN
    ensures GrownCapacity(0x4000_0000, 2) == INT32_MAX
  {
  }

  /** The capacity `fenn_buffer_extra` asks for, as written: twice the
      needed size, doubled in int32. */
  function ExtraCapacityAsWritten(size: int): (r: int)
    requires IsInt32(size)
    ensures IsInt32(r)
    ensures IsInt32(2 * size) ==> r == 2 * size
    ensures 2 * size > INT32_MAX ==> r < 0
  {
    Wrap32(size * 2)
  }

  /** The capacity `fenn_buffer_extra` evidently means: the `ensure`
      policy with a growth factor of 2. */
  function ExtraCapacity(size: int): (r: int)
    requires IsInt32(size)
    ensures IsInt32(r)
    ensures 0 <= size ==> size <= r
    ensures IsInt32(2 * size) ==> r == 2 * size
  {
    GrownCapacity(size, 2)
  }

  /** A buffer holding 2^30 bytes that needs one more would be given a
      negative capacity. */
  lemma ExtraDoublingOverflow()
    ensures ExtraCapacityAsWritten(0x4000_0000) == INT32_MIN
    ensures ExtraCapacity(0x4000_0000) == INT32_MAX
  {
  }

  /* ------------------------------------------------- little-endian bytes */

  /** The two bytes of x, least significant first. */
  function Le16(x: bv16): seq<bv8> {
    [(x & 0xFF) as bv8, ((x >> 8) & 0xFF) as bv8]
  }

  /** The four bytes of x, least significant first. */
  function Le32(x: bv32): seq<bv8> {
    [(x & 0xFF) as bv8, ((x >> 8) & 0xFF) as bv8, ((x >> 16) & 0xFF) as bv8, ((x >> 24) & 0xFF) as bv8]
  }

  /** The eight bytes of x, least significant first. */
  function Le64(x: bv64): seq<bv8> {
    [(x & 0xFF) as bv8, ((x >> 8) & 0xFF) as bv8, ((x >> 16) & 0xFF) as bv8, ((x >> 24) & 0xFF) as bv8,
     ((x >> 32) & 0xFF) as bv8, ((x >> 40) & 0xFF) as bv8, ((x >> 48) & 0xFF) as bv8, ((x >> 56) & 0xFF) as bv8]
  }

  /** Two bytes read as a little-endian number. */
  function ReadU16(s: seq<bv8>): bv16
    requires |s| == 2
  {
    (s[0] as bv16) | ((s[1] as bv16) << 8)
  }

  /** Four bytes read as a little-endian number. */
  function ReadU32(s: seq<bv8>): bv32
    requires |s| == 4
  {
    (s[0] as bv32) | ((s[1] as bv32) << 8) | ((s[2] as bv32) << 16) | ((s[3] as bv32) << 24)
  }

  /** Eight bytes read as a little-endian number. */
  function ReadU64(s: seq<bv8>): bv64
    requires |s| == 8
  {
    (s[0] as bv64) | ((s[1] as bv64) << 8) | ((s[2] as bv64) << 16) | ((s[3] as bv64) << 24)
    | ((s[4] as bv64) << 32) | ((s[5] as bv64) << 40) | ((s[6] as bv64) << 48) | ((s[7] as bv64) << 56)
  }

  /** Writing a number out and reading it back gives the number, and every
      run of bytes of the width is the encoding of exactly one number. */
  lemma Le16Bijective(x: bv16, s: seq<bv8>)
    requires |s| == 2
    ensures ReadU16(Le16(x)) == x && Le16(ReadU16(s)) == s
  {
  }

  lemma Le32Bijective(x: bv32, s: seq<bv8>)
    requires |s| == 4
    ensures ReadU32(Le32(x)) == x && Le32(ReadU32(s)) == s
  {
  }

  lemma Le64Bijective(x: bv64, s: seq<bv8>)
    requires |s| == 8
    ensures ReadU64(Le64(x)) == x && Le64(ReadU64(s)) == s
  {
  }

  /* ---------------------------------------------------------- the buffer */

  class Buffer {
    var count: int
    var capacity: int
    var data: array<bv8>

    /** No storage is held (the pointer is NULL) while the capacity is not
        positive. */
    ghost predicate Valid()
      reads this
    {
      IsInt32(capacity) && 0 <= count <= data.Length && data.Length == Max0(capacity)
    }

    /** The bytes in use. */
    function Contents(): seq<bv8>
      reads this, data
      requires Valid()
    {
      data[..count]
    }

    /** `fenn_buffer(capacity)`: a fresh, empty buffer. */
    constructor (capacity: int)
      requires IsInt32(capacity)
      ensures Valid() && fresh(data)
      ensures count == 0 && this.capacity == capacity
    {
      count := 0;
      this.capacity := capacity;
      data := new bv8[Max0(capacity)](_ => 0);
    }

    /** `fenn_buffer_init(buffer, capacity)`: empties the buffer and gives it
        fresh storage of the requested capacity. */
    method Init(capacity: int)
      requires IsInt32(capacity)
      modifies this
      ensures Valid() && fresh(data)
      ensures count == 0 && this.capacity == capacity && data.Length == Max0(capacity)
    {
      data := new bv8[Max0(capacity)](_ => 0);
      count := 0;
      this.capacity := capacity;
    }

    /** `fenn_buffer_ensure(buffer, request, growth)`: nothing happens when
        the request fits; otherwise the storage is reallocated to the grown
        capacity. A non-negative request then fits. */
    method Ensure(request: int, growth: int)
      requires Valid() && IsInt32(request) && IsInt32(growth)
      requires request <= capacity || 1 <= growth
      modifies this
      ensures Valid() && count == old(count)
      ensures 0 <= request ==> request <= capacity
      ensures Contents() == old(Contents()) && old(data[..]) <= data[..]
      ensures request <= old(capacity) ==> capacity == old(capacity) && data == old(data)
      ensures request > old(capacity) ==> capacity == GrownCapacity(request, growth) && fresh(data)
    {
      if request <= capacity {
        return;
      }
      var newCapacity := GrownCapacity(request, growth);
      data := Memory.Realloc(data, Max0(newCapacity), 0);
      capacity := newCapacity;
    }

    /** `fenn_buffer_setcount(buffer, n)`: a negative n does nothing;
        otherwise the buffer holds n bytes, newly exposed ones zeroed, and
        shrinking keeps the storage. */
    method SetCount(n: int)
      requires Valid() && IsInt32(n)
      modifies this, data
      ensures Valid()
      ensures n < 0 ==> count == old(count) && capacity == old(capacity) && data == old(data)
      ensures n < 0 || n <= old(count) ==> capacity == old(capacity) && data == old(data) && data[..] == old(data[..])
      ensures n >= 0 ==> count == n
      ensures 0 <= n <= old(count) ==> Contents() == old(Contents())[..n]
      ensures n > old(count) ==> Contents() == old(Contents()) + seq(n - old(count), _ => 0)
      ensures n > old(count) && n > old(capacity) ==> capacity == GrownCapacity(n, 1)
      ensures !(n > old(count) && n > old(capacity)) ==> capacity == old(capacity)
    {
      if n < 0 {
        return;
      }
      if n > count {
        var oldcount := count;
        ghost var before := data[..count];
        Ensure(n, 1);
        assert data[..oldcount] == before;
        forall i | oldcount <= i < n {
          data[i] := 0;
        }
        assert data[..n] == before + seq(n - oldcount, _ => 0);
      }
      count := n;
    }

    /** `fenn_buffer_extra(buffer, n)`: makes room for n more bytes. The
        source's check that `count + n` fits in int32 is empty, so that is
        left to the caller. */
    method Extra(n: int)
      requires Valid() && IsInt32(n) && IsInt32(count + n)
      modifies this
      ensures Valid() && count == old(count)
      ensures 0 <= n ==> count + n <= capacity
      ensures Contents() == old(Contents()) && old(data[..]) <= data[..]
      ensures old(count) + n <= old(capacity) ==> capacity == old(capacity) && data == old(data)
      ensures old(count) + n > old(capacity) ==> capacity == ExtraCapacity(old(count) + n) && fresh(data)
    {
      var newSize := count + n;
      if newSize > capacity {
        var newCapacity := ExtraCapacity(newSize);
        data := Memory.Realloc(data, Max0(newCapacity), 0);
        capacity := newCapacity;
      }
    }

    /** `fenn_buffer_push_bytes(buffer, bytes, length)`: appends the first
        `length` bytes. */
    method PushBytes(bytes: seq<bv8>, length: int)
      requires Valid() && 0 <= length <= |bytes| && IsInt32(count + length)
      modifies this, data
      ensures Valid() && Contents() == old(Contents()) + bytes[..length]
      ensures old(count) + length <= old(capacity) ==> capacity == old(capacity) && data == old(data)
      ensures old(count) + length > old(capacity) ==> capacity == ExtraCapacity(old(count) + length)
    {
      ghost var before := Contents();
      Extra(length);
      assert data[..count] == before;
      forall i | 0 <= i < length {
        data[count + i] := bytes[i];
      }
      assert data[..count + length] == before + bytes[..length];
      count := count + length;
    }

    /** `fenn_buffer_push_cstring(buffer, cstring)`: appends the bytes
        before the first NUL. */
    method PushCString(cstring: seq<bv8>)
      requires Valid() && 0 in cstring
      requires IsInt32(count + Memory.CStringLength(cstring))
      modifies this, data
      ensures Valid() && Contents() == old(Contents()) + cstring[..Memory.CStringLength(cstring)]
      ensures 0 !in Contents()[old(count)..]
      ensures old(count) + Memory.CStringLength(cstring) <= old(capacity) ==> capacity == old(capacity)
      ensures old(count) + Memory.CStringLength(cstring) > old(capacity) ==> capacity == ExtraCapacity(old(count) + Memory.CStringLength(cstring))
    {
      var len := Memory.StrLen(cstring);
      assert len == Memory.CStringLength(cstring) by {
        CStringLengthUnique(cstring, len);
      }
      PushBytes(cstring, len);
      assert Contents()[old(count)..] == cstring[..len];
    }

    /** `fenn_buffer_push_string(buffer, string)`: appends a string's
        contents. */
    method PushString(s: StringObj)
      requires Valid() && IsInt32(count + |s.data|)
      modifies this, data
      ensures Valid() && Contents() == old(Contents()) + s.data
      ensures old(count) + |s.data| <= old(capacity) ==> capacity == old(capacity)
      ensures old(count) + |s.data| > old(capacity) ==> capacity == ExtraCapacity(old(count) + |s.data|)
    {
      PushBytes(s.data, |s.data|);
      assert s.data[..|s.data|] == s.data;
    }

    /** `fenn_buffer_push_u8(buffer, byte)`. */
    method PushU8(b: bv8)
      requires Valid()
      requires IsInt32(count + 1)
      modifies this, data
      ensures Valid() && Contents() == old(Contents()) + [b]
      ensures old(count) + 1 <= old(capacity) ==> capacity == old(capacity)
      ensures old(count) + 1 > old(capacity) ==> capacity == ExtraCapacity(old(count) + 1)
    {
      ghost var before := Contents();
      Extra(1);
      assert data[..count] == before;
      data[count] := b;
      assert data[..count + 1] == before + [b];
      count := count + 1;
    }

    /** `fenn_buffer_push_u16(buffer, x)`: stores the two bytes of x, least
        significant first, after the contents. */
    method PushU16(x: bv16)
      requires Valid()
      requires IsInt32(count + 2)
      modifies this, data
      ensures Valid() && Contents() == old(Contents()) + Le16(x)
      ensures ReadU16(Contents()[old(count)..]) == x
      ensures old(count) + 2 <= old(capacity) ==> capacity == old(capacity)
      ensures old(count) + 2 > old(capacity) ==> capacity == ExtraCapacity(old(count) + 2)
    {
      ghost var before := Contents();
      Extra(2);
      var bytes := Le16(x);
      forall i | 0 <= i < 2 {
        data[count + i] := bytes[i];
      }
      assert data[..count + 2] == before + bytes;
      count := count + 2;
      Le16Bijective(x, bytes);
    }

    /** `fenn_buffer_push_u32(buffer, x)`: stores the four bytes of x, least
        significant first, after the contents. */
    method PushU32(x: bv32)
      requires Valid()
      requires IsInt32(count + 4)
      modifies this, data
      ensures Valid() && Contents() == old(Contents()) + Le32(x)
      ensures ReadU32(Contents()[old(count)..]) == x
      ensures old(count) + 4 <= old(capacity) ==> capacity == old(capacity)
      ensures old(count) + 4 > old(capacity) ==> capacity == ExtraCapacity(old(count) + 4)
    {
      ghost var before := Contents();
      Extra(4);
      var bytes := Le32(x);
      forall i | 0 <= i < 4 {
        data[count + i] := bytes[i];
      }
      assert data[..count + 4] == before + bytes;
      count := count + 4;
      Le32Bijective(x, bytes);
    }

    /** `fenn_buffer_push_u64(buffer, x)`: stores the eight bytes of x, least
        significant first, after the contents. */
    method PushU64(x: bv64)
      requires Valid()
      requires IsInt32(count + 8)
      modifies this, data
      ensures Valid() && Contents() == old(Contents()) + Le64(x)
      ensures ReadU64(Contents()[old(count)..]) == x
      ensures old(count) + 8 <= old(capacity) ==> capacity == old(capacity)
      ensures old(count) + 8 > old(capacity) ==> capacity == ExtraCapacity(old(count) + 8)
    {
      ghost var before := Contents();
      Extra(8);
      var bytes := Le64(x);
      forall i | 0 <= i < 8 {
        data[count + i] := bytes[i];
      }
      assert data[..count + 8] == before + bytes;
      count := count + 8;
      Le64Bijective(x, bytes);
    }
  }

  /** The first NUL is the only index with a NUL and none before it. */
  lemma CStringLengthUnique(s: seq<bv8>, n: nat)
    requires 0 in s && n < |s| && s[n] == 0 && 0 !in s[..n]
    ensures n == Memory.CStringLength(s)
  {
  }
}
