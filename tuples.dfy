/**
 * Tuple objects in the heap: a header (length, cached hash, source range)
 * and a fixed run of values. `Begin` allocates, the parser writes the
 * elements, `End` caches the hash; equality may later fill in a hash that
 * still reads 0.
 */
module Tuples {
  import opened Values
  import opened Algebra

  class TupleHead {
    const addr: Addr
    var length: int
    var hash: bv32
    var smStart: int
    var smStartLine: int
    var smStartCol: int
    var smEnd: int
    var smEndLine: int
    var smEndCol: int
    var data: array<Value>

    ghost predicate Valid()
      reads this
    {
      length == data.Length
    }

    /** The tuple object this header currently describes. */
    function View(): TupleObj
      reads this, data
    {
      TupleObj(addr, hash, data[..])
    }

    /** `fenn_tuple_begin(length)`: zeroed storage, so every element reads
        as the number +0.0 and the hash as "not computed"; both ends of the
        source range are -1. */
    constructor Begin(length: nat, addr: Addr)
      ensures Valid() && fresh(data)
      ensures this.addr == addr && this.length == length && hash == 0
      ensures smStart == -1 && smEnd == -1
      ensures smStartLine == 0 && smStartCol == 0 && smEndLine == 0 && smEndCol == 0
      ensures forall i :: 0 <= i < length ==> data[i] == Number(0)
    {
      this.addr := addr;
      this.length := length;
      this.hash := 0;
      this.smStart := -1;
      this.smStartLine := 0;
      this.smStartCol := 0;
      this.smEnd := -1;
      this.smEndLine := 0;
      this.smEndCol := 0;
      this.data := new Value[length](_ => Number(0));
    }

    /** `fenn_tuple_end`: caches the hash of the elements, which stay as
        they are. */
    method End()
      requires Valid()
      modifies this`hash
      ensures Valid() && TupleFinished(View())
      ensures View().elems == old(View().elems)
    {
      hash := CalcArrayHash(data, length);
      assert data[..length] == data[..];
    }

    /** `fenn_tuple_n(values, n)`: a finished tuple holding the first n
        values. */
    static method N(values: seq<Value>, n: nat, addr: Addr) returns (t: TupleHead)
      requires n <= |values|
      ensures fresh(t) && fresh(t.data) && t.Valid()
      ensures t.addr == addr && t.length == n && t.smStart == -1 && t.smEnd == -1
      ensures t.View().elems == values[..n] && TupleFinished(t.View())
    {
      t := new TupleHead.Begin(n, addr);
      forall i | 0 <= i < n {
        t.data[i] := values[i];
      }
      assert t.data[..] == values[..n];
      t.End();
    }

    /** `fenn_tuple_equal`: first replaces a cached hash of 0 on either side
        by the recomputed one, then decides as `TupleEqual` does on the
        tuples as they were. Nothing but the two hashes changes. */
    static method Equal(lhs: TupleHead, rhs: TupleHead) returns (r: bool)
      requires lhs.Valid() && rhs.Valid()
      modifies lhs`hash, rhs`hash
      ensures r == TupleEqual(old(lhs.View()), old(rhs.View()))
      ensures lhs.hash == EffectiveHash(old(lhs.View()))
      ensures rhs.hash == EffectiveHash(old(rhs.View()))
    {
      ghost var a := lhs.View();
      ghost var b := rhs.View();
      var llen := lhs.length;
      var rlen := rhs.length;
      var ldata := lhs.data;
      var rdata := rhs.data;
      var lhash := lhs.hash;
      var rhash := rhs.hash;
      assert ldata[..llen] == a.elems && rdata[..rlen] == b.elems;
      if lhash == 0 {
        lhash := CalcArrayHash(ldata, llen);
        lhs.hash := lhash;
      }
      if rhash == 0 {
        rhash := CalcArrayHash(rdata, rlen);
        rhs.hash := rhash;
      }
      assert lhash == EffectiveHash(a) && rhash == EffectiveHash(b);
      if lhash != rhash {
        return false;
      }
      if llen != rlen {
        return false;
      }
      var index := 0;
      while index < llen
        invariant 0 <= index <= llen
        invariant ElementsEqual(a, b, index) == ElementsEqual(a, b, 0)
      {
        if !Equals(ldata[index], rdata[index]) {
          return false;
        }
        index := index + 1;
      }
      return true;
    }

    /** `fenn_tuple_compare`: reads both tuples and changes nothing. */
    static method Compare(lhs: TupleHead, rhs: TupleHead) returns (r: int)
      requires lhs.Valid() && rhs.Valid()
      ensures r == TupleCompare(lhs.View(), rhs.View())
    {
      ghost var a := lhs.View();
      ghost var b := rhs.View();
      var llen := lhs.length;
      var rlen := rhs.length;
      var count := if llen < rlen then llen else rlen;
      var i := 0;
      while i < count
        invariant 0 <= i <= count
        invariant ElementsCompare(a, b, i) == ElementsCompare(a, b, 0)
      {
        var comp := Algebra.Compare(lhs.data[i], rhs.data[i]);
        if comp != 0 {
          return comp;
        }
        i := i + 1;
      }
      if llen < rlen {
        return -1;
      } else if llen > rlen {
        return 1;
      }
      return 0;
    }
  }
}
