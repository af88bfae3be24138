/**
 * The kind-dispatched value algebra: strict equality (`fenn_equals`), hashing
 * (`fenn_hash`, `fenn_array_calchash`) and a total comparison
 * (`fenn_compare`), mutually recursive with tuple equality and comparison.
 *
 * Equality and comparison of tuples are stated on snapshots: a tuple's
 * cached hash of 0 is read as "not computed" and replaced by the array hash
 * (the write-back itself is modelled by `Tuples.TupleHead.Equal`).
 */
module Algebra {
  import opened Doubles
  import opened FennValue
  import opened Values
  import opened Djb2
  import opened FString

  /* ---------------------------------------------------------------- hash */

  /** The 64-bit branch of `fenn_hash`: the low word as an int32 shifted
      right by 3 (arithmetically, copying the sign bit), xored with the high
      word. */
  function HashBits(i: bv64): bv32 {
    var low := (i & 0xFFFF_FFFF) as bv32;
    var shifted := (low >> 3) | (if low & 0x8000_0000 != 0 then 0xE000_0000 else 0);
    shifted ^ (i >> 32) as bv32
  }

  /** `fenn_hash` as written: a number, and every kind hashed by its
      pointer, hashes its NaN-boxed word, so +0.0 and -0.0, which are equal,
      hash differently; a boolean hashes its unwrapped bit. */
  function HashAsWritten(v: Value): (r: bv32)
    ensures v.Number? || (v.Ref? && v.rkind != STRUCT) ==> r == HashBits(v.Bits())
    ensures v.Bool? ==> r as bv64 == UnwrapBoolean(v.Bits())
  {
    BitsDecode(v);
    match v
    case Number(x) => HashBits(x)
    case Nil => 0
    case Bool(b) => if b then 1 else 0
    case Str(_, s) => s.hash
    case Tuple(t) => t.hash
    case Ref(k, _) => if k == STRUCT then 0 else HashBits(v.Bits())
  }

  /** `fenn_hash` with a zero of either sign hashed as +0.0, so that values
      `Equals` relates hash alike. Every other kind hashes as written. */
  function Hash(v: Value): (r: bv32)
    ensures !(v.Number? && IsZero(v.bits)) ==> r == HashAsWritten(v)
    ensures v.Number? && IsZero(v.bits) ==> r == 0
  {
    match v
    case Number(x) => if IsZero(x) then 0 else HashBits(x)
    case _ => HashAsWritten(v)
  }

  /** `fenn_array_calchash`, as a function: djb2 over the element hashes,
      each as `fenn_hash` computes it. */
  function ArrayHash(vs: seq<Value>): bv32 {
    HashFrom(SEED, vs, HashAsWritten)
  }

  /** `fenn_array_calchash(array, len)`: a negative length scans nothing. */
  method CalcArrayHash(arr: array<Value>, len: int) returns (h: bv32)
    requires len <= arr.Length
    ensures h == ArrayHash(arr[..if len < 0 then 0 else len])
  {
    var n := if len < 0 then 0 else len;
    h := SEED;
    var i := 0;
    while i < n
      invariant 0 <= i <= n
      invariant HashFrom(h, arr[i..n], HashAsWritten) == ArrayHash(arr[..n])
    {
      assert arr[i..n][1..] == arr[i + 1..n];
      h := Step(h, HashAsWritten(arr[i]));
      i := i + 1;
    }
  }

  /** The hash `fenn_tuple_equal` works with: the cached one, recomputed
      when it reads 0. */
  function EffectiveHash(t: TupleObj): bv32 {
    if t.hash == 0 then ArrayHash(t.elems) else t.hash
  }

  /** A tuple finished by `fenn_tuple_end`: its hash is that of its elements. */
  ghost predicate TupleFinished(t: TupleObj) {
    t.hash == ArrayHash(t.elems)
  }

  /* ------------------------------------------------------------ equality */

  /** `fenn_equals`: different kinds are never equal; strings compare by
      contents, tuples structurally, symbols, keywords and every other heap
      kind by address; structs are never equal (the comparison is a TODO in
      the source). Numbers use the double `==`. */
  function Equals(x: Value, y: Value): (r: bool)
    ensures r ==> x.Kind() == y.Kind()
    ensures x.Kind() == STRUCT ==> !r
    ensures x.Nil? && y.Nil? ==> r
    decreases x, 2
  {
    if x.Kind() != y.Kind() then false
    else
      match (x, y)
      case (Number(a), Number(b)) => Eq(a, b)
      case (Nil, Nil) => true
      case (Bool(a), Bool(b)) => a == b
      case (Str(k, a), Str(_, b)) => if k == STRING then StringEqual(a, b) else a.addr == b.addr
      case (Tuple(a), Tuple(b)) => TupleEqual(a, b)
      case (Ref(k, a), Ref(_, b)) => k != STRUCT && a == b
      case _ => false
  }

  /** `fenn_tuple_equal`: a hash mismatch or a length mismatch answers no
      before any element is looked at. */
  function TupleEqual(a: TupleObj, b: TupleObj): (r: bool)
    ensures r <==> EffectiveHash(a) == EffectiveHash(b) && |a.elems| == |b.elems|
                   && forall j :: 0 <= j < |a.elems| ==> Equals(a.elems[j], b.elems[j])
    decreases Tuple(a), 1
  {
    if EffectiveHash(a) != EffectiveHash(b) then false
    else if |a.elems| != |b.elems| then false
    else ElementsEqual(a, b, 0)
  }

  /** The element loop of `fenn_tuple_equal`, from index i on. */
  function ElementsEqual(a: TupleObj, b: TupleObj, i: nat): (r: bool)
    requires |a.elems| == |b.elems| && i <= |a.elems|
    ensures r <==> forall j :: i <= j < |a.elems| ==> Equals(a.elems[j], b.elems[j])
    decreases Tuple(a), 0, |a.elems| - i
  {
    if i == |a.elems| then true
    else Equals(a.elems[i], b.elems[i]) && ElementsEqual(a, b, i + 1)
  }

  /* ---------------------------------------------------------- comparison */

  /** `fenn_compare` on two numbers: a NaN sorts below every other number
      and level with another NaN. */
  function NumberCompare(a: bv64, b: bv64): (r: int)
    ensures r in {-1, 0, 1}
    ensures IsNaN(a) && IsNaN(b) ==> r == 0
    ensures IsNaN(a) && !IsNaN(b) ==> r == -1
    ensures !IsNaN(a) && IsNaN(b) ==> r == 1
    ensures !IsNaN(a) && !IsNaN(b) ==> (r == 0 <==> Eq(a, b)) && (r == 1 <==> Lt(b, a))
  {
    if IsNaN(a) then (if IsNaN(b) then 0 else -1)
    else if IsNaN(b) then 1
    else if Eq(a, b) then 0
    else if Lt(b, a) then 1
    else -1
  }

  /** `fenn_compare` on two pointers: level when they are one pointer,
      otherwise by address read unsigned. */
  function AddrCompare(a: Addr, b: Addr): (r: int)
    ensures r in {-1, 0, 1} && (r == 0 <==> a == b)
  {
    if a == b then 0 else if a as int > b as int then 1 else -1
  }

  /** Swapping two pointers negates their comparison. */
  lemma AddrCompareAntisymmetric(a: Addr, b: Addr)
    ensures AddrCompare(b, a) == -AddrCompare(a, b)
  {
    UnsignedInjective(a, b);
  }

  /** `fenn_compare`: values of different kinds order by kind tag; nil is
      level with nil; booleans by their bit; strings, symbols and keywords
      bytewise; tuples element by element; every other kind, structs
      included, by address. */
  function Compare(x: Value, y: Value): (r: int)
    ensures x.Kind() != y.Kind() ==> r in {-1, 1} && (r == -1 <==> x.Kind() as int < y.Kind() as int)
    ensures x.Bool? && y.Bool? ==> r in {-1, 0, 1}
    decreases x, 2
  {
    if x.Kind() != y.Kind() then
      if x.Kind() as int < y.Kind() as int then -1 else 1
    else
      match (x, y)
      case (Number(a), Number(b)) => NumberCompare(a, b)
      case (Nil, Nil) => 0
      case (Bool(a), Bool(b)) => (if a then 1 else 0) - (if b then 1 else 0)
      case (Str(_, a), Str(_, b)) => StringCompare(a, b)
      case (Tuple(a), Tuple(b)) => TupleCompare(a, b)
      case (Ref(_, a), Ref(_, b)) => AddrCompare(a, b)
      case _ => 0
  }

  /** `fenn_tuple_compare`: level exactly when the lengths agree and every
      pair of elements compares level. */
  function TupleCompare(a: TupleObj, b: TupleObj): (r: int)
    ensures r == 0 <==> |a.elems| == |b.elems| && forall j :: 0 <= j < |a.elems| ==> Compare(a.elems[j], b.elems[j]) == 0
    decreases Tuple(a), 1
  {
    ElementsCompare(a, b, 0)
  }

  /** The loop of `fenn_tuple_compare` from index i: the first element
      comparison that is not 0 decides; when the shorter tuple runs out the
      lengths decide. */
  function ElementsCompare(a: TupleObj, b: TupleObj, i: nat): (r: int)
    ensures r == 0 <==> |a.elems| == |b.elems| && forall j :: i <= j < |a.elems| ==> Compare(a.elems[j], b.elems[j]) == 0
    decreases Tuple(a), 0, |a.elems| - i
  {
    if i < |a.elems| && i < |b.elems| then
      var c := Compare(a.elems[i], b.elems[i]);
      if c != 0 then c else ElementsCompare(a, b, i + 1)
    else if |a.elems| < |b.elems| then -1
    else if |a.elems| > |b.elems| then 1
    else 0
  }

  /* -------------------------------------------------------------- lemmas */

  /** Equality is symmetric. */
  lemma {:induction false} EqualsSymmetric(x: Value, y: Value)
    ensures Equals(x, y) == Equals(y, x)
    decreases x, 2
  {
    if x.Kind() == y.Kind() {
      match (x, y)
      case (Str(_, a), Str(_, b)) => StringEqualSymmetric(a, b);
      case (Tuple(a), Tuple(b)) => TupleEqualSymmetric(a, b);
      case _ =>
    }
  }

  lemma {:induction false} TupleEqualSymmetric(a: TupleObj, b: TupleObj)
    ensures TupleEqual(a, b) == TupleEqual(b, a)
    decreases Tuple(a), 1
  {
    if |a.elems| == |b.elems| {
      ElementsEqualSymmetric(a, b, 0);
    }
  }

  lemma {:induction false} ElementsEqualSymmetric(a: TupleObj, b: TupleObj, i: nat)
    requires |a.elems| == |b.elems| && i <= |a.elems|
    ensures ElementsEqual(a, b, i) == ElementsEqual(b, a, i)
    decreases Tuple(a), 0, |a.elems| - i
  {
    if i < |a.elems| {
      EqualsSymmetric(a.elems[i], b.elems[i]);
      ElementsEqualSymmetric(a, b, i + 1);
    }
  }

  /** The values that are equal to themselves: no NaN and no struct
      anywhere inside. */
  predicate SelfEqual(v: Value) {
    match v
    case Number(x) => !IsNaN(x)
    case Ref(k, _) => k != STRUCT
    case Tuple(t) => forall j :: 0 <= j < |t.elems| ==> SelfEqual(t.elems[j])
    case _ => true
  }

  /** `fenn_equals(x, x)` holds exactly when x contains no NaN and no struct. */
  lemma {:induction false} EqualsReflexive(x: Value)
    ensures Equals(x, x) <==> SelfEqual(x)
    decreases x, 1
  {
    match x
    case Str(k, s) =>
      assert s.data[..|s.data|] == s.data;
    case Tuple(t) =>
      forall j | 0 <= j < |t.elems|
        ensures Equals(t.elems[j], t.elems[j]) <==> SelfEqual(t.elems[j])
      {
        EqualsReflexive(t.elems[j]);
      }
    case _ =>
  }

  /** Every value compares level with itself, a NaN included. */
  lemma {:induction false} CompareReflexive(x: Value)
    ensures Compare(x, x) == 0
    decreases x, 1
  {
    match x
    case Str(_, s) => StringCompareZero(s, s);
    case Tuple(t) => ElementsCompareReflexive(t, 0);
    case _ =>
  }

  lemma {:induction false} ElementsCompareReflexive(t: TupleObj, i: nat)
    ensures ElementsCompare(t, t, i) == 0
    decreases Tuple(t), 0, |t.elems| - i
  {
    if i < |t.elems| {
      CompareReflexive(t.elems[i]);
      ElementsCompareReflexive(t, i + 1);
    }
  }

  /** Swapping two numbers negates their comparison, NaNs included. */
  lemma NumberCompareAntisymmetric(a: bv64, b: bv64)
    ensures NumberCompare(b, a) == -NumberCompare(a, b)
  {
    if !IsNaN(a) && !IsNaN(b) {
      Trichotomy(a, b);
    }
  }

  /** Swapping the operands negates the comparison. */
  lemma {:induction false} CompareAntisymmetric(x: Value, y: Value)
    ensures Compare(y, x) == -Compare(x, y)
    decreases x, 2
  {
    if x.Kind() != y.Kind() {
      KindOrderAntisymmetric(x, y);
    } else if x.Number? {
      NumberCompareAntisymmetric(x.bits, y.bits);
      SameKindAntisymmetric(x, y);
    } else if x.Str? {
      StringCompareAntisymmetric(x.s, y.s);
      SameKindAntisymmetric(x, y);
    } else if x.Tuple? {
      TupleCompareAntisymmetric(x, y);
    } else if x.Ref? {
      AddrCompareAntisymmetric(x.addr, y.addr);
      SameKindAntisymmetric(x, y);
    } else {
      SameKindAntisymmetric(x, y);
    }
  }

  /** Values of different kinds order by kind, in both directions. */
  lemma KindOrderAntisymmetric(x: Value, y: Value)
    requires x.Kind() != y.Kind()
    ensures Compare(y, x) == -Compare(x, y)
  {
  }

  /** For two values of one kind other than tuples, the comparison is
      antisymmetric as soon as the comparison of their contents is. */
  lemma SameKindAntisymmetric(x: Value, y: Value)
    requires x.Kind() == y.Kind() && !x.Tuple?
    requires x.Number? ==> NumberCompare(y.bits, x.bits) == -NumberCompare(x.bits, y.bits)
    requires x.Str? ==> StringCompare(y.s, x.s) == -StringCompare(x.s, y.s)
    requires x.Ref? ==> AddrCompare(y.addr, x.addr) == -AddrCompare(x.addr, y.addr)
    ensures Compare(y, x) == -Compare(x, y)
  {
  }

  lemma {:induction false} TupleCompareAntisymmetric(x: Value, y: Value)
    requires x.Tuple? && y.Tuple?
    ensures Compare(y, x) == -Compare(x, y)
    decreases x, 1
  {
    ElementsCompareAntisymmetric(x.t, y.t, 0);
  }

  lemma {:induction false} ElementsCompareAntisymmetric(a: TupleObj, b: TupleObj, i: nat)
    ensures ElementsCompare(b, a, i) == -ElementsCompare(a, b, i)
    decreases Tuple(a), 0, |a.elems| - i
  {
    if i < |a.elems| && i < |b.elems| {
      CompareAntisymmetric(a.elems[i], b.elems[i]);
      ElementsCompareAntisymmetric(a, b, i + 1);
    }
  }

  /** Two values whose heap objects at one address are one object, at
      every depth at which `fenn_compare` may look at both. */
  ghost predicate Coherent(x: Value, y: Value)
    decreases x
  {
    match (x, y)
    case (Str(_, a), Str(_, b)) => a.addr == b.addr ==> a == b
    case (Tuple(a), Tuple(b)) =>
      forall j :: 0 <= j < |a.elems| && j < |b.elems| ==> Coherent(a.elems[j], b.elems[j])
    case _ => true
  }

  /** Values `fenn_equals` relates, `fenn_compare` puts level. */
  lemma {:induction false} EqualsImpliesCompareZero(x: Value, y: Value)
    requires Coherent(x, y) && Equals(x, y)
    ensures Compare(x, y) == 0
    decreases x, 2
  {
    match (x, y)
    case (Str(k, a), Str(_, b)) =>
      if a.addr != b.addr {
        assert b.data[..|b.data|] == b.data;
      }
      StringCompareZero(a, b);
    case (Tuple(a), Tuple(b)) => ElementsEqualCompareZero(a, b, 0);
    case _ =>
  }

  lemma {:induction false} ElementsEqualCompareZero(a: TupleObj, b: TupleObj, i: nat)
    requires Coherent(Tuple(a), Tuple(b))
    requires |a.elems| == |b.elems| && i <= |a.elems|
    requires ElementsEqual(a, b, i)
    ensures ElementsCompare(a, b, i) == 0
    decreases Tuple(a), 0, |a.elems| - i
  {
    if i < |a.elems| {
      EqualsImpliesCompareZero(a.elems[i], b.elems[i]);
      ElementsEqualCompareZero(a, b, i + 1);
    }
  }

  /** The hash each kind caches is the one its contents give. */
  ghost predicate HashCached(v: Value) {
    match v
    case Str(_, s) => Finished(s)
    case Tuple(t) => TupleFinished(t)
    case _ => true
  }

  /** With zeros hashed alike, values `fenn_equals` relates hash alike, as a
      hash table keyed by values needs. */
  lemma EqualsImpliesHashEqual(x: Value, y: Value)
    requires HashCached(x) && HashCached(y)
    requires x.Str? && y.Str? && x.s.addr == y.s.addr ==> x.s == y.s
    requires Equals(x, y)
    ensures Hash(x) == Hash(y)
  {
    match (x, y)
    case (Number(a), Number(b)) =>
    case (Str(k, a), Str(_, b)) =>
    case (Tuple(a), Tuple(b)) =>
    case (Ref(k, a), Ref(_, b)) =>
    case _ =>
  }

  /** Array hashing that folds the corrected `Hash` gives one hash to two
      runs of values that `fenn_equals` relates pair by pair, so the hash
      check of `fenn_tuple_equal` no longer turns such tuples away. */
  lemma {:induction false} PairwiseEqualArrayHash(h: bv32, a: seq<Value>, b: seq<Value>)
    requires |a| == |b|
    requires forall j :: 0 <= j < |a| ==> HashCached(a[j]) && HashCached(b[j]) && Equals(a[j], b[j])
    requires forall j :: 0 <= j < |a| && a[j].Str? && b[j].Str? && a[j].s.addr == b[j].s.addr ==> a[j].s == b[j].s
    ensures HashFrom(h, a, Hash) == HashFrom(h, b, Hash)
    decreases |a|
  {
    if a != [] {
      EqualsImpliesHashEqual(a[0], b[0]);
      PairwiseEqualArrayHash(Step(h, Hash(a[0])), a[1..], b[1..]);
    }
  }

  /** As written, +0.0 and -0.0 are equal under `fenn_equals` and yet hash
      to 0 and 0x8000_0000. So two one-element tuples holding them, their
      hashes not yet computed, get different array hashes, and
      `fenn_tuple_equal` calls them unequal although their elements are
      equal. */
  lemma SignedZeroHashMismatch(a1: Addr, a2: Addr)
    ensures Equals(Number(0), Number(SIGN_BIT))
    ensures HashAsWritten(Number(0)) == 0
    ensures HashAsWritten(Number(SIGN_BIT)) == 0x8000_0000
    ensures ElementsEqual(TupleObj(a1, 0, [Number(0)]), TupleObj(a2, 0, [Number(SIGN_BIT)]), 0)
    ensures !TupleEqual(TupleObj(a1, 0, [Number(0)]), TupleObj(a2, 0, [Number(SIGN_BIT)]))
  {
    NonNaNIsNumber(SIGN_BIT);
    var plus := TupleObj(a1, 0, [Number(0)]);
    var minus := TupleObj(a2, 0, [Number(SIGN_BIT)]);
    assert plus.elems[1..] == [] && minus.elems[1..] == [];
    assert HashAsWritten(Number(0)) == 0 && HashAsWritten(Number(SIGN_BIT)) == 0x8000_0000;
    assert ArrayHash(plus.elems) == HashFrom(Step(SEED, HashAsWritten(Number(0))), [], HashAsWritten);
    assert ArrayHash(minus.elems) == HashFrom(Step(SEED, HashAsWritten(Number(SIGN_BIT))), [], HashAsWritten);
    assert ArrayHash(plus.elems) == Step(SEED, 0);
    assert ArrayHash(minus.elems) == Step(SEED, 0x8000_0000);
  }

  /* ------------------------------------------------------- transitivity */

  /** `fenn_compare` is transitive, the strict order it promises: two steps
      that do not go up do not go up, a strict step makes the whole strict,
      and values level with a common value are level with each other. */
  lemma {:induction false} CompareTransitive(x: Value, y: Value, z: Value)
    ensures Chains(Compare(x, y), Compare(y, z), Compare(x, z))
    decreases x, 2
  {
    if x.Kind() != y.Kind() || y.Kind() != z.Kind() {
      KindOrderTransitive(x, y, z);
    } else if x.Tuple? {
      TupleCompareTransitive(x, y, z);
    } else {
      SameKindTransitive(x, y, z);
    }
  }

  /** Number comparison is transitive, with NaN as the least number. */
  lemma NumberCompareTransitive(a: bv64, b: bv64, c: bv64)
    ensures Chains(NumberCompare(a, b), NumberCompare(b, c), NumberCompare(a, c))
  {
    if !IsNaN(a) && !IsNaN(b) && !IsNaN(c) {
      Trichotomy(a, b);
      Trichotomy(b, c);
      Trichotomy(a, c);
      if Lt(a, b) && Lt(b, c) {
        LtTransitive(a, b, c);
      }
      if Eq(a, b) {
        EqLt(a, b, c);
        if Eq(b, c) {
          EqTransitive(a, b, c);
        }
      }
      if Eq(b, c) {
        EqLt(b, c, a);
      }
    }
  }

  /** Address order is transitive. */
  lemma AddrCompareTransitive(a: Addr, b: Addr, c: Addr)
    ensures Chains(AddrCompare(a, b), AddrCompare(b, c), AddrCompare(a, c))
  {
    UnsignedInjective(a, b);
    UnsignedInjective(b, c);
    UnsignedInjective(a, c);
    IntCompareTransitive(a as int, b as int, c as int);
  }

  /** Three-way comparison of two integers. */
  function IntCompare(m: int, n: int): int {
    if m == n then 0 else if m > n then 1 else -1
  }

  lemma IntCompareTransitive(l: int, m: int, n: int)
    ensures Chains(IntCompare(l, m), IntCompare(m, n), IntCompare(l, n))
  {
  }

  /** When the three values are not all of one kind, the kind order
      decides, and it is transitive. */
  lemma KindOrderTransitive(x: Value, y: Value, z: Value)
    requires x.Kind() != y.Kind() || y.Kind() != z.Kind()
    ensures Chains(Compare(x, y), Compare(y, z), Compare(x, z))
  {
  }

  /** For three values of one kind other than tuples, the comparison of
      their contents decides, and it is transitive. */
  lemma SameKindTransitive(x: Value, y: Value, z: Value)
    requires x.Kind() == y.Kind() == z.Kind() && !x.Tuple?
    ensures Chains(Compare(x, y), Compare(y, z), Compare(x, z))
  {
    if x.Number? {
      NumbersTransitive(x, y, z);
    } else if x.Str? {
      StringsTransitive(x, y, z);
    } else if x.Ref? {
      RefsTransitive(x, y, z);
    } else if x.Bool? {
      BoolsTransitive(x, y, z);
    }
  }

  lemma NumbersTransitive(x: Value, y: Value, z: Value)
    requires x.Number? && y.Number? && z.Number?
    ensures Chains(Compare(x, y), Compare(y, z), Compare(x, z))
  {
    NumberCompareTransitive(x.bits, y.bits, z.bits);
  }

  lemma StringsTransitive(x: Value, y: Value, z: Value)
    requires x.Str? && x.Kind() == y.Kind() == z.Kind()
    ensures Chains(Compare(x, y), Compare(y, z), Compare(x, z))
  {
    StringCompareTransitive(x.s, y.s, z.s);
  }

  lemma RefsTransitive(x: Value, y: Value, z: Value)
    requires x.Ref? && x.Kind() == y.Kind() == z.Kind()
    ensures Chains(Compare(x, y), Compare(y, z), Compare(x, z))
  {
    AddrCompareTransitive(x.addr, y.addr, z.addr);
  }

  lemma BoolsTransitive(x: Value, y: Value, z: Value)
    requires x.Bool? && y.Bool? && z.Bool?
    ensures Chains(Compare(x, y), Compare(y, z), Compare(x, z))
  {
    IntCompareTransitive(if x.bit then 1 else 0, if y.bit then 1 else 0, if z.bit then 1 else 0);
  }

  lemma {:induction false} TupleCompareTransitive(x: Value, y: Value, z: Value)
    requires x.Tuple? && y.Tuple? && z.Tuple?
    ensures Chains(Compare(x, y), Compare(y, z), Compare(x, z))
    decreases x, 1
  {
    ElementsCompareTransitive(x.t, y.t, z.t, 0);
    assert Compare(x, y) == ElementsCompare(x.t, y.t, 0);
    assert Compare(y, z) == ElementsCompare(y.t, z.t, 0);
    assert Compare(x, z) == ElementsCompare(x.t, z.t, 0);
  }

  /** From index i, the first element pair that does not compare level
      decides the comparison of the rest. */
  lemma {:induction false} ElementsCompareFirstDifference(a: TupleObj, b: TupleObj, i: nat, k: nat)
    requires i <= k < |a.elems| && k < |b.elems|
    requires forall j :: i <= j < k ==> Compare(a.elems[j], b.elems[j]) == 0
    requires Compare(a.elems[k], b.elems[k]) != 0
    ensures ElementsCompare(a, b, i) == Compare(a.elems[k], b.elems[k])
    decreases k - i
  {
    if i < k {
      ElementsCompareFirstDifference(a, b, i + 1, k);
    }
  }

  /** From index i, when every shared pair compares level, the shorter
      tuple is the lesser. */
  lemma {:induction false} ElementsComparePrefix(a: TupleObj, b: TupleObj, i: nat)
    requires |a.elems| != |b.elems|
    requires i <= |a.elems| && i <= |b.elems|
    requires forall j :: i <= j < |a.elems| && j < |b.elems| ==> Compare(a.elems[j], b.elems[j]) == 0
    ensures ElementsCompare(a, b, i) == if |a.elems| < |b.elems| then -1 else 1
    decreases |a.elems| - i
  {
    if i < |a.elems| && i < |b.elems| {
      ElementsComparePrefix(a, b, i + 1);
    }
  }

  /** `fenn_tuple_compare` returns the comparison of the first element pair
      that is not level. */
  lemma TupleCompareFirstDifference(a: TupleObj, b: TupleObj, k: nat)
    requires k < |a.elems| && k < |b.elems|
    requires forall j :: 0 <= j < k ==> Compare(a.elems[j], b.elems[j]) == 0
    requires Compare(a.elems[k], b.elems[k]) != 0
    ensures TupleCompare(a, b) == Compare(a.elems[k], b.elems[k])
  {
    ElementsCompareFirstDifference(a, b, 0, k);
  }

  /** When one tuple's elements are level with the start of the other's,
      the shorter tuple sorts first: -1 when it is the left one, 1 when it
      is the right one. */
  lemma TupleComparePrefix(a: TupleObj, b: TupleObj)
    requires |a.elems| != |b.elems|
    requires forall j :: 0 <= j < |a.elems| && j < |b.elems| ==> Compare(a.elems[j], b.elems[j]) == 0
    ensures TupleCompare(a, b) == if |a.elems| < |b.elems| then -1 else 1
  {
    ElementsComparePrefix(a, b, 0);
  }

  /** The element loop of tuple comparison is transitive: lexicographic
      order over a transitive order on the elements. */
  lemma {:induction false} ElementsCompareTransitive(a: TupleObj, b: TupleObj, c: TupleObj, i: nat)
    ensures Chains(ElementsCompare(a, b, i), ElementsCompare(b, c, i), ElementsCompare(a, c, i))
    decreases Tuple(a), 0, |a.elems| - i
  {
    if i < |a.elems| && i < |b.elems| && i < |c.elems| {
      CompareTransitive(a.elems[i], b.elems[i], c.elems[i]);
      ElementsCompareTransitive(a, b, c, i + 1);
    }
  }

  /** Comparing level is weaker than being equal: a NaN compares level with
      itself but is not equal to itself, and so does a struct. */
  lemma CompareZeroNotEquals(x: Value, a: Addr)
    requires x.Number? && IsNaN(x.bits)
    ensures Compare(x, x) == 0 && !Equals(x, x)
    ensures Compare(Ref(STRUCT, a), Ref(STRUCT, a)) == 0 && !Equals(Ref(STRUCT, a), Ref(STRUCT, a))
  {
  }
}
