/**
 * The NaN-boxed value word. Every value is one 64-bit pattern: a pattern
 * that is not a NaN is a double; otherwise the top 13 bits are set (a
 * negative quiet NaN), bits 47-50 carry the kind and bits 0-46 carry a
 * payload (a pointer or a small immediate).
 */
module FennValue {
  import Doubles

  /** The kinds of values, in the order of their numeric tags. */
  type TypeTag = t: bv64 | t < 16

  const NUMBER: TypeTag := 0
  const NIL: TypeTag := 1
  const BOOL: TypeTag := 2
  const FIBER: TypeTag := 3
  const STRING: TypeTag := 4
  const SYMBOL: TypeTag := 5
  const KEYWORD: TypeTag := 6
  const ARRAY: TypeTag := 7
  const TUPLE: TypeTag := 8
  const TABLE: TypeTag := 9
  const STRUCT: TypeTag := 10
  const BUFFER: TypeTag := 11
  const FUNCTION: TypeTag := 12
  const CFUNCTION: TypeTag := 13
  const ABSTRACT: TypeTag := 14
  const PTR: TypeTag := 15  // FENN_POINTER: a raw C pointer

  const TAGBITS: bv64 := 0xFFFF_8000_0000_0000
  const PAYLOAD: bv64 := 0x0000_7FFF_FFFF_FFFF

  /** Bits 51-63 of a tagged word: sign, exponent and the quiet bit. */
  const QUIET_NAN_HEAD: bv64 := 0xFFF8_0000_0000_0000

  /** The tag and the payload masks split the word in two. */
  lemma MasksPartitionWord()
    ensures TAGBITS & PAYLOAD == 0
    ensures TAGBITS | PAYLOAD == 0xFFFF_FFFF_FFFF_FFFF
  {
  }

  /** `fenn_lowtag`: the type in the low four bits under thirteen ones. */
  function LowTag(t: TypeTag): (r: bv64)
    ensures r & 0xF == t && r >> 4 == 0x1FFF
  {
    t | 0x1FFF0
  }

  /** The tag of kind t, shifted into place: a negative quiet NaN with t in
      bits 47-50 and nothing in the payload. */
  function Tag(t: TypeTag): (r: bv64)
    ensures r & QUIET_NAN_HEAD == QUIET_NAN_HEAD
    ensures (r >> 47) & 0xF == t
    ensures r & PAYLOAD == 0 && r & TAGBITS == r
    ensures Doubles.IsNaN(r)
  {
    LowTag(t) << 47
  }

  /** `fenn_type`: a non-NaN pattern is a number, a NaN pattern carries its
      kind in bits 47-50. */
  function FennType(x: bv64): (t: TypeTag)
    ensures !Doubles.IsNaN(x) ==> t == NUMBER
  {
    if Doubles.IsNaN(x) then (x >> 47) & 0xF else NUMBER
  }

  /** `fenn_checkauxtype`: the top 17 bits are the tag of t. A word that
      passes is a NaN that `fenn_type` reads as t. */
  predicate CheckAuxType(x: bv64, t: TypeTag)
    ensures CheckAuxType(x, t) ==> FennType(x) == t
  {
    x & TAGBITS == Tag(t)
  }

  /** `fenn_isnumber`: not a NaN, or tagged NUMBER. */
  predicate IsNumber(x: bv64)
    ensures IsNumber(x) ==> FennType(x) == NUMBER
  {
    !Doubles.IsNaN(x) || CheckAuxType(x, NUMBER)
  }

  /** `fenn_checktype`: a word that passes the check for t is of kind t. */
  predicate CheckType(x: bv64, t: TypeTag)
    ensures CheckType(x, t) ==> FennType(x) == t
  {
    if t == NUMBER then IsNumber(x) else CheckAuxType(x, t)
  }

  /** `fenn_from_payload`: a tag joined with a payload. */
  function FromPayload(t: TypeTag, p: bv64): bv64 {
    Tag(t) | p
  }

  /** Reading back the kind and the tag of a word built from a payload. */
  lemma PayloadRoundTrip(t: TypeTag, p: bv64, t': TypeTag)
    requires p <= PAYLOAD
    ensures FennType(FromPayload(t, p)) == t
    ensures FromPayload(t, p) & PAYLOAD == p
    ensures CheckAuxType(FromPayload(t, p), t') <==> t' == t
  {
    assert Tag(t) & TAGBITS == Tag(t);
    assert (Tag(t') >> 47) & 0xF == t';
  }

  /** Any pattern that is not a NaN is classified as a number. */
  lemma NonNaNIsNumber(x: bv64)
    requires !Doubles.IsNaN(x)
    ensures FennType(x) == NUMBER && IsNumber(x) && CheckType(x, NUMBER)
  {
  }

  /** `fenn_type` and `fenn_isnumber` disagree on the canonical quiet NaN
      0x7FF8000000000000: its kind bits are zero, so it is a NUMBER, but its
      top bits are not the NUMBER tag, so `fenn_isnumber` rejects it. The
      lemma is informational: the NaN that carries the NUMBER tag,
      0xFFF8000000000000, passes both. */
  lemma CanonicalNaNClassifiedTwoWays()
    ensures FennType(0x7FF8_0000_0000_0000) == NUMBER
    ensures !IsNumber(0x7FF8_0000_0000_0000)
    ensures FennType(Tag(NUMBER)) == NUMBER && IsNumber(Tag(NUMBER))
  {
  }

  /* Immediates */

  function WrapNil(): (r: bv64)
    ensures FennType(r) == NIL && r & PAYLOAD == 1
  {
    PayloadRoundTrip(NIL, 1, NIL);
    FromPayload(NIL, 1)
  }

  function WrapTrue(): (r: bv64)
    ensures FennType(r) == BOOL && UnwrapBoolean(r) == 1
  {
    PayloadRoundTrip(BOOL, 1, BOOL);
    FromPayload(BOOL, 1)
  }

  function WrapFalse(): (r: bv64)
    ensures FennType(r) == BOOL && UnwrapBoolean(r) == 0
  {
    PayloadRoundTrip(BOOL, 0, BOOL);
    FromPayload(BOOL, 0)
  }

  /** `fenn_wrap_bool(b)` is the true word exactly when b is non-zero. */
  function WrapBool(b: int): (r: bv64)
    ensures r == WrapTrue() <==> b != 0
    ensures r == WrapFalse() <==> b == 0
    ensures FennType(r) == BOOL
    ensures UnwrapBoolean(r) == if b != 0 then 1 else 0
  {
    PayloadRoundTrip(BOOL, 0, BOOL);
    PayloadRoundTrip(BOOL, 1, BOOL);
    FromPayload(BOOL, if b != 0 then 1 else 0)
  }

  /** `fenn_unwrap_boolean`: bit 0 of the word. */
  function UnwrapBoolean(x: bv64): (r: bv64)
    ensures r == 0 || r == 1
  {
    x & 1
  }

  /* Pointers */

  /** `fenn_from_pointer`: the pointer bits with the tag mask or-ed in. */
  function FromPointer(p: bv64, tagmask: bv64): bv64 {
    p | tagmask
  }

  /** `fenn_from_cpointer`: as `fenn_from_pointer`, every bit of the tag
      mask set and every other bit taken from the pointer. */
  function FromCPointer(p: bv64, tagmask: bv64): (r: bv64)
    ensures r & tagmask == tagmask && r & !tagmask == p & !tagmask
  {
    FromPointer(p, tagmask)
  }

  /** `fenn_to_pointer`: the payload bits, so the result always fits the
      47-bit payload. */
  function ToPointer(x: bv64): (r: bv64)
    ensures r <= PAYLOAD && r & TAGBITS == 0
  {
    x & PAYLOAD
  }

  /** A pointer that fits the payload survives wrapping and unwrapping, and
      the wrapped word has the kind it was tagged with. */
  lemma PointerRoundTrip(p: bv64, t: TypeTag)
    requires p <= PAYLOAD
    ensures ToPointer(FromPointer(p, Tag(t))) == p
    ensures ToPointer(FromCPointer(p, Tag(t))) == p
    ensures FennType(FromPointer(p, Tag(t))) == t
  {
    PayloadRoundTrip(t, p, t);
  }
}
