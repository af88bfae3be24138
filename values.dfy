/**
 * Values as the algebra sees them. A value is a number, nil, a boolean, or
 * a handle on a heap object; the handle keeps the object's (masked)
 * address, which the pointer-identity and address-order branches use, and
 * for strings and tuples a snapshot of the object's header and contents.
 * `Bits` is the NaN-boxed word the runtime actually passes around.
 */
module Values {
  import opened FennValue

  /** A pointer that fits in the 47-bit payload. */
  type Addr = a: bv64 | a <= PAYLOAD

  /** A double whose pattern `fenn_type` reads as a number. */
  type NumberBits = x: bv64 | FennType(x) == NUMBER

  /** The kinds that share the string representation. */
  type StrKind = k: TypeTag | k == STRING || k == SYMBOL || k == KEYWORD witness STRING

  /** The kinds that are compared and hashed by their pointer alone. */
  type RefKind = k: TypeTag | k == FIBER || k == ARRAY || k == TABLE || k == STRUCT || k == BUFFER
                              || k == FUNCTION || k == CFUNCTION || k == ABSTRACT || k == PTR
    witness FIBER

  /** An immutable string object: its address, cached hash and bytes (the
      length is `|data|`; the trailing NUL is not part of the contents). */
  datatype StringObj = StringObj(addr: Addr, hash: bv32, data: seq<bv8>)

  /** A tuple object: its address, cached hash (0 meaning "not computed")
      and elements. */
  datatype TupleObj = TupleObj(addr: Addr, hash: bv32, elems: seq<Value>)

  datatype Value =
    | Number(bits: NumberBits)
    | Nil
    | Bool(bit: bool)
    | Str(skind: StrKind, s: StringObj)
    | Tuple(t: TupleObj)
    | Ref(rkind: RefKind, addr: Addr)
  {
    function Kind(): TypeTag {
      match this
      case Number(_) => NUMBER
      case Nil => NIL
      case Bool(_) => BOOL
      case Str(k, _) => k
      case Tuple(_) => TUPLE
      case Ref(k, _) => k
    }

    /** The NaN-boxed word of this value. */
    function Bits(): bv64 {
      match this
      case Number(x) => x
      case Nil => WrapNil()
      case Bool(b) => WrapBool(if b then 1 else 0)
      case Str(k, s) => FromCPointer(s.addr, Tag(k))
      case Tuple(t) => FromCPointer(t.addr, Tag(TUPLE))
      case Ref(k, a) => FromPointer(a, Tag(k))
    }
  }

  /** The encoding is read back faithfully: `fenn_type` of the word is the
      value's kind, `fenn_to_pointer` gives back the address of a heap kind,
      and a boolean's bit 0 is its truth value. */
  lemma BitsDecode(v: Value)
    ensures FennType(v.Bits()) == v.Kind()
    ensures v.Str? ==> ToPointer(v.Bits()) == v.s.addr
    ensures v.Tuple? ==> ToPointer(v.Bits()) == v.t.addr
    ensures v.Ref? ==> ToPointer(v.Bits()) == v.addr
    ensures v.Bool? ==> UnwrapBoolean(v.Bits()) == if v.bit then 1 else 0
  {
    match v
    case Number(_) =>
    case Nil =>
    case Bool(_) =>
    case Str(k, s) => PointerRoundTrip(s.addr, k);
    case Tuple(t) => PointerRoundTrip(t.addr, TUPLE);
    case Ref(k, a) => PointerRoundTrip(a, k);
  }
}
