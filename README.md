# fenn value layer, in Dafny

A model of the value layer of fenn, a small Lisp-like runtime written in C,
with the first pieces of its reader, and proofs about it.

- **NaN-boxing** (`FennValue`, `Values`). Every value is one 64-bit word. A
  number is the double itself. Any other kind is a quiet NaN whose bits 47-50
  hold the type tag and whose low 47 bits hold a pointer or a small payload.
  `Values.Value` is the algebra's view of such a word: a number, nil, a
  boolean, or a handle on a heap object. The handle keeps the object's
  address, and for strings and tuples a snapshot of the object.
- **Doubles** (`Doubles`). The C code compares numbers with the double
  operators `==` and `>`. These are modelled exactly on IEEE 754 bit
  patterns: NaN is unordered, and +0.0 equals -0.0.
- **djb2** (`Djb2`). The string and array hashes start at 5381 and fold in
  each element as `hash * 33 + x`, modulo 2^32.
- **Strings** (`FString`). Immutable byte strings with a cached length and
  hash. They are built in two steps (`begin`/`end`) or in one step. They
  compare bytewise, and equality has an identity fast path.
- **The value algebra** (`Algebra`). Strict equality, hashing and a total
  order over all kinds. These are mutually recursive with tuple equality and
  comparison.
- **Tuples** (`Tuples`). A header holding a length, a cached hash and a
  source range, followed by the elements. Equality fills in a cached hash
  that still reads 0.
- **The byte buffer** (`FBuffer`). A growable byte array with int32 count
  and capacity. It has two growth policies, and appends of bytes, strings
  and little-endian integers.
- **The reader** (`Reader`). Byte classification, the parse-state stack,
  and the `expression` consumer.

Imperative code is modelled as classes over arrays: `StringHead`,
`TupleHead`, `Buffer` and `Parser`. Each method states its new state in
terms of functions such as `View()`, `Contents()` and `Stack()`. The
properties are proved about those functions. Pure code is modelled as
functions with lemmas.

Numbers order as `fenn_compare` orders them: a NaN sorts below every other
number and level with another NaN (`src/core/util.c:130-135`).

## Model

| member | source | states |
|---|---|---|
| Doubles.IsNaN | src/include/fenn.h:103-106 | `isnan`: the exponent is all ones and the mantissa is not zero |
| Doubles.Eq | src/core/util.c:137 | the double `==`: false when either side is a NaN, true for equal patterns and for two zeros of any sign |
| Doubles.Lt | src/core/util.c:140 | the double `<` (and `x > y` as `y < x`): false when either side is a NaN or both are zeros; otherwise decided by sign and then by magnitude |
| Doubles.EqExcludesLt | src/core/util.c:137-141 | numbers that are `==` are neither `<` nor `>` each other |
| Doubles.LtAsymmetric | src/core/util.c:140 | `>` on doubles is asymmetric |
| Doubles.LtTotal | src/core/util.c:137-141 | two numbers that are not NaN and not `==` are ordered one way or the other |
| Doubles.Trichotomy | src/core/util.c:137-141 | exactly one of `==`, `<`, `>` holds between two numbers that are not NaN |
| Doubles.LtTransitive | src/core/util.c:140 | `<` on doubles is transitive |
| Doubles.EqTransitive | src/core/util.c:59 | `==` on doubles is transitive |
| Doubles.ZeroBelow | src/core/util.c:137-141 | a zero is below exactly the positive non-zero numbers |
| Doubles.ZeroAbove | src/core/util.c:137-141 | a zero is above exactly the negative non-zero numbers |
| Doubles.ZerosAlike | src/core/util.c:137-141 | +0.0 and -0.0 order alike against every number |
| Doubles.EqLt | src/core/util.c:137-141 | numbers that are `==` order alike against every number |
| FennValue.MasksPartitionWord | src/include/fenn.h:99-100 | the tag mask and the payload mask are disjoint and cover the word |
| FennValue.LowTag | src/include/fenn.h:101 | the type in the low four bits with thirteen ones above them |
| FennValue.Tag | src/include/fenn.h:101-102 | a tag is a quiet NaN with the type in bits 47-50 and an empty payload |
| FennValue.FennType | src/include/fenn.h:103-106 | a word that is not NaN is a number |
| FennValue.CheckAuxType | src/include/fenn.h:108-109 | a word that passes the aux-type check for t is a NaN that `fenn_type` reads as t |
| FennValue.IsNumber | src/include/fenn.h:111-112 | a word `fenn_isnumber` accepts is typed NUMBER by `fenn_type` |
| FennValue.CheckType | src/include/fenn.h:114-117 | a word that passes `fenn_checktype` for t is of kind t |
| FennValue.FromPayload | src/include/fenn.h:131-132 | a tag or-ed with a payload; what it reads back is stated by `PayloadRoundTrip` |
| FennValue.PayloadRoundTrip | src/include/fenn.h:108-132 | a payload word reads back its type and payload, and passes the aux-type check for its own type only |
| FennValue.NonNaNIsNumber | src/include/fenn.h:103-117 | every non-NaN double is typed, recognised and checked as a number |
| FennValue.CanonicalNaNClassifiedTwoWays | src/include/fenn.h:103-117 | the quiet NaN 0x7FF8... is typed NUMBER by `fenn_type` yet rejected by `fenn_isnumber` |
| FennValue.WrapNil | src/include/fenn.h:141 | nil is typed NIL with payload 1 |
| FennValue.WrapTrue | src/include/fenn.h:142 | true is typed BOOL and unwraps to 1 |
| FennValue.WrapFalse | src/include/fenn.h:143 | false is typed BOOL and unwraps to 0 |
| FennValue.WrapBool | src/include/fenn.h:144 | any non-zero int wraps to true and zero to false |
| FennValue.UnwrapBoolean | src/include/fenn.h:148 | the unwrapped boolean is bit 0 of the word, so 0 or 1 |
| FennValue.FromPointer | src/core/util.c:168-173 | a pointer or-ed with a tag mask; what it reads back is stated by `PointerRoundTrip` |
| FennValue.FromCPointer | src/core/util.c:161-166 | every bit of the tag mask is set and every other bit is the pointer's |
| FennValue.ToPointer | src/core/util.c:175-178 | unwrapping keeps the payload bits only, so the result always fits the 47-bit payload |
| FennValue.PointerRoundTrip | src/core/util.c:161-178 | a tagged pointer unwraps to the pointer and is typed by its tag |
| Values.BitsDecode | src/include/fenn.h:140-179 | the word of every value reads back its kind, its address and its truth value |
| Memory.Realloc | src/core/objects/fbuffer.c:63 | reallocation gives fresh storage of the new size that keeps the common prefix |
| Memory.CStringLength | src/core/fstring.c:87 | the length of a C string is the index of its first NUL |
| Memory.StrLen | src/core/objects/fbuffer.c:104-105 | the counting loop stops at the first NUL |
| Djb2.HashFromAppend | src/core/util.c:29-43 | one more element costs one more round of the fold |
| Djb2.StringHashSnoc | src/core/util.c:37-43 | the empty string hashes to 5381 and each byte adds one round |
| Djb2.CalcStringHash | src/core/util.c:37-43 | the loop computes the djb2 hash of the first len bytes, or of none when len is negative |
| FString.MemCmp | src/core/fstring.c:62 | `memcmp` is 0 exactly when the first n bytes agree |
| FString.MemCmpFirstDifference | src/core/fstring.c:62 | `memcmp` returns the unsigned difference at the first differing byte |
| FString.MemCmpAntisymmetric | src/core/fstring.c:62 | swapping the operands of `memcmp` negates it |
| FString.LexCompare | src/core/fstring.c:58-66 | lexicographic order of byte strings, bytes unsigned and a proper prefix first, is -1, 0 or 1 and is 0 exactly for equal strings |
| FString.MemCmpLex | src/core/fstring.c:58-66 | `memcmp` over the common length decides the lexicographic order when it is not 0; otherwise the lengths do |
| FString.LexCompareTransitive | src/core/fstring.c:58-66 | lexicographic order is transitive |
| FString.StringCompare | src/core/fstring.c:58-66 | the sign of the string comparison is the lexicographic order of the contents |
| FString.StringCompareTransitive | src/core/fstring.c:58-66 | string comparison is transitive |
| FString.StringCompareZero | src/core/fstring.c:58-66 | string comparison is 0 exactly for equal contents |
| FString.StringComparePrefix | src/core/fstring.c:58-66 | a strict prefix compares below |
| FString.StringCompareFirstDifference | src/core/fstring.c:58-66 | otherwise the first differing byte decides, read unsigned |
| FString.StringCompareAntisymmetric | src/core/fstring.c:58-66 | swapping the operands negates the comparison |
| FString.EqualConst | src/core/fstring.c:69-77 | the same address gives equal; a hash or length mismatch gives unequal; otherwise the bytes decide |
| FString.StringEqual | src/core/fstring.c:80-83 | a string equals itself; two strings at different addresses are equal exactly when their cached hashes and their contents agree |
| FString.StringEqualContents | src/core/fstring.c:80-83 | for strings whose hash is cached, equality is equality of contents |
| FString.StringEqualSymmetric | src/core/fstring.c:80-83 | string equality is symmetric |
| FString.StringHead.Begin | src/core/fstring.c:32-38 | a new string has zeroed contents, a NUL after them and no hash yet |
| FString.StringHead.End | src/core/fstring.c:41-44 | finishing caches the hash of the contents and leaves the contents unchanged |
| FString.StringHead.FromBytes | src/core/fstring.c:47-55 | a one-step string holds the first len bytes, NUL-terminated, with their hash |
| FString.StringHead.FromCString | src/core/fstring.c:86-88 | a C string is loaded up to its first NUL |
| Algebra.HashBits | src/core/util.c:100-107 | the 64-bit default branch: the low word read as int32, shifted right by 3 with the sign copied in, xored with the high word |
| Algebra.HashAsWritten | src/core/util.c:80-116 | a number, and every kind hashed by pointer, hashes its NaN-boxed word; a boolean hashes its unwrapped bit |
| Algebra.Hash | src/core/util.c:80-116 | hashes as `fenn_hash` does, except that a zero of either sign hashes as +0.0 |
| Algebra.CalcArrayHash | src/core/util.c:29-35 | the loop computes djb2 over the `fenn_hash` of each of the first len values |
| Algebra.Equals | src/core/util.c:46-77 | values of different kinds are never equal, structs never are, and nil equals nil |
| Algebra.TupleEqual | src/core/tuple.c:50-69 | tuples are equal exactly when their hashes (recomputed with `fenn_hash` when the cache reads 0) and lengths agree and every pair of elements is equal |
| Algebra.ElementsEqual | src/core/tuple.c:64-68 | the element loop from index i answers whether all later pairs are equal |
| Algebra.NumberCompare | src/core/util.c:128-141 | two NaNs are level, a NaN sorts below every other number; otherwise 0 means `==` and 1 means `>` |
| Algebra.AddrCompare | src/core/util.c:149-154 | pointers compare level exactly when they are the same pointer |
| Algebra.AddrCompareAntisymmetric | src/core/util.c:149-154 | swapping two pointers negates their comparison |
| Algebra.Compare | src/core/util.c:121-159 | values of different kinds order by type tag |
| Algebra.TupleCompare | src/core/tuple.c:72-86 | two tuples compare level exactly when their lengths agree and every pair of elements compares level |
| Algebra.ElementsCompare | src/core/tuple.c:77-85 | the loop from index i compares level exactly when the lengths agree and every later pair compares level |
| Algebra.ElementsCompareFirstDifference | src/core/tuple.c:77-80 | from index i, the first element pair that does not compare level gives the result |
| Algebra.ElementsComparePrefix | src/core/tuple.c:81-85 | from index i, when every shared pair compares level, the shorter tuple gives -1 on the left and 1 on the right |
| Algebra.TupleCompareFirstDifference | src/core/tuple.c:72-80 | tuple comparison returns the comparison of the first element pair that is not level |
| Algebra.TupleComparePrefix | src/core/tuple.c:72-85 | when one tuple's elements are level with the start of the other's, the shorter tuple sorts first |
| Algebra.EqualsSymmetric | src/core/util.c:46-77 | value equality is symmetric |
| Algebra.TupleEqualSymmetric | src/core/tuple.c:50-69 | tuple equality is symmetric |
| Algebra.ElementsEqualSymmetric | src/core/tuple.c:64-68 | the element loop is symmetric |
| Algebra.EqualsReflexive | src/core/util.c:46-77 | a value equals itself exactly when it holds no NaN and no struct |
| Algebra.CompareReflexive | src/core/util.c:121-159 | every value compares level with itself, NaN included |
| Algebra.ElementsCompareReflexive | src/core/tuple.c:72-86 | a tuple compares level with itself from every index |
| Algebra.NumberCompareAntisymmetric | src/core/util.c:128-141 | swapping two numbers negates their comparison |
| Algebra.CompareAntisymmetric | src/core/util.c:118-159 | swapping any two values negates their comparison |
| Algebra.KindOrderAntisymmetric | src/core/util.c:158 | the kind order is antisymmetric |
| Algebra.SameKindAntisymmetric | src/core/util.c:122-156 | for one kind other than tuples, comparison is antisymmetric once the comparison of the contents is |
| Algebra.TupleCompareAntisymmetric | src/core/util.c:146-147 | swapping two tuples negates their comparison |
| Algebra.ElementsCompareAntisymmetric | src/core/tuple.c:72-86 | the element loop of tuple comparison is antisymmetric |
| Algebra.EqualsImpliesCompareZero | src/core/util.c:46-159 | values that are equal compare level |
| Algebra.ElementsEqualCompareZero | src/core/tuple.c:50-86 | tuples whose elements are equal compare level |
| Algebra.CompareTransitive | src/core/util.c:118-159 | the order is transitive: two steps that do not go up do not go up, a strict step makes the whole strict, and values level with a common value are level |
| Algebra.NumberCompareTransitive | src/core/util.c:128-141 | number comparison is transitive, NaN being the least number |
| Algebra.AddrCompareTransitive | src/core/util.c:149-154 | address order is transitive |
| Algebra.KindOrderTransitive | src/core/util.c:158 | when three values are not all of one kind, the kind order decides and is transitive |
| Algebra.SameKindTransitive | src/core/util.c:122-156 | for one kind other than tuples, comparison is transitive |
| Algebra.NumbersTransitive | src/core/util.c:128-141 | comparison of three numbers is transitive |
| Algebra.StringsTransitive | src/core/util.c:142-145 | comparison of three strings, symbols or keywords of one kind is transitive |
| Algebra.RefsTransitive | src/core/util.c:148-154 | comparison of three values of one pointer kind is transitive |
| Algebra.BoolsTransitive | src/core/util.c:126-127 | comparison of three booleans is transitive |
| Algebra.TupleCompareTransitive | src/core/util.c:146-147 | tuple comparison is transitive |
| Algebra.ElementsCompareTransitive | src/core/tuple.c:72-86 | the element loop is lexicographic order over a transitive order, hence transitive |
| Algebra.CompareZeroNotEquals | src/core/util.c:46-159 | comparing level is weaker than being equal: a NaN, and a struct, compares level with itself but is not equal to itself |
| Algebra.EqualsImpliesHashEqual | src/core/util.c:46-116 | with zeros hashed alike, values that are equal hash alike |
| Algebra.PairwiseEqualArrayHash | src/core/util.c:58-116 | djb2 folding the corrected hash gives one hash to two runs of values that are pairwise equal, so the hash check of tuple equality does not reject them |
| Algebra.SignedZeroHashMismatch | src/core/util.c:58-107 | as written, +0.0 and -0.0 are equal but hash to 0 and 0x8000_0000, so tuple equality rejects `[+0.0]` against `[-0.0]` although their elements are equal |
| Tuples.TupleHead.Begin | src/core/tuple.c:27-34 | a new tuple has zeroed elements, no hash, and a source range of -1 at both ends |
| Tuples.TupleHead.End | src/core/tuple.c:37-40 | finishing caches the array hash and leaves the elements unchanged |
| Tuples.TupleHead.N | src/core/tuple.c:43-47 | the tuple holds the first n values and is finished |
| Tuples.TupleHead.Equal | src/core/tuple.c:50-69 | answers `TupleEqual` on the tuples as they were, and writes back only a cached hash that read 0 |
| Tuples.TupleHead.Compare | src/core/tuple.c:72-86 | the loop answers the element-wise comparison with the length tie-break |
| FBuffer.Wrap32 | src/core/objects/fbuffer.c:92 | int32 arithmetic wraps around into the int32 range and keeps values already in it |
| FBuffer.GrownCapacityAsWritten | src/core/objects/fbuffer.c:61-62 | as written, the capacity is the int32-wrapped product: the clamp never changes it |
| FBuffer.GrownCapacity | src/core/objects/fbuffer.c:57-62 | the corrected growth is an int32, at least the request for a growth factor of at least 1, and the product itself when that fits |
| FBuffer.EnsureProductOverflow | src/core/objects/fbuffer.c:61-62 | as written, a request of 2^30 with growth 2 gives capacity -2^31; corrected, it gives the largest int32 |
| FBuffer.ExtraCapacityAsWritten | src/core/objects/fbuffer.c:90-92 | as written, the doubled size is an int32 that is twice the size when that fits and negative when it does not |
| FBuffer.ExtraCapacity | src/core/objects/fbuffer.c:90-92 | the corrected extra capacity is an int32, at least the size needed, and twice it when that fits |
| FBuffer.ExtraDoublingOverflow | src/core/objects/fbuffer.c:90-92 | as written, a needed size of 2^30 doubles to -2^31; corrected, it gives the largest int32 |
| FBuffer.Le16Bijective | src/core/objects/fbuffer.c:128-133 | two little-endian bytes read back the 16-bit number, and every two bytes encode exactly one |
| FBuffer.Le32Bijective | src/core/objects/fbuffer.c:136-142 | the same for four bytes and 32 bits |
| FBuffer.Le64Bijective | src/core/objects/fbuffer.c:145-157 | the same for eight bytes and 64 bits |
| FBuffer.Buffer.constructor | src/core/objects/fbuffer.c:51-54 | a new buffer is empty with the requested capacity |
| FBuffer.Buffer.Init | src/core/objects/fbuffer.c:31-43 | the buffer is emptied with fresh storage of the capacity, and none when it is not positive |
| FBuffer.Buffer.Ensure | src/core/objects/fbuffer.c:57-69 | keeps the contents; when the request does not fit, the capacity becomes the grown one |
| FBuffer.Buffer.SetCount | src/core/objects/fbuffer.c:72-81 | a negative count changes nothing; a smaller one truncates; a larger one appends zeros, and beyond the capacity grows it to `GrownCapacity(n, 1)` |
| FBuffer.Buffer.Extra | src/core/objects/fbuffer.c:85-100 | keeps the contents and leaves room for n more bytes |
| FBuffer.Buffer.PushBytes | src/core/objects/fbuffer.c:110-114 | appends the first length bytes; when the new count passes the capacity, the capacity becomes `ExtraCapacity` of it |
| FBuffer.Buffer.PushCString | src/core/objects/fbuffer.c:103-107 | appends the bytes before the first NUL, and no NUL; when the new count passes the capacity, the capacity becomes `ExtraCapacity` of it |
| FBuffer.Buffer.PushString | src/core/objects/fbuffer.c:116-118 | appends the contents of a string; when the new count passes the capacity, the capacity becomes `ExtraCapacity` of it |
| FBuffer.Buffer.PushU8 | src/core/objects/fbuffer.c:121-125 | appends one byte; when the new count passes the capacity, the capacity becomes `ExtraCapacity` of it |
| FBuffer.Buffer.PushU16 | src/core/objects/fbuffer.c:128-133 | appends the two little-endian bytes, which read back as x; when the new count passes the capacity, the capacity becomes `ExtraCapacity` of it |
| FBuffer.Buffer.PushU32 | src/core/objects/fbuffer.c:136-142 | appends the four little-endian bytes, which read back as x; when the new count passes the capacity, the capacity becomes `ExtraCapacity` of it |
| FBuffer.Buffer.PushU64 | src/core/objects/fbuffer.c:145-157 | appends the eight little-endian bytes, which read back as x; when the new count passes the capacity, the capacity becomes `ExtraCapacity` of it |
| Reader.IsWhitespace | src/core/parser.c:28-36 | the seven whitespace bytes, NUL among them; `WhitespaceNotSymbol` relates them to symbol bytes |
| Reader.IsSymbolChar | src/core/parser.c:39-62 | bytes with the top bit set, ASCII letters and digits, and 18 punctuation bytes; `SpecialBytes` and `ByteClasses` state how they meet the other classes |
| Reader.WhitespaceNotSymbol | src/core/parser.c:29-63 | no byte is both whitespace and a symbol character |
| Reader.SpecialBytes | src/core/parser.c:40-133 | of the 13 special bytes only `@` is a symbol character, and none is whitespace |
| Reader.ByteClasses | src/core/parser.c:96-145 | every byte is special, whitespace, a symbol character or unknown, and a symbol byte other than `@` is nothing else |
| Reader.Parser.Init | src/core/parser.c:148-158 | no error, offset 0, line 1, column 1, and an empty stack with no storage |
| Reader.Parser.PushParseState | src/core/parser.c:66-81 | pushes the frame and keeps the frames below; a full stack grows to twice the new count; count stays within capacity |
| Reader.Parser.PushState | src/core/parser.c:84-92 | pushes a frame with both counters 0, the given flags and consumer, and the current offset; a full stack grows to twice the new count, and otherwise the storage is kept |
| Reader.Parser.Expression | src/core/parser.c:96-145 | returns 0 exactly for a symbol character other than `@`; sets the error exactly for an unknown byte; changes nothing else |

## Left out

- Allocation failure: `fenn_gcalloc`, `malloc` and `realloc` always succeed, and the empty out-of-memory branches are not modelled. A NULL storage pointer is an empty array.
- The bytes `realloc` adds past the old contents are unspecified in C. `Memory.Realloc` fills them with a given value.
- `fenn_buffer_deinit` and `parser_destroy` only release memory, so they are not modelled. `fenn_buffer_destroy` is declared but never defined.
- The reader's `buffer` field is not modelled: `parser_init` never sets it, and `parser_destroy` only frees it.
- `fenn_truthy` names a macro that does not exist, so it is not modelled.
- `fenn_hash` on machines with 4-byte pointers is not modelled. Only the 64-bit branch is.
- The struct comparison and struct hash stubs are modelled as they stand: a struct is never equal, hashes to 0, and compares by address.
- FString.MemCmp: C promises only the sign of `memcmp`. The model returns the difference of the first differing bytes, so the size of a comparison result is one implementation's choice.
- FString.StringHead.Begin: int32 lengths are unbounded here, and a string's length is `|data|`.
- FBuffer.Buffer.Ensure: requires a growth factor of at least 1 whenever the buffer must grow. The only caller, `fenn_buffer_setcount`, passes 1 (`src/core/objects/fbuffer.c:77`). With 0 or less, the C code would shrink the storage below the bytes in use.
- FBuffer.Buffer.Extra: requires `count + n` to fit in int32, because the C check for that case is an empty branch.
- FBuffer.Buffer.Ensure: where `request * growth` does not fit in int32 it grows to the clamped `GrownCapacity`, while the C code wraps the product (first row under Findings on `fbuffer.c`).
- FBuffer.Buffer.Extra: where twice `count + n` does not fit in int32 it grows to the clamped `ExtraCapacity`, while the C code wraps the doubled size (second row under Findings on `fbuffer.c`). The same holds for `PushBytes`, `PushCString`, `PushString`, `PushU8`, `PushU16`, `PushU32` and `PushU64`, which grow through `Extra`: their `ExtraCapacity` is the clamped one.
- Reader.Parser.PushParseState: `size_t` overflow of the state count is not modelled.
- Reader.Parser.PushState: the conversion of a negative `int` offset to `size_t` is not modelled; the start is the offset itself.
- Algebra.Equals: the cached hash that `fenn_tuple_equal` writes back into a nested tuple is not carried into the snapshot. `Tuples.TupleHead.Equal` models the write-back for the two tuples it is given.

## Findings

| source | as written | input that shows it | evidently intended | confidence | as-written member | corrected member |
|---|---|---|---|---|---|---|
| src/core/util.c:58-107 | `fenn_hash` hashes a number's bit pattern, while `fenn_equals` compares numbers with `==`; `fenn_array_calchash` folds `fenn_hash`, so `fenn_tuple_equal` rejects tuples whose elements are pairwise equal | +0.0 and -0.0: equal, but they hash to 0 and 0x8000_0000; the tuples `[+0.0]` and `[-0.0]`, hashes not yet cached, get different array hashes and compare unequal | values that are equal hash alike, and array hashes folded from the corrected hash agree on pairwise-equal elements | not executed | Algebra.SignedZeroHashMismatch | Algebra.EqualsImpliesHashEqual (with Algebra.Hash and Algebra.PairwiseEqualArrayHash) |
| src/core/objects/fbuffer.c:61-62 | `capacity * growth` is formed in int32 before it is widened, so the clamp to INT32_MAX never fires | request 2^30, growth 2: the product wraps to -2^31 | the product formed in 64 bits and clamped to INT32_MAX | not executed | FBuffer.EnsureProductOverflow (with FBuffer.GrownCapacityAsWritten) | FBuffer.GrownCapacity |
| src/core/objects/fbuffer.c:90-92 | `new_size * 2` is formed in int32 | a needed size of 2^30 doubles to -2^31 | twice the size, clamped to INT32_MAX | not executed | FBuffer.ExtraDoublingOverflow (with FBuffer.ExtraCapacityAsWritten) | FBuffer.ExtraCapacity |
