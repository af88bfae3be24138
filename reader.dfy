/**
 * The first pieces of the reader: byte classification, the stack of parse
 * states (each a consumer with its counters and the offset it started at)
 * and the top-level `expression` consumer, which so far only says whether
 * it consumed the byte and flags bytes it cannot place.
 */
module Reader {
  import Memory

  datatype Option<T> = None | Some(value: T)

  /** The consumer a parse state feeds bytes to; `expression` is the only
      one there is. */
  datatype Consumer = ExpressionConsumer

  /** One frame of the parse-state stack. */
  datatype ParseState = ParseState(counter: int, argn: int, flags: int, start: int, consumer: Consumer)

  const UNKNOWN_CHARACTER: string := "don't know what to do with this character"

  /** `is_whitespace`: bytes the reader skips. NUL counts as whitespace. */
  predicate IsWhitespace(c: bv8) {
    var n := c as int;
    n == ' ' as int || n == '\t' as int || n == '\n' as int || n == '\r' as int
    || n == 0 || n == 0x0B || n == 0x0C  // NUL, vertical tab, form feed
  }

  /** The punctuation `is_symbol_char` accepts besides letters and digits. */
  predicate IsSymbolPunctuation(c: bv8) {
    var n := c as int;
    n == '!' as int || n == '$' as int || n == '%' as int || n == '&' as int
    || n == '*' as int || n == '+' as int || n == '-' as int || n == '.' as int
    || n == '/' as int || n == ':' as int || n == '<' as int || n == '?' as int
    || n == '=' as int || n == '>' as int || n == '@' as int || n == '^' as int
    || n == '_' as int || n == '|' as int
  }

  /** `is_symbol_char`: bytes that may appear in a symbol: every byte with
      the top bit set (so UTF-8 passes through), ASCII letters and digits,
      and the punctuation above. */
  predicate IsSymbolChar(c: bv8) {
    var n := c as int;
    if n >= 0x80 then true  // c & 0x80
    else if 'a' as int <= n <= 'z' as int then true
    else if 'A' as int <= n <= 'Z' as int then true
    else if '0' as int <= n <= '9' as int then true
    else IsSymbolPunctuation(c)
  }

  /** The bytes `expression` handles before it looks at the byte's class:
      the reader macros, the string quote, the comment sign, the mutable
      operator and the brackets. */
  predicate IsSpecial(c: bv8) {
    var n := c as int;
    n == '\'' as int || n == ',' as int || n == ';' as int || n == '`' as int
    || n == '"' as int || n == '#' as int || n == '@' as int
    || n == '(' as int || n == '[' as int || n == '{' as int
    || n == ')' as int || n == ']' as int || n == '}' as int
  }

  /** A byte `expression` cannot place. */
  predicate IsUnknown(c: bv8) {
    !IsSpecial(c) && !IsWhitespace(c) && !IsSymbolChar(c)
  }

  /** No byte is both whitespace and part of a symbol. */
  lemma WhitespaceNotSymbol(c: bv8)
    ensures !(IsWhitespace(c) && IsSymbolChar(c))
  {
  }

  /** Of the special bytes only `@` may also appear in a symbol, and none is
      whitespace. */
  lemma SpecialBytes(c: bv8)
    requires IsSpecial(c)
    ensures IsSymbolChar(c) <==> c == '@' as bv8
    ensures !IsWhitespace(c)
  {
  }

  /** Every byte falls in one of the four classes `expression` tells apart
      (special, whitespace, symbol, unknown), and a symbol byte other than
      `@` is in no other class. */
  lemma ByteClasses(c: bv8)
    ensures IsSpecial(c) || IsWhitespace(c) || IsSymbolChar(c) || IsUnknown(c)
    ensures IsSymbolChar(c) && c != '@' as bv8 ==> !IsSpecial(c) && !IsWhitespace(c)
  {
    WhitespaceNotSymbol(c);
  }

  class Parser {
    var error: Option<string>
    var states: array<ParseState>
    var statecount: int
    var statecap: int
    var offset: int
    var lineno: int
    var colno: int

    /** The states array holds exactly `statecap` frames (none while the
        pointer is NULL) and the first `statecount` are in use. */
    ghost predicate Valid()
      reads this
    {
      0 <= statecount <= statecap && states.Length == statecap
    }

    /** The parse-state stack, bottom first. */
    function Stack(): seq<ParseState>
      reads this, states
      requires Valid()
    {
      states[..statecount]
    }

    /** `parser_init`: no error, at the start of line 1, column 1, with an
        empty stack and no storage for it. */
    constructor Init()
      ensures Valid() && Stack() == []
      ensures error == None && offset == 0 && lineno == 1 && colno == 1
      ensures statecount == 0 && statecap == 0 && states.Length == 0
    {
      error := None;
      offset := 0;
      lineno := 1;
      colno := 1;
      states := new ParseState[0];
      statecount := 0;
      statecap := 0;
    }

    /** `_pushstate`: pushes a frame, first reallocating the stack to twice
        the new count when it is full. Earlier frames and every other field
        stay as they are. */
    method PushParseState(ps: ParseState)
      requires Valid()
      modifies this, states
      ensures Valid() && Stack() == old(Stack()) + [ps]
      ensures statecount == old(statecount) + 1
      ensures old(statecount) + 1 > old(statecap) ==> statecap == 2 * statecount && fresh(states)
      ensures old(statecount) + 1 <= old(statecap) ==> statecap == old(statecap) && states == old(states)
      ensures error == old(error) && offset == old(offset) && lineno == old(lineno) && colno == old(colno)
    {
      var oldcount := statecount;
      var newcount := oldcount + 1;
      ghost var before := Stack();
      if newcount > statecap {
        var newcap := 2 * newcount;
        states := Memory.Realloc(states, newcap, ps);
        statecap := newcap;
      }
      assert states[..oldcount] == before;
      states[oldcount] := ps;
      assert states[..newcount] == before + [ps];
      statecount := newcount;
    }

    /** `pushstate`: pushes a fresh frame for the consumer with both counters
        at 0, starting at the current offset. */
    method PushState(consumer: Consumer, flags: int)
      requires Valid()
      modifies this, states
      ensures Valid() && Stack() == old(Stack()) + [ParseState(0, 0, flags, old(offset), consumer)]
      ensures old(statecount) + 1 > old(statecap) ==> statecap == 2 * statecount && fresh(states)
      ensures old(statecount) + 1 <= old(statecap) ==> statecap == old(statecap) && states == old(states)
      ensures error == old(error) && offset == old(offset) && lineno == old(lineno) && colno == old(colno)
    {
      var s := ParseState(0, 0, flags, offset, consumer);
      PushParseState(s);
    }

    /** `expression`: consumes every byte except one that can begin a symbol
        (`@` is taken as the mutable operator instead), and records an error
        for a byte it cannot place. Nothing else changes. */
    method Expression(state: ParseState, c: bv8) returns (consumed: int)
      modifies this`error
      ensures consumed == 0 || consumed == 1
      ensures consumed == 0 <==> IsSymbolChar(c) && c != '@' as bv8
      ensures error == if IsUnknown(c) then Some(UNKNOWN_CHARACTER) else old(error)
    {
      ByteClasses(c);
      var n := c as int;
      if n == '\'' as int || n == ',' as int || n == ';' as int || n == '`' as int {
        return 1;
      }
      if n == '"' as int {
        return 1;
      }
      if n == '#' as int {
        return 1;
      }
      if n == '@' as int {
        return 1;
      }
      if n == '(' as int || n == '[' as int || n == '{' as int {
        return 1;
      }
      if n == ')' as int || n == ']' as int || n == '}' as int {
        return 1;
      }
      if IsWhitespace(c) {
        return 1;
      }
      if !IsSymbolChar(c) {
        error := Some(UNKNOWN_CHARACTER);
        return 1;
      }
      return 0;
    }
  }
}
