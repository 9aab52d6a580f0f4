/** The tokenizer's output as the parser consumes it: typed spans over the raw transaction bytes,
    and the bounds-checked comparison of a token with a literal (`parser_areEqual`). */
module Json {
  import opened CStrings

  /** jsmn token kinds. */
  datatype TokenType = Undefined | Object | Array | String | Primitive

  /** A span `[start, end)` of the transaction bytes; `int` offsets, as jsmn stores them. */
  datatype Token = Token(kind: TokenType, start: int, end: int)

  /** The parsed transaction (`parser_tx_obj`): the token array and the bytes it points into. */
  datatype Tx = Tx(tokens: seq<Token>, bytes: seq<char>)

  /** `(int16_t)x`: two's-complement truncation to 16 bits. */
  function Int16(x: int): (r: int)
    ensures -0x8000 <= r < 0x8000
    ensures -0x8000 <= x < 0x8000 ==> r == x
  {
    (x + 0x8000) % 0x1_0000 - 0x8000
  }

  /** `int16_t len = tokens[i].end - tokens[i].start`, as every length in the parser is computed. */
  function SpanLen(t: Token): (len: int)
    ensures -0x8000 <= len < 0x8000
  {
    Int16(t.end - t.start)
  }

  /** What the parser relies on from the tokenizer: a token whose computed length is positive lies
      inside the transaction bytes. Degenerate and negative spans are allowed: the parser rejects them. */
  ghost predicate WellFormed(tx: Tx)
  {
    forall i :: 0 <= i < |tx.tokens| && SpanLen(tx.tokens[i]) > 0 ==>
      0 <= tx.tokens[i].start && tx.tokens[i].start + SpanLen(tx.tokens[i]) <= |tx.bytes|
  }

  /** The bytes of a token with a positive length. */
  function Span(tx: Tx, i: nat): (s: seq<char>)
    requires WellFormed(tx) && i < |tx.tokens| && SpanLen(tx.tokens[i]) > 0
    ensures |s| == SpanLen(tx.tokens[i])
  {
    tx.bytes[tx.tokens[i].start .. tx.tokens[i].start + SpanLen(tx.tokens[i])]
  }

  /** Token `i` is a string token whose bytes are exactly `expected`. */
  ghost predicate TokenEquals(tx: Tx, i: nat, expected: string)
    requires WellFormed(tx) && i < |tx.tokens|
  {
    var t := tx.tokens[i];
    && t.kind == String
    && SpanLen(t) >= 0
    && |expected| == SpanLen(t)
    && forall k :: 0 <= k < |expected| ==> tx.bytes[t.start + k] == expected[k]
  }

  /** For a non-empty literal, equality is equality of the token's bytes with the literal. */
  lemma TokenEqualsSpan(tx: Tx, i: nat, expected: string)
    requires WellFormed(tx) && i < |tx.tokens| && |expected| > 0
    ensures TokenEquals(tx, i, expected) <==>
      tx.tokens[i].kind == String && SpanLen(tx.tokens[i]) > 0 && Span(tx, i) == expected
  {
    if tx.tokens[i].kind == String && SpanLen(tx.tokens[i]) > 0 && Span(tx, i) == expected {
      forall k | 0 <= k < |expected| ensures tx.bytes[tx.tokens[i].start + k] == expected[k] {
        assert Span(tx, i)[k] == tx.bytes[tx.tokens[i].start + k];
      }
    }
  }

  /** Whether a token equals a literal depends only on the token and the bytes of its span. */
  lemma TokenEqualsReadsSpan(tx: Tx, tx': Tx, i: nat, expected: string)
    requires WellFormed(tx) && WellFormed(tx') && i < |tx.tokens| && i < |tx'.tokens|
    requires tx.tokens[i] == tx'.tokens[i]
    requires SpanLen(tx.tokens[i]) > 0 ==> Span(tx, i) == Span(tx', i)
    ensures TokenEquals(tx, i, expected) <==> TokenEquals(tx', i, expected)
  {
    if |expected| > 0 {
      TokenEqualsSpan(tx, i, expected);
      TokenEqualsSpan(tx', i, expected);
    }
  }

  /** `parser_areEqual`: never fails, and compares the token with `expected` up to its first NUL, as
      `strlen` measures it, stopping at the first mismatching byte. */
  method AreEqual(tx: Tx, i: nat, expected: string) returns (equal: bool)
    requires WellFormed(tx) && i < |tx.tokens|
    ensures equal == TokenEquals(tx, i, CString(expected))
  {
    var t := tx.tokens[i];
    if t.kind != String {
      return false;
    }
    var len := SpanLen(t);
    if len < 0 {
      return false;
    }
    if CStrLen(expected) != len {
      return false;
    }
    ghost var literal := CString(expected);
    var k := 0;
    while k < len
      invariant 0 <= k <= len
      invariant forall j :: 0 <= j < k ==> tx.bytes[t.start + j] == literal[j]
    {
      assert literal[k] == expected[k];
      if expected[k] != tx.bytes[t.start + k] {
        return false;
      }
      k := k + 1;
    }
    return true;
  }
}
