/** The functions the parser calls but does not define, gathered into one value per transaction,
    and the contracts the parser relies on them to keep. */
module Collaborators {
  import opened ParserCommon
  import opened CStrings
  import opened Json

  /** One row of the denomination table: base denomination, display symbol, decimal places. */
  datatype DenomEntry = DenomEntry(base: string, repr: string, factor: nat)

  /** What a pager leaves behind: the whole output buffer and the number of pages. */
  datatype Page = Page(buf: seq<char>, count: nat)

  /** What `tx_display_query` hands back: the key it writes into the key buffer and the value token. */
  datatype Query = Query(key: seq<char>, token: nat)

  /** The collaborators of one transaction-review session. */
  datatype Env = Env(
    expertMode: bool,                                    // tx_is_expert_mode()
    txValidate: Outcome,                                 // tx_validate(&json)
    numItems: Result<nat>,                               // tx_display_numItems(&n)
    elementCount: nat -> Result<nat>,                    // array_get_element_count(&json, token, &n)
    query: (nat, nat) -> Result<Query>,                  // tx_display_query(displayIdx, key, keyLen, &token)
    getToken: (nat, nat, nat) -> Result<Page>,           // tx_getToken(token, val, valLen, pageIdx, &count)
    pageString: (string, nat, nat) -> Page,              // pageString(val, valLen, text, pageIdx, &count)
    fpstrToStr: (string, nat) -> Option<string>,         // fpstr_to_str(out, 50, digits, factor)
    makeFriendly: (seq<char>, seq<char>) -> Result<(seq<char>, seq<char>)>,  // tx_display_make_friendly()
    denoms: seq<DenomEntry>)                             // the *_DENOM_BASE/_REPR/_FACTOR constants, in order

  /** Size of the scratch buffer `tmp` of `convert_denomination`, which is also the room it gives `fpstr_to_str`. */
  const FormatScratchSize: nat := 50

  /** Size of `bufferUI` in `parser_formatAmount`. */
  const BufferUISize: nat := 160

  /** Table constants are C string literals, and a symbol fits after a formatted number with a NUL to spare. */
  predicate DenomOk(e: DenomEntry)
  {
    NoNul(e.base) && NoNul(e.repr) && FormatScratchSize + |e.repr| < BufferUISize && e.factor < 256
  }

  ghost predicate DenomsOk(denoms: seq<DenomEntry>)
  {
    forall i :: 0 <= i < |denoms| ==> DenomOk(denoms[i])
  }

  /** `fpstr_to_str` writes a NUL-terminated string into the 50 bytes it is given, or fails. */
  ghost predicate FormatterSound(fpstr: (string, nat) -> Option<string>)
  {
    forall s, f :: fpstr(s, f).Some? ==> |fpstr(s, f).value| < FormatScratchSize && NoNul(fpstr(s, f).value)
  }

  /** Pagers write the whole output buffer they are given and count pages in a `uint8_t`. */
  ghost predicate PagersSound(env: Env)
  {
    && (forall s, cap, p :: |env.pageString(s, cap, p).buf| == cap && env.pageString(s, cap, p).count < 256)
    && (forall t, cap, p :: env.getToken(t, cap, p).Ok? ==>
          |env.getToken(t, cap, p).value.buf| == cap && env.getToken(t, cap, p).value.count < 256)
  }

  /** The display query writes within the key buffer it is given. */
  ghost predicate QuerySound(env: Env)
  {
    forall d, cap :: env.query(d, cap).Ok? ==> |env.query(d, cap).value.key| <= cap
  }

  /** The friendly pass rewrites the key and value buffers in place. */
  ghost predicate FriendlySound(env: Env)
  {
    forall k, v :: env.makeFriendly(k, v).Ok? ==>
      |env.makeFriendly(k, v).value.0| == |k| && |env.makeFriendly(k, v).value.1| == |v|
  }

  /** Every contract the parser relies on its collaborators to keep. */
  ghost predicate Sound(env: Env)
  {
    && (env.numItems.Ok? ==> env.numItems.value < 256)
    && QuerySound(env)
    && PagersSound(env)
    && FormatterSound(env.fpstrToStr)
    && FriendlySound(env)
    && DenomsOk(env.denoms)
  }
}
