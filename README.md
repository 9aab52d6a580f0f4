# Transaction-review core of the Kava Ledger app, in Dafny

This project models `app/src/parser.c` of the Kava fork of the Cosmos Ledger app. That file decides
whether a parsed transaction can be shown on the device, and renders each display item into small
fixed-size key and value buffers. The model covers:

- **Token equality** (`parser_areEqual`): a bounds-checked comparison of a JSON token with a literal.
- **Amount classification** (`parser_isAmount`) and **denomination matching** (`is_denom_base`).
  Matching is switched off in expert mode.
- **Denomination conversion** (`convert_denomination`): a 50-byte scratch buffer, `fpstr_to_str`,
  then a space and the symbol.
- **Amount formatting** (`parser_formatAmount`), in this order:
  - skip an array wrapper;
  - count the elements (`"Empty"` for zero, exactly four otherwise);
  - check the `"amount"`/`"denom"` keys at fixed offsets;
  - reject degenerate spans;
  - check the 160-byte `bufferUI` capacity;
  - copy the text into it, translated by the first matching table entry or verbatim.
- **Item enumeration** (`parser_getItem`): zero both buffers, check the item count and the index,
  dispatch amount keys to the amount formatter and other keys to `tx_getToken`, run the friendly
  pass, and append `" [page/count]"` to the key when the value spans several pages.
- **The validation pass** (`parser_validate`): every item must render at page 0 before signing.

Layout, one module per file:

- `common.dfy` (`ParserCommon`): the `parser_error_t` tags, plus `Outcome`, `Result` and `Option`.
- `cstrings.dfy` (`CStrings`): NUL-terminated buffers.
  - `strlen` is `CStrLen`, and the string a C call sees is `CString`.
  - `snprintf` is `SnprintfAt`/`Snprintf`.
  - `memset`/`memcpy` are `Fill`, `MemZero` and `MemCpy` over `array<char>`.
  - `%d` is `Decimal`.
- `json.dfy` (`Json`): jsmn tokens `{kind, start, end}` over the transaction bytes, the `int16_t`
  span length (`Int16`, `SpanLen`), what the parser trusts of the tokenizer (`WellFormed`), and
  `parser_areEqual`.
- `collaborators.dfy` (`Collaborators`): the functions `parser.c` calls but does not define, all
  fields of one value `Env`. The contracts the parser relies on them to keep are gathered in `Sound`.
  The global `parser_tx_obj` becomes an explicit `Tx` value. The denomination table is an ordered
  sequence of `DenomEntry` in `Env`.
- `amount.dfy` (`Amount`): `parser_isAmount`, `is_denom_base`, `convert_denomination` and
  `parser_formatAmount`, with the lemmas about them.
- `parser.dfy` (`Parser`): `parser_getNumItems`, `parser_getItem` and `parser_validate`.

The model follows the source's form:

- The output buffers are arrays, and the methods write them in place.
- Each method's postcondition equates the buffers and out-parameters it leaves with a pure function
  of its inputs (`FormatAmountSpec`, `GetItemSpec`). The properties are lemmas about those functions.
- `parser_validate` is a loop over the item index, proved against the statement that every item
  renders.

Integer widths are written out where they matter:

- Span lengths are truncated to `int16_t`.
- `is_denom_base` receives the denomination length through a `uint8_t` parameter, so the model takes
  it modulo 256. Because of that truncation, `is_denom_base` by itself accepts a denomination of 256
  or more bytes that only starts with the base (`LongDenomMatchesByPrefix`). `parser_formatAmount`
  never passes such a length: its capacity check runs first and keeps the denomination under 158
  bytes, so every match it asks for is exact (`MatchedDenomIsConverted`).
- Page counts, the item count and `parser_getItem`'s page index are `uint8_t`, and its display index is
  `uint16_t`; `GetItem` takes them as naturals under those bounds.

Observations about the code:

- Only the first element of an amount array is examined. After the array wrapper, `parser_formatAmount`
  reads the next token (one object) and its four children, and no token after them
  (`AmountReadsSixTokens`). With an array of coins, the value shown is that of the first coin.
- The value buffer is zeroed before the span and capacity checks, so those failures leave it zeroed
  rather than as it was (`DegenerateSpanIsBufferEnd`). `bufferUI` is not written before the checks pass.
- The model does not assume that `pageString` reports at least one page.
- `parser_areEqual` measures the literal with `strlen`, so it compares only up to the literal's first
  NUL (`AreEqual`). Both literals the parser passes, `"amount"` and `"denom"`, are free of NULs.
- The verbatim text is exactly `amount ++ " " ++ denom` only when neither span contains a NUL byte.
  Everything after an embedded NUL is invisible to the pager (`UnmatchedDenomIsVerbatim`).

## Model

| member | source | states |
|---|---|---|
| `Json.Int16` | app/src/parser.c:67 | the `int16_t` conversion of a span length lands in [-32768, 32768) and leaves lengths already in that range unchanged |
| `Json.AreEqual` | app/src/parser.c:60-88 | returns true exactly when the token is a STRING, its int16 length is non-negative and equals `strlen` of the literal, and every byte `start + k` with `k < len` equals the literal's byte `k`; never fails |
| `Json.TokenEqualsReadsSpan` | app/src/parser.c:60-88 | the outcome of the comparison depends only on the token and the bytes of its span: two transactions that agree on those give the same answer |
| `Json.TokenEqualsSpan` | app/src/parser.c:60-88 | for a non-empty literal, token equality is the same as "a STRING token with a positive length whose bytes are the literal" |
| `Amount.IsAmount` | app/src/parser.c:90-114 | a key is an amount key exactly when its C string is one of the seven listed paths |
| `Amount.DenomMatchIsExact` | app/src/parser.c:116-132 | for a denomination under 256 bytes, a base matches exactly when not in expert mode and the denomination equals the base in length and in every byte |
| `Amount.LongDenomMatchesByPrefix` | app/src/parser.c:116-132 | because the length reaches `is_denom_base` as `uint8_t`, a denomination of `base` followed by 256 more bytes matches `base` |
| `Amount.FirstMatch` | app/src/parser.c:224-255 | the table entries are tried in order: the result is the first entry whose base matches, and none is returned only when no entry matches |
| `Amount.ConvertedReadsBack` | app/src/parser.c:134-155 | conversion fails with `parser_unexpected_error` exactly when the amount length is negative or at least 50, or `fpstr_to_str` fails; otherwise the buffer reads back as the formatted number, a space and the symbol, with a NUL byte left in the 160 |
| `Amount.ConvertDenomination` | app/src/parser.c:134-155 | starting from a zeroed `bufferUI`, leaves it as the conversion result, or zeroed with the conversion's error |
| `Amount.CheckCoinShape` | app/src/parser.c:161-188 | skips an array wrapper, and returns the element-count error, an empty coin list for a zero count, `parser_unexpected_field` for a count other than 4, a non-object, or wrong keys at `+1`/`+3`, else the object's index; writes nothing |
| `Amount.FillAmountBuffer` | app/src/parser.c:194-267 | from a zeroed `bufferUI`, reports `parser_unexpected_buffer_end` for a negative amount start, empty spans or an overflowing total, with the buffer still zero; otherwise leaves the verbatim or converted text |
| `Amount.FormatAmount` | app/src/parser.c:157-272 | leaves the status, the value buffer and the page count that the amount formatter's specification gives for the old buffer |
| `Amount.EmptyCoinListRendersEmpty` | app/src/parser.c:162-176 | a zero element count succeeds with one page, and the value reads `"Empty"` whenever the buffer has room for it |
| `Amount.MalformedCoinIsUnexpectedField` | app/src/parser.c:178-188 | with a non-zero count, the result is `parser_unexpected_field` with the value buffer untouched and no page, exactly when the count is not 4, the token is not an object, or the keys are not literally `"amount"` and `"denom"` |
| `Amount.DegenerateSpanIsBufferEnd` | app/src/parser.c:190-219 | for a well-shaped object, the result is `parser_unexpected_buffer_end` with a zeroed value buffer exactly when the amount starts before the buffer, either span length is not positive, or amount + denom + 2 exceeds 160 |
| `Amount.UnmatchedDenomIsVerbatim` | app/src/parser.c:224-261 | in expert mode, or when no table entry matches, `bufferUI` is `amount ++ " " ++ denom` padded with zeros, with a zero byte right after the text; without embedded NULs the pager is handed exactly that text |
| `Amount.MatchedDenomIsConverted` | app/src/parser.c:224-255 | a translated denomination is never translated in expert mode, equals the base of the entry used byte for byte, differs from every earlier entry's base, and yields that entry's conversion |
| `Amount.AmountReadsSixTokens` | app/src/parser.c:157-272 | for the same answer from `array_get_element_count`, two transactions that agree on the value token, the five after it and the bytes of their spans render the same value: nothing past the first array element is read |
| `Parser.GetNumItems` | app/src/parser.c:54-58 | the item count is the collaborator's, and fits a `uint8_t` |
| `Parser.PageSuffixOnlyWhenPaged` | app/src/parser.c:322-329 | the key buffer is unchanged unless the page count exceeds 1 and the key has a NUL within the buffer; then the key keeps its text, gets as much of `" [pageIdx+1/pageCount]"` as fits, and stays NUL-terminated |
| `Parser.ItemIndexChecks` | app/src/parser.c:280-297 | zero items gives `parser_unexpected_number_items`, an index at or past the count gives `parser_display_idx_out_of_range`; both leave both buffers zeroed and no page; success implies the index is in range |
| `Parser.GetItem` | app/src/parser.c:274-333 | leaves the status, key buffer, value buffer and page count that the item specification gives (zeroing first, index checks, query, dispatch on `IsAmount`, friendly pass, page suffix) |
| `Parser.Validate` | app/src/parser.c:34-52 | succeeds exactly when `tx_validate` passes, the item count is known and every item in `[0, numItems)` renders at page 0 into 40-byte buffers; otherwise returns the first error, in the order structural check, item count, lowest failing index |

## Left out

- `parser_parse` and the tokenizer (`tx_display_readTx`) are not part of this model. The token
  array and the bytes are inputs (`Tx`).
- The collaborators have no bodies here; each is a field of `Env`:
  - `tx_validate`, `tx_display_numItems`, `tx_display_query`, `tx_getToken`, `pageString`,
    `fpstr_to_str`, `tx_display_make_friendly`, `array_get_element_count`, `tx_is_expert_mode`.
  - `Sound` states what the parser relies on them for: they write within the buffers they are
    given, page counts fit a `uint8_t`, `fpstr_to_str` output fits 50 bytes, and table symbols fit
    after it.
- When a collaborator fails, the model leaves the buffers as they were before the call. The source
  does not say what a failing collaborator writes.
- `tx_display_make_friendly` takes no arguments in the source and rewrites the key and value
  buffers through pointers stored by the query. Here it is a function from the two buffers to their
  new contents.
- `fpstr_to_str` is uninterpreted: the model makes no claim about specific decimal outputs or about
  the scale-down/scale-up round trip.
- `pageString` is uninterpreted: that the pages concatenate back to the text, and that there is
  always at least one page, are neither assumed nor proved.
- `CHECK_APP_CANARY` is not modelled: every array write in the model is proved in bounds, which is
  what the canary guards at run time.
- The concrete `*_DENOM_BASE`, `*_DENOM_REPR` and `*_DENOM_FACTOR` constants are in a header that is
  not part of this model. The table is a parameter, with each symbol under 110 bytes and free of NULs.
- Reads of token indices past the token array: the source never checks them. For amount keys only,
  `AmountQueriesFit` requires that the tokens `parser_formatAmount` indexes exist: the value token,
  and, when the element count is 4, the object after any array wrapper and its four children. Values
  of other keys are handed to `tx_getToken` by index, and nothing is assumed about them.
- `array_get_element_count` receives the whole token array in the source. Here it is a function of
  the token index alone, so `AmountReadsSixTokens` takes its agreement on the two transactions as a
  hypothesis.
- Reads outside the transaction bytes: `WellFormed` requires that every token with a positive length
  lies inside the bytes. Degenerate and negative spans are still inputs, and their rejection is proved.
- "The last item always renders" is not stated, because whether it renders depends on the
  collaborators.
- `%d` in the page suffix is rendered by `Decimal` for natural numbers. Nothing else of `snprintf`'s
  formatting is modelled.
