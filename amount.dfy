/** Amount values: which keys carry amounts (`parser_isAmount`), denomination matching
    (`is_denom_base`), conversion to a display symbol (`convert_denomination`) and the rendering of
    an amount object into the value buffer (`parser_formatAmount`). */
module Amount {
  import opened ParserCommon
  import opened CStrings
  import opened Json
  import opened Collaborators

  /** The key paths whose values are coin amounts. */
  const AmountKeys: seq<string> := [
    "fee/amount", "msgs/inputs/coins", "msgs/outputs/coins", "msgs/value/amount",
    "msgs/value/collateral", "msgs/value/principal", "msgs/value/payment"]

  /** `parser_isAmount`, applied to the C string held in the key buffer. */
  function IsAmount(key: seq<char>): (amount: bool)
    ensures amount <==> key in AmountKeys
  {
    || key == "fee/amount"
    || key == "msgs/inputs/coins"
    || key == "msgs/outputs/coins"
    || key == "msgs/value/amount"
    || key == "msgs/value/collateral"
    || key == "msgs/value/principal"
    || key == "msgs/value/payment"
  }

  /** `is_denom_base(denomPtr, base, denomLen)`, where `denom` is the denomination span. The length
      reaches the function through a `uint8_t` parameter, so it is taken modulo 256. */
  function IsDenomBase(expert: bool, denom: seq<char>, base: string): (matches: bool)
  {
    var lenArg := |denom| % 256;
    if expert then false
    else if |base| != lenArg then false
    else denom[..lenArg] == base
  }

  /** For a denomination shorter than 256 bytes the match is exact: same length, same bytes, and
      never in expert mode. */
  lemma DenomMatchIsExact(expert: bool, denom: seq<char>, base: string)
    requires |denom| < 256
    ensures IsDenomBase(expert, denom, base) <==> !expert && denom == base
  {
    assert denom[..|denom|] == denom;
  }

  /** Past 255 bytes the `uint8_t` length makes `is_denom_base` accept any denomination that merely
      starts with the base; `parser_formatAmount` never gets there, since its capacity check keeps
      the denomination under 158 bytes. */
  lemma LongDenomMatchesByPrefix(base: string, tail: seq<char>)
    requires |base| < 256 && |tail| == 256
    ensures base + tail != base
    ensures IsDenomBase(false, base + tail, base)
  {
    assert (base + tail)[..|base|] == base;
    assert |base + tail| != |base|;
  }

  /** The `if / else if` chain over the denomination table: the index of the first entry, from
      `from` on, whose base matches `denom`. */
  function FirstMatch(expert: bool, denoms: seq<DenomEntry>, denom: seq<char>, from: nat): (r: Option<nat>)
    requires from <= |denoms|
    decreases |denoms| - from
    ensures r.Some? ==> from <= r.value < |denoms| && IsDenomBase(expert, denom, denoms[r.value].base)
    ensures forall j :: from <= j < |denoms| && (r.None? || j < r.value) ==>
      !IsDenomBase(expert, denom, denoms[j].base)
  {
    if from == |denoms| then None
    else if IsDenomBase(expert, denom, denoms[from].base) then Some(from)
    else FirstMatch(expert, denoms, denom, from + 1)
  }

  /** `bufferUI` after `convert_denomination` (it starts zeroed): the number `fpstr_to_str` makes of
      the amount's digits, a space and the symbol. */
  function Converted(fpstr: (string, nat) -> Option<string>, amountLen: int, amount: seq<char>,
                     repr: string, factor: nat): (r: Result<seq<char>>)
    requires FormatterSound(fpstr) && NoNul(repr) && FormatScratchSize + |repr| < BufferUISize
    requires 0 <= amountLen < FormatScratchSize ==> amountLen <= |amount|
  {
    if amountLen < 0 || amountLen >= FormatScratchSize then Err(UnexpectedError)
    else match fpstr(CString(amount[..amountLen]), factor)
      case None => Err(UnexpectedError)
      case Some(digits) => Ok(digits + [' '] + repr + Zeros(BufferUISize - |digits| - 1 - |repr|))
  }

  /** `convert_denomination` fails with `parser_unexpected_error` exactly when the amount does not fit
      the 50-byte scratch buffer or `fpstr_to_str` fails; otherwise the buffer reads back as the
      formatted number, a space and the symbol, with a NUL to spare. */
  lemma ConvertedReadsBack(fpstr: (string, nat) -> Option<string>, amountLen: int, amount: seq<char>,
                           repr: string, factor: nat)
    requires FormatterSound(fpstr) && NoNul(repr) && FormatScratchSize + |repr| < BufferUISize
    requires 0 <= amountLen < FormatScratchSize ==> amountLen <= |amount|
    ensures amountLen < 0 || amountLen >= FormatScratchSize ==>
      Converted(fpstr, amountLen, amount, repr, factor) == Err(UnexpectedError)
    ensures 0 <= amountLen < FormatScratchSize ==>
      var formatted := fpstr(CString(amount[..amountLen]), factor);
      var r := Converted(fpstr, amountLen, amount, repr, factor);
      && (formatted.None? <==> r == Err(UnexpectedError))
      && (formatted.Some? ==>
            r.Ok? && |r.value| == BufferUISize && CStrLen(r.value) < BufferUISize
            && CString(r.value) == formatted.value + " " + repr)
  {
    if 0 <= amountLen < FormatScratchSize {
      var formatted := fpstr(CString(amount[..amountLen]), factor);
      if formatted.Some? {
        var digits := formatted.value;
        var text := digits + [' '] + repr;
        NoNulConcat(digits, [' ']);
        NoNulConcat(digits + [' '], repr);
        var pad := Zeros(BufferUISize - |digits| - 1 - |repr|);
        assert digits + [' '] + repr + pad == text + pad;
        CStringOfTerminated(text, pad);
      }
    }
  }

  /** `convert_denomination`: copies the amount into the zeroed scratch buffer `tmp`, formats it into
      `bufferUI` and writes a space and the symbol after the number. */
  method ConvertDenomination(fpstr: (string, nat) -> Option<string>, amountLen: int, amount: seq<char>,
                             bufferUI: array<char>, repr: string, factor: nat) returns (status: Outcome)
    requires FormatterSound(fpstr) && NoNul(repr) && FormatScratchSize + |repr| < BufferUISize
    requires 0 <= amountLen < FormatScratchSize ==> amountLen <= |amount|
    requires bufferUI.Length == BufferUISize && bufferUI[..] == Zeros(BufferUISize)
    modifies bufferUI
    ensures match Converted(fpstr, amountLen, amount, repr, factor)
      case Ok(b) => status == Pass && bufferUI[..] == b
      case Err(e) => status == Fail(e) && bufferUI[..] == Zeros(BufferUISize)
  {
    if amountLen < 0 || amountLen >= FormatScratchSize {
      return Fail(UnexpectedError);
    }
    var tmp := new char[FormatScratchSize];
    MemZero(tmp);
    MemCpy(tmp, 0, amount[..amountLen]);
    assert tmp[..] == amount[..amountLen] + Zeros(FormatScratchSize - amountLen);
    CStringPadded(amount[..amountLen], Zeros(FormatScratchSize - amountLen));
    var formatted := fpstr(CString(tmp[..]), factor);
    if formatted.None? {
      return Fail(UnexpectedError);
    }
    var digits := formatted.value;
    MemCpy(bufferUI, 0, digits);
    assert bufferUI[..] == digits + Zeros(BufferUISize - |digits|);
    CStringOfTerminated(digits, Zeros(BufferUISize - |digits|));
    var formattedLen := CStrLen(bufferUI[..]);
    bufferUI[formattedLen] := ' ';
    MemCpy(bufferUI, formattedLen + 1, repr);
    assert bufferUI[..] == digits + [' '] + repr + Zeros(BufferUISize - |digits| - 1 - |repr|);
    return Pass;
  }

  /** An amount value, once its shape is checked: an empty coin list, or the object token whose
      children `+1 .. +4` are `"amount"`, the amount, `"denom"` and the denomination. */
  datatype Coin = NoCoins | CoinAt(obj: nat)

  /** `parser_formatAmount` looks through one array wrapper. */
  function ObjectToken(tx: Tx, token: nat): (t: nat)
    requires token < |tx.tokens|
  {
    if tx.tokens[token].kind == Array then token + 1 else token
  }

  /** The tokens `parser_formatAmount` indexes exist: the value token, and, when the element count
      is 4, the object token after any array wrapper and its four children. Nothing else is read
      from the token array. */
  ghost predicate AmountFits(env: Env, tx: Tx, token: nat)
  {
    && token < |tx.tokens|
    && (env.elementCount(ObjectToken(tx, token)) == Ok(4) ==> ObjectToken(tx, token) + 4 < |tx.tokens|)
  }

  /** Lines 161-188 of `parser_formatAmount`: the element count and the fixed-offset key checks. */
  ghost function CoinShape(env: Env, tx: Tx, token: nat): (r: Result<Coin>)
    requires WellFormed(tx) && AmountFits(env, tx, token)
    ensures r.Ok? && r.value.CoinAt? ==>
      var t := r.value.obj;
      t == ObjectToken(tx, token) && t + 4 < |tx.tokens| && tx.tokens[t].kind == Object
      && TokenEquals(tx, t + 1, "amount") && TokenEquals(tx, t + 3, "denom")
  {
    var t := ObjectToken(tx, token);
    match env.elementCount(t)
    case Err(e) => Err(e)
    case Ok(n) =>
      if n == 0 then Ok(NoCoins)
      else if n != 4 then Err(UnexpectedField)
      else if tx.tokens[t].kind != Object then Err(UnexpectedField)
      else if !TokenEquals(tx, t + 1, "amount") then Err(UnexpectedField)
      else if !TokenEquals(tx, t + 3, "denom") then Err(UnexpectedField)
      else Ok(CoinAt(t))
  }

  /** The span checks and the capacity check of lines 194-219, which come before any byte is
      copied into `bufferUI`. */
  ghost predicate SpansFit(tx: Tx, obj: nat)
    requires obj + 4 < |tx.tokens|
  {
    var a := tx.tokens[obj + 2];
    var d := tx.tokens[obj + 4];
    a.start >= 0 && SpanLen(a) > 0 && SpanLen(d) > 0 && SpanLen(a) + SpanLen(d) + 2 <= BufferUISize
  }

  /** `"<amount> <denom>"` copied verbatim into the zeroed 160-byte buffer. */
  function Verbatim(amount: seq<char>, denom: seq<char>): (b: seq<char>)
    requires |amount| + |denom| + 2 <= BufferUISize
  {
    amount + [' '] + denom + Zeros(BufferUISize - |amount| - |denom| - 1)
  }

  /** `bufferUI` at line 269 of `parser_formatAmount`, for an object of checked shape. */
  ghost function AmountBuffer(env: Env, tx: Tx, obj: nat): (r: Result<seq<char>>)
    requires Sound(env) && WellFormed(tx) && obj + 4 < |tx.tokens|
    ensures r.Err? ==> r.error == UnexpectedBufferEnd || r.error == UnexpectedError
    ensures r.Ok? ==> |r.value| == BufferUISize
  {
    var a := tx.tokens[obj + 2];
    var d := tx.tokens[obj + 4];
    if a.start < 0 then Err(UnexpectedBufferEnd)
    else if SpanLen(a) <= 0 then Err(UnexpectedBufferEnd)
    else if SpanLen(d) <= 0 then Err(UnexpectedBufferEnd)
    else if BufferUISize < SpanLen(a) + SpanLen(d) + 2 then Err(UnexpectedBufferEnd)
    else
      var amount := Span(tx, obj + 2);
      var denom := Span(tx, obj + 4);
      match FirstMatch(env.expertMode, env.denoms, denom, 0)
      case None => Ok(Verbatim(amount, denom))
      case Some(i) =>
        assert DenomOk(env.denoms[i]);
        Converted(env.fpstrToStr, SpanLen(a), amount, env.denoms[i].repr, env.denoms[i].factor)
  }

  /** The value buffer and page count `parser_formatAmount` leaves, and its status. */
  datatype Rendered = Rendered(status: Outcome, val: seq<char>, pageCount: nat)

  /** `parser_formatAmount(token, outVal, ..., pageIdx, &pageCount)`, where `outVal` is the value
      buffer on entry. */
  ghost function FormatAmountSpec(env: Env, tx: Tx, token: nat, outVal: seq<char>, pageIdx: nat): (r: Rendered)
    requires Sound(env) && WellFormed(tx) && AmountFits(env, tx, token)
    ensures |r.val| == |outVal|
    ensures r.status.Fail? ==> r.pageCount == 0
  {
    match CoinShape(env, tx, token)
    case Err(e) => Rendered(Fail(e), outVal, 0)
    case Ok(NoCoins) => Rendered(Pass, if |outVal| == 0 then outVal else SnprintfAt(outVal, 0, "Empty"), 1)
    case Ok(CoinAt(t)) =>
      match AmountBuffer(env, tx, t)
      case Err(e) => Rendered(Fail(e), Zeros(|outVal|), 0)
      case Ok(b) =>
        var page := env.pageString(CString(b), |outVal|, pageIdx);
        Rendered(Pass, page.buf, page.count)
  }

  /** Lines 161-188 of `parser_formatAmount`: skip an array wrapper, count the elements and check
      the object's kind and its two keys at their fixed offsets. Nothing is written. */
  method CheckCoinShape(env: Env, tx: Tx, amountToken: nat) returns (coin: Result<Coin>)
    requires WellFormed(tx) && AmountFits(env, tx, amountToken)
    ensures coin == CoinShape(env, tx, amountToken)
  {
    var t := amountToken;
    if tx.tokens[t].kind == Array {
      t := t + 1;
    }
    var count := env.elementCount(t);
    if count.Err? {
      return Err(count.error);
    }
    var numElements := count.value;
    if numElements == 0 {
      return Ok(NoCoins);
    }
    if numElements != 4 {
      return Err(UnexpectedField);
    }
    if tx.tokens[t].kind != Object {
      return Err(UnexpectedField);
    }
    CStringOfNoNul("amount");
    CStringOfNoNul("denom");
    var amountKey := AreEqual(tx, t + 1, "amount");
    if !amountKey {
      return Err(UnexpectedField);
    }
    var denomKey := AreEqual(tx, t + 3, "denom");
    if !denomKey {
      return Err(UnexpectedField);
    }
    return Ok(CoinAt(t));
  }

  /** Lines 194-267 of `parser_formatAmount`: the span and capacity checks, then either the
      conversion of the first matching table entry or the verbatim copy into the zeroed `bufferUI`. */
  method FillAmountBuffer(env: Env, tx: Tx, obj: nat, bufferUI: array<char>) returns (status: Outcome)
    requires Sound(env) && WellFormed(tx) && obj + 4 < |tx.tokens|
    requires bufferUI.Length == BufferUISize && bufferUI[..] == Zeros(BufferUISize)
    modifies bufferUI
    ensures match AmountBuffer(env, tx, obj)
      case Ok(b) => status == Pass && bufferUI[..] == b
      case Err(e) => status == Fail(e) && bufferUI[..] == Zeros(BufferUISize)
  {
    if tx.tokens[obj + 2].start < 0 {
      return Fail(UnexpectedBufferEnd);
    }
    var amountLen := SpanLen(tx.tokens[obj + 2]);
    var denomLen := SpanLen(tx.tokens[obj + 4]);
    if amountLen <= 0 {
      return Fail(UnexpectedBufferEnd);
    }
    if denomLen <= 0 {
      return Fail(UnexpectedBufferEnd);
    }
    if BufferUISize < amountLen + denomLen + 2 {
      return Fail(UnexpectedBufferEnd);
    }
    var amount := Span(tx, obj + 2);
    var denom := Span(tx, obj + 4);
    var found := FirstMatch(env.expertMode, env.denoms, denom, 0);
    if found.Some? {
      var entry := env.denoms[found.value];
      assert DenomOk(entry);
      status := ConvertDenomination(env.fpstrToStr, amountLen, amount, bufferUI, entry.repr, entry.factor);
    } else {
      MemCpy(bufferUI, 0, amount);
      bufferUI[amountLen] := ' ';
      MemCpy(bufferUI, amountLen + 1, denom);
      assert bufferUI[..] == Verbatim(amount, denom);
      status := Pass;
    }
  }

  /** `parser_formatAmount`. */
  method FormatAmount(env: Env, tx: Tx, amountToken: nat, outVal: array<char>, pageIdx: nat)
    returns (status: Outcome, pageCount: nat)
    requires Sound(env) && WellFormed(tx) && AmountFits(env, tx, amountToken)
    modifies outVal
    ensures Rendered(status, outVal[..], pageCount) == FormatAmountSpec(env, tx, amountToken, old(outVal[..]), pageIdx)
  {
    pageCount := 0;
    var coin := CheckCoinShape(env, tx, amountToken);
    if coin.Err? {
      return Fail(coin.error), 0;
    }
    if coin.value.NoCoins? {
      if outVal.Length > 0 {
        Snprintf(outVal, 0, "Empty");
      }
      return Pass, 1;
    }
    var bufferUI := new char[BufferUISize];
    MemZero(outVal);
    MemZero(bufferUI);
    status := FillAmountBuffer(env, tx, coin.value.obj, bufferUI);
    if status.Fail? {
      return status, 0;
    }
    var page := env.pageString(CString(bufferUI[..]), outVal.Length, pageIdx);
    Fill(outVal, page.buf);
    return Pass, page.count;
  }

  /** A zero element count renders `"Empty"` on a single page, whatever the denomination table. */
  lemma EmptyCoinListRendersEmpty(env: Env, tx: Tx, token: nat, outVal: seq<char>, pageIdx: nat)
    requires Sound(env) && WellFormed(tx) && AmountFits(env, tx, token)
    requires env.elementCount(ObjectToken(tx, token)) == Ok(0)
    ensures var r := FormatAmountSpec(env, tx, token, outVal, pageIdx);
      && r.status == Pass && r.pageCount == 1 && |r.val| == |outVal|
      && (|outVal| > |"Empty"| ==> CString(r.val) == "Empty")
  {
    if |outVal| > |"Empty"| {
      assert SnprintfCount(|outVal|, 0, "Empty") == 5;
      SnprintfAtReadsBack(outVal, 0, "Empty");
    }
  }

  /** With a non-zero element count, the value fails with `parser_unexpected_field`, leaving the value
      buffer as it was, exactly when the count is not 4, the token is not an object, or the keys at
      offsets 1 and 3 are not literally `"amount"` and `"denom"`. */
  lemma MalformedCoinIsUnexpectedField(env: Env, tx: Tx, token: nat, outVal: seq<char>, pageIdx: nat)
    requires Sound(env) && WellFormed(tx) && AmountFits(env, tx, token)
    requires env.elementCount(ObjectToken(tx, token)).Ok? && env.elementCount(ObjectToken(tx, token)).value != 0
    ensures var t := ObjectToken(tx, token);
      (|| env.elementCount(t).value != 4
       || tx.tokens[t].kind != Object
       || !TokenEquals(tx, t + 1, "amount")
       || !TokenEquals(tx, t + 3, "denom"))
      <==> FormatAmountSpec(env, tx, token, outVal, pageIdx) == Rendered(Fail(UnexpectedField), outVal, 0)
  {
    var t := ObjectToken(tx, token);
    if CoinShape(env, tx, token).Ok? {
      var shape := CoinShape(env, tx, token).value;
      assert shape == CoinAt(t);
      var b := AmountBuffer(env, tx, t);
      assert b.Err? ==> b.error != UnexpectedField;
    }
  }

  /** For an object of checked shape, the value fails with `parser_unexpected_buffer_end` and a zeroed
      value buffer exactly when the amount starts before the buffer, either span is empty or negative,
      or the two spans with a separator and a terminator exceed the 160-byte buffer. */
  lemma DegenerateSpanIsBufferEnd(env: Env, tx: Tx, token: nat, outVal: seq<char>, pageIdx: nat)
    requires Sound(env) && WellFormed(tx) && AmountFits(env, tx, token)
    requires CoinShape(env, tx, token) == Ok(CoinAt(ObjectToken(tx, token)))
    ensures !SpansFit(tx, ObjectToken(tx, token)) <==>
      FormatAmountSpec(env, tx, token, outVal, pageIdx) == Rendered(Fail(UnexpectedBufferEnd), Zeros(|outVal|), 0)
  {
    var t := ObjectToken(tx, token);
    if SpansFit(tx, t) {
      var amount := Span(tx, t + 2);
      var denom := Span(tx, t + 4);
      match FirstMatch(env.expertMode, env.denoms, denom, 0)
      case None =>
      case Some(i) =>
        assert DenomOk(env.denoms[i]);
        ConvertedReadsBack(env.fpstrToStr, |amount|, amount, env.denoms[i].repr, env.denoms[i].factor);
    }
  }

  /** An unrecognised denomination, or any denomination in expert mode, is copied verbatim: the buffer
      holds `amount ++ " " ++ denom` and at least one zero byte after it, so the text handed to the
      pager is exactly that string when neither span holds a NUL. */
  lemma UnmatchedDenomIsVerbatim(env: Env, tx: Tx, obj: nat)
    requires Sound(env) && WellFormed(tx) && obj + 4 < |tx.tokens| && SpansFit(tx, obj)
    requires env.expertMode || FirstMatch(env.expertMode, env.denoms, Span(tx, obj + 4), 0).None?
    ensures var amount := Span(tx, obj + 2);
      var denom := Span(tx, obj + 4);
      && AmountBuffer(env, tx, obj) == Ok(Verbatim(amount, denom))
      && |amount| + 1 + |denom| < BufferUISize
      && Verbatim(amount, denom)[|amount| + 1 + |denom|] == NUL
      && (NoNul(amount) && NoNul(denom) ==> CString(Verbatim(amount, denom)) == amount + " " + denom)
  {
    var amount := Span(tx, obj + 2);
    var denom := Span(tx, obj + 4);
    var text := amount + [' '] + denom;
    var pad := Zeros(BufferUISize - |amount| - |denom| - 1);
    assert Verbatim(amount, denom) == text + pad;
    if NoNul(amount) && NoNul(denom) {
      NoNulConcat(amount, [' ']);
      NoNulConcat(amount + [' '], denom);
      CStringOfTerminated(text, pad);
    }
  }

  /** A denomination is translated only outside expert mode and only when it equals the base of a table
      entry byte for byte; the entry used is the first such one, and the buffer is then the converted
      number, a space and that entry's symbol. */
  lemma MatchedDenomIsConverted(env: Env, tx: Tx, obj: nat)
    requires Sound(env) && WellFormed(tx) && obj + 4 < |tx.tokens| && SpansFit(tx, obj)
    requires FirstMatch(env.expertMode, env.denoms, Span(tx, obj + 4), 0).Some?
    ensures var denom := Span(tx, obj + 4);
      var i := FirstMatch(env.expertMode, env.denoms, denom, 0).value;
      && !env.expertMode
      && i < |env.denoms| && denom == env.denoms[i].base
      && (forall j :: 0 <= j < i ==> denom != env.denoms[j].base)
      && AmountBuffer(env, tx, obj) ==
           Converted(env.fpstrToStr, |Span(tx, obj + 2)|, Span(tx, obj + 2), env.denoms[i].repr, env.denoms[i].factor)
  {
    var denom := Span(tx, obj + 4);
    var i := FirstMatch(env.expertMode, env.denoms, denom, 0).value;
    DenomMatchIsExact(env.expertMode, denom, env.denoms[i].base);
    forall j | 0 <= j < i ensures denom != env.denoms[j].base {
      DenomMatchIsExact(env.expertMode, denom, env.denoms[j].base);
    }
  }

  /** For the same element count, the rendered value depends on the token at `token`, the five
      after it and the bytes of their spans, and on nothing else in the transaction: past an array
      wrapper only the first element is ever looked at. `array_get_element_count` receives the whole
      token array, so its answer is a hypothesis here, not a consequence. */
  lemma AmountReadsSixTokens(env: Env, env': Env, tx: Tx, tx': Tx, token: nat, outVal: seq<char>, pageIdx: nat)
    requires Sound(env) && WellFormed(tx) && AmountFits(env, tx, token)
    requires env' == env.(elementCount := env'.elementCount)
    requires WellFormed(tx') && AmountFits(env', tx', token)
    requires forall i :: token <= i <= token + 5 && i < |tx.tokens| && i < |tx'.tokens| ==>
      tx.tokens[i] == tx'.tokens[i] && (SpanLen(tx.tokens[i]) > 0 ==> Span(tx, i) == Span(tx', i))
    requires env'.elementCount(ObjectToken(tx', token)) == env.elementCount(ObjectToken(tx, token))
    ensures Sound(env')
    ensures FormatAmountSpec(env, tx, token, outVal, pageIdx) == FormatAmountSpec(env', tx', token, outVal, pageIdx)
  {
    var t := ObjectToken(tx, token);
    assert t == ObjectToken(tx', token);
    if env.elementCount(t) == Ok(4) {
      assert tx.tokens[t] == tx'.tokens[t];
      TokenEqualsReadsSpan(tx, tx', t + 1, "amount");
      TokenEqualsReadsSpan(tx, tx', t + 3, "denom");
      assert CoinShape(env, tx, token) == CoinShape(env', tx', token);
      if CoinShape(env, tx, token) == Ok(CoinAt(t)) {
        SameSpansSameBuffer(env, env', tx, tx', t);
      }
    }
  }

  lemma SameSpansSameBuffer(env: Env, env': Env, tx: Tx, tx': Tx, obj: nat)
    requires Sound(env) && WellFormed(tx) && obj + 4 < |tx.tokens|
    requires env' == env.(elementCount := env'.elementCount) && Sound(env')
    requires WellFormed(tx') && obj + 4 < |tx'.tokens|
    requires tx.tokens[obj + 2] == tx'.tokens[obj + 2] && tx.tokens[obj + 4] == tx'.tokens[obj + 4]
    requires SpanLen(tx.tokens[obj + 2]) > 0 ==> Span(tx, obj + 2) == Span(tx', obj + 2)
    requires SpanLen(tx.tokens[obj + 4]) > 0 ==> Span(tx, obj + 4) == Span(tx', obj + 4)
    ensures AmountBuffer(env, tx, obj) == AmountBuffer(env', tx', obj)
  {
  }
}
