/** The display side of the parser: the item count, `parser_getItem`, which renders one key/value
    pair for one page, and `parser_validate`, which renders every item before signing is allowed. */
module Parser {
  import opened ParserCommon
  import opened CStrings
  import opened Json
  import opened Collaborators
  import opened Amount

  /** Size of the scratch buffers `tmpKey` and `tmpVal` of `parser_validate`. */
  const ScratchSize: nat := 40

  /** `parser_getNumItems`: the count `tx_display_numItems` reports, a `uint8_t`. */
  function GetNumItems(env: Env): (r: Result<nat>)
    requires Sound(env)
    ensures r.Ok? ==> r.value < 256
  {
    env.numItems
  }

  /** The text `snprintf(..., " [%d/%d]", page, count)` writes. */
  function PageSuffix(page: nat, count: nat): (suffix: string)
  {
    " [" + Decimal(page) + "/" + Decimal(count) + "]"
  }

  lemma PageSuffixNoNul(page: nat, count: nat)
    ensures NoNul(PageSuffix(page, count))
  {
    var p, c := Decimal(page), Decimal(count);
    assert NoNul(p) && NoNul(c);
    NoNulConcat(" [", p);
    NoNulConcat(" [" + p, "/");
    NoNulConcat(" [" + p + "/", c);
    NoNulConcat(" [" + p + "/" + c, "]");
  }

  /** Lines 322-329 of `parser_getItem`: the page suffix appended to the key buffer. */
  function WithPageSuffix(key: seq<char>, pageIdx: nat, pageCount: nat): (r: seq<char>)
    ensures |r| == |key|
  {
    if pageCount > 1 && CStrLen(key) < |key| then
      SnprintfAt(key, CStrLen(key), PageSuffix(pageIdx + 1, pageCount))
    else key
  }

  /** The key is left alone unless the value spans several pages and the key buffer has a NUL; then
      the key keeps its text and is followed by as much of `" [pageIdx+1/pageCount]"` as the buffer
      has room for, and the buffer stays NUL-terminated. */
  lemma PageSuffixOnlyWhenPaged(key: seq<char>, pageIdx: nat, pageCount: nat)
    ensures pageCount <= 1 || CStrLen(key) == |key| ==> WithPageSuffix(key, pageIdx, pageCount) == key
    ensures pageCount > 1 && CStrLen(key) < |key| ==>
      var r := WithPageSuffix(key, pageIdx, pageCount);
      var n := CStrLen(key);
      var suffix := PageSuffix(pageIdx + 1, pageCount);
      && r[..n] == key[..n]
      && CStrLen(r) < |r|
      && CString(r) == CString(key) + suffix[..SnprintfCount(|key|, n, suffix)]
  {
    if pageCount > 1 && CStrLen(key) < |key| {
      var n := CStrLen(key);
      var suffix := PageSuffix(pageIdx + 1, pageCount);
      PageSuffixNoNul(pageIdx + 1, pageCount);
      assert NoNul(key[..n]) by {
        forall k | 0 <= k < n ensures key[..n][k] != NUL { assert key[..n][k] == key[k]; }
      }
      SnprintfAtReadsBack(key, n, suffix);
    }
  }

  /** Every value token the display query names for an amount key is one whose tokens
      `parser_formatAmount` may index. Values of other keys go to `tx_getToken`, and the parser
      itself reads nothing of them. */
  ghost predicate AmountQueriesFit(env: Env, tx: Tx)
  {
    forall d, cap :: env.query(d, cap).Ok? && IsAmount(CString(env.query(d, cap).value.key)) ==>
      AmountFits(env, tx, env.query(d, cap).value.token)
  }

  /** The key buffer after the query's key is copied into the zeroed buffer holds the same C string. */
  lemma PaddedKey(key: seq<char>, n: nat)
    ensures CString(key + Zeros(n)) == CString(key)
  {
    if n == 0 {
      assert key + Zeros(n) == key;
    } else {
      CStringPadded(key, Zeros(n));
    }
  }

  /** Lines 303-316 of `parser_getItem`: amount keys go to `parser_formatAmount`, every other key to
      `tx_getToken`; both get the zeroed value buffer. */
  ghost function RenderValue(env: Env, tx: Tx, key: seq<char>, token: nat, valLen: nat, pageIdx: nat): (r: Rendered)
    requires Sound(env) && WellFormed(tx) && (IsAmount(CString(key)) ==> AmountFits(env, tx, token))
    ensures |r.val| == valLen
  {
    if IsAmount(CString(key)) then FormatAmountSpec(env, tx, token, Zeros(valLen), pageIdx)
    else match env.getToken(token, valLen, pageIdx)
      case Err(e) => Rendered(Fail(e), Zeros(valLen), 0)
      case Ok(page) => Rendered(Pass, page.buf, page.count)
  }

  /** What `parser_getItem` leaves in the key buffer, the value buffer and `*pageCount`, and its status. */
  datatype Item = Item(status: Outcome, key: seq<char>, val: seq<char>, pageCount: nat)

  /** `parser_getItem(displayIdx, outKey, keyLen, outVal, valLen, pageIdx, &pageCount)`. Both buffers
      are zeroed first, so the result does not depend on what they held. */
  ghost function GetItemSpec(env: Env, tx: Tx, displayIdx: nat, keyLen: nat, valLen: nat, pageIdx: nat): (r: Item)
    requires Sound(env) && WellFormed(tx) && AmountQueriesFit(env, tx)
    requires displayIdx < 0x1_0000 && pageIdx < 256
    ensures |r.key| == keyLen && |r.val| == valLen
  {
    var noKey, noVal := Zeros(keyLen), Zeros(valLen);
    match GetNumItems(env)
    case Err(e) => Item(Fail(e), noKey, noVal, 0)
    case Ok(n) =>
      if n == 0 then Item(Fail(UnexpectedNumberItems), noKey, noVal, 0)
      else if displayIdx >= n then Item(Fail(DisplayIdxOutOfRange), noKey, noVal, 0)
      else match env.query(displayIdx, keyLen)
        case Err(e) => Item(Fail(e), noKey, noVal, 0)
        case Ok(q) =>
          var key := q.key + Zeros(keyLen - |q.key|);
          PaddedKey(q.key, keyLen - |q.key|);
          var value := RenderValue(env, tx, key, q.token, valLen, pageIdx);
          if value.status.Fail? then Item(value.status, key, value.val, value.pageCount)
          else match env.makeFriendly(key, value.val)
            case Err(e) => Item(Fail(e), key, value.val, value.pageCount)
            case Ok(friendly) =>
              Item(Pass, WithPageSuffix(friendly.0, pageIdx, value.pageCount), friendly.1, value.pageCount)
  }

  /** An empty transaction has no item to show, and an index past the last item is out of range;
      in both cases both buffers are left zeroed and no page is reported. */
  lemma ItemIndexChecks(env: Env, tx: Tx, displayIdx: nat, keyLen: nat, valLen: nat, pageIdx: nat)
    requires Sound(env) && WellFormed(tx) && AmountQueriesFit(env, tx) && env.numItems.Ok?
    requires displayIdx < 0x1_0000 && pageIdx < 256
    ensures var r := GetItemSpec(env, tx, displayIdx, keyLen, valLen, pageIdx);
      && (env.numItems.value == 0 ==> r == Item(Fail(UnexpectedNumberItems), Zeros(keyLen), Zeros(valLen), 0))
      && (0 < env.numItems.value <= displayIdx ==>
            r == Item(Fail(DisplayIdxOutOfRange), Zeros(keyLen), Zeros(valLen), 0))
      && (r.status == Pass ==> displayIdx < env.numItems.value)
  {
  }

  /** `parser_getItem`. */
  method GetItem(env: Env, tx: Tx, displayIdx: nat, outKey: array<char>, outVal: array<char>, pageIdx: nat)
    returns (status: Outcome, pageCount: nat)
    requires Sound(env) && WellFormed(tx) && AmountQueriesFit(env, tx) && outKey != outVal
    requires displayIdx < 0x1_0000 && pageIdx < 256
    modifies outKey, outVal
    ensures Item(status, outKey[..], outVal[..], pageCount) ==
            GetItemSpec(env, tx, displayIdx, outKey.Length, outVal.Length, pageIdx)
  {
    pageCount := 0;
    MemZero(outKey);
    MemZero(outVal);

    var numItems := GetNumItems(env);
    if numItems.Err? {
      return Fail(numItems.error), 0;
    }
    if numItems.value == 0 {
      return Fail(UnexpectedNumberItems), 0;
    }
    if displayIdx >= numItems.value {
      return Fail(DisplayIdxOutOfRange), 0;
    }

    var query := env.query(displayIdx, outKey.Length);
    if query.Err? {
      return Fail(query.error), 0;
    }
    MemCpy(outKey, 0, query.value.key);
    assert outKey[..] == query.value.key + Zeros(outKey.Length - |query.value.key|);
    PaddedKey(query.value.key, outKey.Length - |query.value.key|);
    var valueToken := query.value.token;

    if IsAmount(CString(outKey[..])) {
      status, pageCount := FormatAmount(env, tx, valueToken, outVal, pageIdx);
    } else {
      var token := env.getToken(valueToken, outVal.Length, pageIdx);
      if token.Err? {
        status := Fail(token.error);
      } else {
        Fill(outVal, token.value.buf);
        status, pageCount := Pass, token.value.count;
      }
    }
    if status.Fail? {
      return status, pageCount;
    }

    var friendly := env.makeFriendly(outKey[..], outVal[..]);
    if friendly.Err? {
      return Fail(friendly.error), pageCount;
    }
    Fill(outKey, friendly.value.0);
    Fill(outVal, friendly.value.1);

    if pageCount > 1 {
      var keyLen := CStrLen(outKey[..]);
      if keyLen < outKey.Length {
        Snprintf(outKey, keyLen, PageSuffix(pageIdx + 1, pageCount));
      }
    }
    return Pass, pageCount;
  }

  /** Item `idx` renders at page 0 into the 40-byte scratch buffers of `parser_validate`. */
  ghost predicate Renders(env: Env, tx: Tx, idx: nat)
    requires Sound(env) && WellFormed(tx) && AmountQueriesFit(env, tx) && idx < 0x1_0000
  {
    GetItemSpec(env, tx, idx, ScratchSize, ScratchSize, 0).status == Pass
  }

  /** `e` is the first error `parser_validate` meets: that of `tx_validate`, else that of the item
      count, else that of the lowest-numbered item that fails to render. */
  ghost predicate FirstFailure(env: Env, tx: Tx, e: Error)
    requires Sound(env) && WellFormed(tx) && AmountQueriesFit(env, tx)
  {
    if env.txValidate.Fail? then e == env.txValidate.error
    else match env.numItems
      case Err(x) => e == x
      case Ok(n) =>
        exists idx :: 0 <= idx < n && GetItemSpec(env, tx, idx, ScratchSize, ScratchSize, 0).status == Fail(e)
          && forall j :: 0 <= j < idx ==> Renders(env, tx, j)
  }

  /** `parser_validate`: succeeds exactly when structural validation succeeds and every item in
      `[0, numItems)` renders at page 0; otherwise it reports the first error in index order. */
  method Validate(env: Env, tx: Tx) returns (status: Outcome)
    requires Sound(env) && WellFormed(tx) && AmountQueriesFit(env, tx)
    ensures status == Pass <==>
      && env.txValidate == Pass
      && env.numItems.Ok?
      && forall idx :: 0 <= idx < env.numItems.value ==> Renders(env, tx, idx)
    ensures status.Fail? ==> FirstFailure(env, tx, status.error)
  {
    if env.txValidate.Fail? {
      return env.txValidate;
    }
    var numItems := GetNumItems(env);
    if numItems.Err? {
      return Fail(numItems.error);
    }
    var tmpKey := new char[ScratchSize];
    var tmpVal := new char[ScratchSize];
    var idx := 0;
    while idx < numItems.value
      invariant idx <= numItems.value
      invariant forall j :: 0 <= j < idx ==> Renders(env, tx, j)
    {
      var itemStatus, _ := GetItem(env, tx, idx, tmpKey, tmpVal, 0);
      if itemStatus.Fail? {
        assert !Renders(env, tx, idx);
        return itemStatus;
      }
      idx := idx + 1;
    }
    return Pass;
  }
}
