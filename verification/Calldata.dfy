/** The calldata cost a client signs for and the cost the server counts
    (packages/common/src/ContractInteractor.ts:869-905), over the head/tail encoding of
    "Formal Specification of the Encoding" in the Solidity Contract ABI Specification. */
module Calldata {
  import opened HeadTailCounts
  import opened Outcomes

  // ---------- the encoding ----------

  /** The bytes of a number, most significant first, without leading zeros. */
  function Bytes(v: nat): seq<Byte>
  {
    if v == 0 then [] else Bytes(v / 256) + [v % 256]
  }

  /** A uint256 or an address: 32 bytes, zeros first. */
  function Word(v: nat): (r: seq<Byte>)
    ensures |r| == 32
  {
    var b := Bytes(v);
    if |b| <= 32 then Repeat(0, 32 - |b|) + b else b[|b| - 32..]
  }

  function Repeat(b: Byte, n: nat): seq<Byte> { seq(n, _ => b) }

  function Padding(n: nat): nat { (32 - n % 32) % 32 }

  /** `bytes` and `string`: the length, then the contents padded to whole words. */
  function EncodeBytes(b: seq<Byte>): seq<Byte>
  {
    Word(|b|) + b + Repeat(0, Padding(|b|))
  }

  /** One component of a tuple: a static word, or the encoding of a dynamic value. */
  datatype Part = Static(value: nat) | Dynamic(encoding: seq<Byte>)

  /** What a component puts in the tuple's head: its word, or the offset of its tail. */
  function Head(part: Part, offset: nat, word: nat -> seq<Byte>): seq<Byte>
  {
    word(if part.Static? then part.value else offset)
  }

  function Tail(part: Part): seq<Byte>
  {
    if part.Static? then [] else part.encoding
  }

  function Heads(parts: seq<Part>, offset: nat, word: nat -> seq<Byte>): seq<Byte>
  {
    if parts == [] then [] else Head(parts[0], offset, word) + Heads(parts[1..], offset + |Tail(parts[0])|, word)
  }

  function Tails(parts: seq<Part>): seq<Byte>
  {
    if parts == [] then [] else Tail(parts[0]) + Tails(parts[1..])
  }

  function EncodeTuple(parts: seq<Part>): seq<Byte>
  {
    Heads(parts, 32 * |parts|, Word) + Tails(parts)
  }

  datatype ForwardRequest = ForwardRequest(from: nat, to: nat, value: nat, gas: nat, nonce: nat, data: seq<Byte>,
                                           validUntilTime: nat)

  datatype RelayData = RelayData(
    maxFeePerGas: nat, maxPriorityFeePerGas: nat, transactionCalldataGasUsed: nat, relayWorker: nat,
    paymaster: nat, forwarder: nat, paymasterData: seq<Byte>, clientId: nat)

  datatype RelayRequest = RelayRequest(request: ForwardRequest, relayData: RelayData)

  datatype RelayCall = RelayCall(
    domainSeparatorName: seq<Byte>, maxAcceptanceBudget: nat, relayRequest: RelayRequest,
    signature: seq<Byte>, approvalData: seq<Byte>)

  function RequestParts(r: ForwardRequest): seq<Part>
  {
    [Static(r.from), Static(r.to), Static(r.value), Static(r.gas), Static(r.nonce),
     Dynamic(EncodeBytes(r.data)), Static(r.validUntilTime)]
  }

  function RelayDataParts(d: RelayData): seq<Part>
  {
    [Static(d.maxFeePerGas), Static(d.maxPriorityFeePerGas), Static(d.transactionCalldataGasUsed),
        Static(d.relayWorker),
     Static(d.paymaster), Static(d.forwarder), Dynamic(EncodeBytes(d.paymasterData)), Static(d.clientId)]
  }

  function RelayRequestParts(r: RelayRequest): seq<Part>
  {
    [Dynamic(EncodeTuple(RequestParts(r.request))), Dynamic(EncodeTuple(RelayDataParts(r.relayData)))]
  }

  function RelayCallParts(c: RelayCall): seq<Part>
  {
    [Dynamic(EncodeBytes(c.domainSeparatorName)), Static(c.maxAcceptanceBudget),
     Dynamic(EncodeTuple(RelayRequestParts(c.relayRequest))),
     Dynamic(EncodeBytes(c.signature)), Dynamic(EncodeBytes(c.approvalData))]
  }

  function EncodeABI(selector: seq<Byte>, c: RelayCall): seq<Byte>
  {
    selector + EncodeTuple(RelayCallParts(c))
  }

  // ---------- the cost ----------

  datatype Environment = Environment(gtxdatazero: nat, gtxdatanonzero: nat)

  /** The gas that calldata costs, byte for byte. */
  function CalldataCost(env: Environment, b: seq<Byte>): nat
  {
    if b == [] then 0 else (if b[0] == 0 then env.gtxdatazero else env.gtxdatanonzero) + CalldataCost(env, b[1..])
  }

  function Nonzero(b: seq<Byte>): (n: nat)
    ensures n <= |b|
  {
    if b == [] then 0 else (if b[0] == 0 then 0 else 1) + Nonzero(b[1..])
  }

  method CalculateCalldataBytesZeroNonzero(calldata: seq<Byte>)
    returns (calldataZeroBytes: nat, calldataNonzeroBytes: nat)
    ensures calldataNonzeroBytes == Nonzero(calldata) && calldataZeroBytes + calldataNonzeroBytes == |calldata|
  {
    calldataZeroBytes, calldataNonzeroBytes := 0, 0;
    for i := 0 to |calldata|
      invariant calldataNonzeroBytes == Nonzero(calldata[..i]) && calldataZeroBytes + calldataNonzeroBytes == i
    {
      assert calldata[..i + 1] == calldata[..i] + [calldata[i]];
      NonzeroConcat(calldata[..i], [calldata[i]]);
      if calldata[i] == 0 {
        calldataZeroBytes := calldataZeroBytes + 1;
      } else {
        calldataNonzeroBytes := calldataNonzeroBytes + 1;
      }
    }
    assert calldata[..|calldata|] == calldata;
  }

  method CalculateCalldataCost(msgData: seq<Byte>, env: Environment) returns (cost: nat)
    ensures cost == CalldataCost(env, msgData)
  {
    var calldataZeroBytes, calldataNonzeroBytes := CalculateCalldataBytesZeroNonzero(msgData);
    cost := calldataZeroBytes * env.gtxdatazero + calldataNonzeroBytes * env.gtxdatanonzero;
    CostOfCounts(env, msgData);
  }

  lemma {:induction false} CostOfCounts(env: Environment, b: seq<Byte>)
    ensures CalldataCost(env, b) == (|b| - Nonzero(b)) * env.gtxdatazero + Nonzero(b) * env.gtxdatanonzero
  {
    if b != [] {
      CostOfCounts(env, b[1..]);
      var zero, nonzero := |b[1..]| - Nonzero(b[1..]), Nonzero(b[1..]);
      assert (zero + 1) * env.gtxdatazero == zero * env.gtxdatazero + env.gtxdatazero;
      assert (nonzero + 1) * env.gtxdatanonzero == nonzero * env.gtxdatanonzero + env.gtxdatanonzero;
    }
  }

  /** The client's estimate: every variable field at its configured maximum and full of 0xff. */
  function PaddedCall(domain: seq<Byte>, original: RelayRequest, maxApprovalDataLength: nat,
                      maxPaymasterDataLength: nat): RelayCall
  {
    RelayCall(domain, 0xff_ffff_ffff,
              original.(relayData := original.relayData.(
                transactionCalldataGasUsed := 0xff_ffff_ffff, paymasterData := Repeat(255, maxPaymasterDataLength))),
              Repeat(255, 65), Repeat(255, maxApprovalDataLength))
  }

  function EstimateCalldataCostForRequest(
    env: Environment, selector: seq<Byte>, domain: seq<Byte>, original: RelayRequest,
    maxApprovalDataLength: nat, maxPaymasterDataLength: nat): nat
  {
    CalldataCost(env, EncodeABI(selector, PaddedCall(domain, original, maxApprovalDataLength, maxPaymasterDataLength)))
  }

  // ---------- counting nonzero bytes ----------

  lemma {:induction false} NonzeroConcat(a: seq<Byte>, b: seq<Byte>)
    ensures Nonzero(a + b) == Nonzero(a) + Nonzero(b)
  {
    if a == [] {
      assert a + b == b;
    } else {
      NonzeroConcat(a[1..], b);
      assert (a + b)[1..] == a[1..] + b;
    }
  }

  lemma {:induction false} NonzeroRepeat(b: Byte, n: nat)
    ensures Nonzero(Repeat(b, n)) == if b == 0 then 0 else n
  {
    if n > 0 {
      assert Repeat(b, n)[1..] == Repeat(b, n - 1);
      NonzeroRepeat(b, n - 1);
    }
  }

  /** How many bytes of a number are not zero. */
  function Digits(v: nat): nat
  {
    if v == 0 then 0 else Digits(v / 256) + (if v % 256 == 0 then 0 else 1)
  }

  lemma {:induction false} NonzeroBytes(v: nat)
    ensures Nonzero(Bytes(v)) == Digits(v) && (v > 0 ==> Digits(v) >= 1)
  {
    if v > 0 {
      NonzeroBytes(v / 256);
      NonzeroConcat(Bytes(v / 256), [v % 256]);
      assert Nonzero([v % 256]) == if v % 256 == 0 then 0 else 1;
    }
  }

  const MAX_CALLDATA: nat := 0x100_0000_0000

  lemma FewBytes(v: nat)
    requires v < MAX_CALLDATA
    ensures |Bytes(v)| <= 5
  {
    var v1 := v / 256;
    var v2 := v1 / 256;
    var v3 := v2 / 256;
    var v4 := v3 / 256;
    assert v4 < 256 && v4 / 256 == 0;
    assert |Bytes(v4)| <= 1;
    assert |Bytes(v3)| <= 2;
    assert |Bytes(v2)| <= 3;
    assert |Bytes(v1)| <= 4;
  }

  lemma SmallWord(v: nat)
    requires v < MAX_CALLDATA
    ensures Nonzero(Word(v)) == Digits(v) <= 5
    ensures v > 0 ==> Digits(v) >= 1
  {
    FewBytes(v);
    NonzeroBytes(v);
    NonzeroConcat(Repeat(0, 32 - |Bytes(v)|), Bytes(v));
    NonzeroRepeat(0, 32 - |Bytes(v)|);
  }

  lemma ThreeDigits(v: nat)
    requires v < 0x2_0000
    ensures Digits(v) == (if v % 256 == 0 then 0 else 1) + (if v / 256 % 256 == 0 then 0 else 1)
              + (if v / 65536 == 0 then 0 else 1)
  {
    assert v / 256 / 256 == v / 65536 < 2;
    assert Digits(v / 65536) == if v / 65536 == 0 then 0 else 1;
    assert Digits(v / 256) == Digits(v / 65536) + if v / 256 % 256 == 0 then 0 else 1;
  }

  // ---------- the actual encoding fits under the estimated one ----------

  /** The words that n bytes take. */
  function WordsOf(n: nat): nat { (n + 31) / 32 }

  /** What `saved` words held at least: all their bytes, but only one of the last word. */
  function Lost(saved: nat): nat { if saved == 0 then 0 else 32 * saved - 31 }

  /** So many words shorter, and without the nonzero bytes these held. */
  ghost predicate Fits(actual: seq<Byte>, estimate: seq<Byte>, saved: nat)
  {
    |actual| + 32 * saved == |estimate| && Nonzero(actual) + Lost(saved) <= Nonzero(estimate)
  }

  /** Below a number whose last byte is not zero there is none with more nonzero bytes. */
  lemma NoMoreDigits(d: nat, max: nat)
    requires d <= max < 0x2_0000 && max % 256 != 0
    ensures Digits(d) <= Digits(max)
  {
    ThreeDigits(d);
    ThreeDigits(max);
  }

  lemma SavedBytes(d: nat, max: nat)
    requires d <= max
    ensures WordsOf(d) <= WordsOf(max) && d + Lost(WordsOf(max) - WordsOf(d)) <= max
  {
  }

  /** Up to a multiple of 256 the words saved are whole. */
  lemma SavedWholeWords(d: nat, max: nat, saved: nat)
    requires d <= max && max % 256 == 0 && WordsOf(d) + saved == WordsOf(max)
    ensures d + 32 * saved <= max
  {
    assert max == 32 * (8 * (max / 256));
    assert WordsOf(max) == 8 * (max / 256);
    assert d <= 32 * WordsOf(d);
  }

  lemma ByteForByte(d: nat, max: nat)
    requires d <= max < 0x2_0000
    ensures Digits(d) + d <= Digits(max) + max
  {
    ThreeDigits(d);
    ThreeDigits(max);
    if d % 256 != 0 && max % 256 == 0 && d < max {
      assert d / 256 < max / 256;
    }
  }

  /** A shorter length has at most one nonzero byte more for each byte saved, and none for the byte that saves a
      word. */
  lemma LengthIsWorthItsBytes(d: nat, max: nat, saved: nat)
    requires d <= max < 0x2_0000 && WordsOf(d) + saved == WordsOf(max)
    ensures Digits(d) + d + Lost(saved) <= Digits(max) + max
  {
    if max % 256 != 0 {
      SavedBytes(d, max);
      NoMoreDigits(d, max);
    } else if saved == 0 {
      ByteForByte(d, max);
    } else {
      AtMostThree(d);
      SavedWholeWords(d, max, saved);
    }
  }

  lemma AtMostThree(v: nat)
    requires v < 0x2_0000
    ensures Digits(v) <= 3
  {
    ThreeDigits(v);
  }

  /** A variable field against its maximum. */
  lemma BytesFit(data: seq<Byte>, max: nat)
    requires |data| <= max < 0x2_0000
    ensures WordsOf(|data|) <= WordsOf(max)
    ensures Fits(EncodeBytes(data), EncodeBytes(Repeat(255, max)), WordsOf(max) - WordsOf(|data|))
  {
    var full := Repeat(255, max);
    NonzeroOfBytes(data);
    NonzeroOfBytes(full);
    NonzeroRepeat(255, max);
    SavedBytes(|data|, max);
    LengthIsWorthItsBytes(|data|, max, WordsOf(max) - WordsOf(|data|));
    SmallWord(|data|);
    SmallWord(max);
    PaddedLength(|data|);
    PaddedLength(max);
  }

  lemma NonzeroOfBytes(b: seq<Byte>)
    ensures Nonzero(EncodeBytes(b)) == Nonzero(Word(|b|)) + Nonzero(b)
    ensures |EncodeBytes(b)| == 32 + |b| + Padding(|b|)
  {
    NonzeroConcat(Word(|b|) + b, Repeat(0, Padding(|b|)));
    NonzeroConcat(Word(|b|), b);
    NonzeroRepeat(0, Padding(|b|));
  }

  lemma PaddedLength(n: nat)
    ensures n + Padding(n) == 32 * WordsOf(n)
  {
    if n % 32 == 0 {
      assert (n + 31) / 32 == n / 32;
    } else {
      assert (n + 31) / 32 == n / 32 + 1;
    }
  }

  ghost predicate PartFits(a: Part, e: Part)
  {
    ShapeFits(ShapeOf(a, WordNonzero), ShapeOf(e, WordNonzero))
  }

  ghost predicate PartsFit(actual: seq<Part>, estimate: seq<Part>)
  {
    |actual| == |estimate| && (actual != [] ==>
        PartFits(actual[0], estimate[0]) && PartsFit(actual[1..], estimate[1..]))
  }

  ghost function ShapeOf(part: Part, w: nat -> nat): Shape
  {
    match part
    case Static(v) => Fixed(w(v))
    case Dynamic(e) => Displaceable(|e|, Nonzero(e))
  }

  ghost predicate HaveShapes(parts: seq<Part>, shapes: seq<Shape>, w: nat -> nat)
  {
    |parts| == |shapes| && forall i :: 0 <= i < |parts| ==> shapes[i] == ShapeOf(parts[i], w)
  }

  ghost function ShapesOf(parts: seq<Part>): (shapes: seq<Shape>)
    ensures HaveShapes(parts, shapes, WordNonzero)
  {
    seq(|parts|, i requires 0 <= i < |parts| => ShapeOf(parts[i], WordNonzero))
  }

  function WordNonzero(v: nat): nat { Nonzero(Word(v)) }

  /** `word` writes 32 bytes, of which `w` are not zero. */
  ghost predicate Writes(word: nat -> seq<Byte>, w: nat -> nat)
  {
    forall v :: |word(v)| == 32 && w(v) == Nonzero(word(v))
  }

  lemma {:induction false} ShapesFitToo(actual: seq<Part>, estimate: seq<Part>)
    requires PartsFit(actual, estimate)
    ensures ShapesFit(ShapesOf(actual), ShapesOf(estimate))
  {
    if actual != [] {
      ShapesFitToo(actual[1..], estimate[1..]);
      forall i | 0 <= i < |actual| ensures ShapeFits(ShapesOf(actual)[i], ShapesOf(estimate)[i]) {
        if i > 0 { assert ShapeFits(ShapesOf(actual[1..])[i - 1], ShapesOf(estimate[1..])[i - 1]); }
      }
    }
  }

  lemma {:induction false} HeadsLength(parts: seq<Part>, offset: nat, word: nat -> seq<Byte>, w: nat -> nat)
    requires Writes(word, w)
    ensures |Heads(parts, offset, word)| == 32 * |parts|
  {
    if parts != [] { HeadsLength(parts[1..], offset + |Tail(parts[0])|, word, w); }
  }

  lemma {:induction false} TailsCount(parts: seq<Part>, shapes: seq<Shape>, w: nat -> nat)
    requires HaveShapes(parts, shapes, w)
    ensures |Tails(parts)| == TailsLength(shapes)
  {
    if parts != [] { TailsCount(parts[1..], shapes[1..], w); }
  }

  lemma PartCounts(part: Part, offset: nat, word: nat -> seq<Byte>, w: nat -> nat)
    requires Writes(word, w)
    ensures Nonzero(Head(part, offset, word)) + Nonzero(Tail(part)) == CountOne(ShapeOf(part, w), offset, w)
    ensures |Tail(part)| == Length(ShapeOf(part, w))
  {
  }

  lemma {:induction false} EncodingCounts(parts: seq<Part>, shapes: seq<Shape>, offset: nat, word: nat -> seq<Byte>,
                                          w: nat -> nat)
    requires Writes(word, w) && HaveShapes(parts, shapes, w)
    ensures Nonzero(Heads(parts, offset, word)) + Nonzero(Tails(parts)) == Count(shapes, offset, w)
  {
    if parts != [] {
      PartCounts(parts[0], offset, word, w);
      NonzeroConcat(Head(parts[0], offset, word), Heads(parts[1..], offset + |Tail(parts[0])|, word));
      NonzeroConcat(Tail(parts[0]), Tails(parts[1..]));
      EncodingCounts(parts[1..], shapes[1..], offset + |Tail(parts[0])|, word, w);
    }
  }

  lemma TupleCounts(parts: seq<Part>)
    ensures Nonzero(EncodeTuple(parts)) == Count(ShapesOf(parts), 32 * |parts|, WordNonzero)
    ensures |EncodeTuple(parts)| == 32 * |parts| + TailsLength(ShapesOf(parts))
  {
    var heads := Heads(parts, 32 * |parts|, Word);
    HeadsLength(parts, 32 * |parts|, Word, WordNonzero);
    TailsCount(parts, ShapesOf(parts), WordNonzero);
    EncodingCounts(parts, ShapesOf(parts), 32 * |parts|, Word, WordNonzero);
    NonzeroConcat(heads, Tails(parts));
  }

  lemma OffsetsAreNarrow()
    ensures Narrow(WordNonzero, MAX_CALLDATA)
  {
    forall v: nat | 0 < v < MAX_CALLDATA ensures 1 <= WordNonzero(v) <= 5 { SmallWord(v); }
  }

  /** A tuple fits when its k-th component does and the others are no longer and no lighter than estimated, up to the
      offsets behind it. */
  lemma TupleFits(actual: seq<Part>, estimate: seq<Part>, k: nat, saved: nat)
    requires PartsFit(actual, estimate) && k < |actual| && |EncodeTuple(estimate)| < MAX_CALLDATA
    requires Shortened(ShapesOf(actual), ShapesOf(estimate), k, 32 * saved)
    requires actual[k].Dynamic? && estimate[k].Dynamic? && Fits(actual[k].encoding, estimate[k].encoding, saved)
    ensures |EncodeTuple(actual)| + 32 * saved == |EncodeTuple(estimate)|
    ensures Nonzero(EncodeTuple(actual)) + Lost(saved)
         <= Nonzero(EncodeTuple(estimate)) + 4 * LateOffsets(ShapesOf(actual), k)
  {
    var shapes, shapes' := ShapesOf(actual), ShapesOf(estimate);
    TupleCounts(actual);
    TupleCounts(estimate);
    OffsetsAreNarrow();
    ShapesFitToo(actual, estimate);
    ShortenedTails(shapes, shapes', k, 32 * saved);
    forall i | 0 <= i < k ensures Length(shapes[i]) == Length(shapes'[i]) { }
    LightCountFits(shapes, shapes', k, Lost(saved), 32 * |actual|, WordNonzero, MAX_CALLDATA);
  }

  lemma {:induction false} PartsFitThemselves(parts: seq<Part>)
    ensures PartsFit(parts, parts)
  {
    if parts != [] { PartsFitThemselves(parts[1..]); }
  }

  lemma {:induction false} UpdatedPartsFit(actual: seq<Part>, estimate: seq<Part>, i: nat, a: Part)
    requires PartsFit(actual, estimate) && i < |actual| && PartFits(a, estimate[i])
    ensures PartsFit(actual[i := a], estimate)
  {
    if i > 0 {
      UpdatedPartsFit(actual[1..], estimate[1..], i - 1, a);
      assert actual[i := a][1..] == actual[1..][i - 1 := a];
    } else {
      assert actual[0 := a][1..] == actual[1..];
    }
  }

  lemma AmountFits(v: nat)
    requires v < MAX_CALLDATA
    ensures PartFits(Static(v), Static(0xff_ffff_ffff))
  {
    SmallWord(v);
    FullWord();
  }

  lemma RelayDataFits(d: RelayData, gasUsed: nat, full: RelayData, saved: nat)
    requires gasUsed < MAX_CALLDATA && |d.paymasterData| <= |full.paymasterData| < 0x2_0000
    requires full == d.(transactionCalldataGasUsed := 0xff_ffff_ffff,
                        paymasterData := Repeat(255, |full.paymasterData|))
    requires |EncodeTuple(RelayDataParts(full))| < MAX_CALLDATA
    requires WordsOf(|d.paymasterData|) + saved == WordsOf(|full.paymasterData|)
    ensures Fits(EncodeTuple(RelayDataParts(d.(transactionCalldataGasUsed := gasUsed))),
                 EncodeTuple(RelayDataParts(full)), saved)
  {
    var gas, data := Static(gasUsed), Dynamic(EncodeBytes(d.paymasterData));
    var estimate := RelayDataParts(full);
    var actual := estimate[2 := gas][6 := data];
    assert actual == RelayDataParts(d.(transactionCalldataGasUsed := gasUsed));
    AmountFits(gasUsed);
    BytesFit(d.paymasterData, |full.paymasterData|);
    PartsFitThemselves(estimate);
    UpdatedPartsFit(estimate, estimate, 2, gas);
    UpdatedPartsFit(estimate[2 := gas], estimate, 6, data);
    TupleFits(actual, estimate, 6, saved);
    LastIsFixed(ShapesOf(actual), 6);
  }

  lemma FullWord()
    ensures Nonzero(Word(0xff_ffff_ffff)) == 5
  {
    SmallWord(0xff_ffff_ffff);
    assert Digits(0xff) == 1 && Digits(0xffff) == 2 && Digits(0xff_ffff) == 3;
    assert Digits(0xffff_ffff) == Digits(0xff_ffff) + 1;
    assert Digits(0xff_ffff_ffff) == Digits(0xffff_ffff) + 1;
  }

  lemma RelayRequestFits(r: RelayRequest, gasUsed: nat, max: nat, saved: nat)
    requires gasUsed < MAX_CALLDATA && |r.relayData.paymasterData| <= max < 0x2_0000
    requires |EncodeTuple(RelayRequestParts(Padded(r, max)))| < MAX_CALLDATA
    requires WordsOf(|r.relayData.paymasterData|) + saved == WordsOf(max)
    ensures Fits(EncodeTuple(RelayRequestParts(Signed(r, gasUsed))),
                 EncodeTuple(RelayRequestParts(Padded(r, max))), saved)
  {
    var estimate := RelayRequestParts(Padded(r, max));
    var data := RelayRequestParts(Signed(r, gasUsed))[1];
    ComponentIsShorter(estimate, 1);
    RelayDataFits(r.relayData, gasUsed, Padded(r, max).relayData, saved);
    PartsFitThemselves(estimate);
    UpdatedPartsFit(estimate, estimate, 1, data);
    assert RelayRequestParts(Signed(r, gasUsed)) == estimate[1 := data];
    TupleFits(estimate[1 := data], estimate, 1, saved);
  }

  function Signed(r: RelayRequest, gasUsed: nat): RelayRequest
  {
    r.(relayData := r.relayData.(transactionCalldataGasUsed := gasUsed))
  }

  function Padded(r: RelayRequest, max: nat): RelayRequest
  {
    r.(relayData := r.relayData.(transactionCalldataGasUsed := 0xff_ffff_ffff, paymasterData := Repeat(255, max)))
  }

  lemma {:induction false} ComponentInTails(parts: seq<Part>, i: nat)
    requires i < |parts| && parts[i].Dynamic?
    ensures |parts[i].encoding| <= |Tails(parts)|
  {
    if i > 0 { ComponentInTails(parts[1..], i - 1); }
  }

  lemma ComponentIsShorter(parts: seq<Part>, i: nat)
    requires i < |parts| && parts[i].Dynamic?
    ensures |parts[i].encoding| <= |EncodeTuple(parts)|
  {
    ComponentInTails(parts, i);
  }

  function Times(n: nat, price: nat): nat
  {
    if n == 0 then 0 else price + Times(n - 1, price)
  }

  lemma {:induction false} TimesSum(n: nat, m: nat, price: nat)
    ensures Times(n + m, price) == Times(n, price) + Times(m, price)
  {
    if n > 0 { TimesSum(n - 1, m, price); }
  }

  lemma {:induction false} Surcharge(env: Environment, b: seq<Byte>)
    requires env.gtxdatazero <= env.gtxdatanonzero
    ensures CalldataCost(env, b) == Times(|b|, env.gtxdatazero)
              + Times(Nonzero(b), env.gtxdatanonzero - env.gtxdatazero)
  {
    if b != [] { Surcharge(env, b[1..]); }
  }

  lemma TimesMonotone(n: nat, m: nat, price: nat)
    requires n <= m
    ensures Times(n, price) <= Times(m, price)
  {
    TimesSum(n, m - n, price);
  }

  lemma TimesAtLeast(n: nat, k: nat, m: nat, price: nat)
    requires n + k <= m
    ensures Times(n, price) + Times(k, price) <= Times(m, price)
  {
    TimesMonotone(n + k, m, price);
    TimesSum(n, k, price);
  }

  lemma TimesAtMost(n: nat, k: nat, m: nat, price: nat)
    requires n <= m + k
    ensures Times(n, price) <= Times(m, price) + Times(k, price)
  {
    TimesMonotone(n, m + k, price);
    TimesSum(m, k, price);
  }

  lemma {:induction false} TimesIsProduct(n: nat, price: nat)
    ensures Times(n, price) == n * price
  {
    if n > 0 {
      TimesIsProduct(n - 1, price);
      assert n * price == (n - 1) * price + price;
    }
  }

  /** No longer, and with no more nonzero bytes; or a word shorter with at most three more where these cost no more
      than it. */
  ghost predicate Cheaper(env: Environment, length: nat, nonzero: nat, length': nat, nonzero': nat)
  {
    || (length <= length' && nonzero <= nonzero')
    || (length + 32 <= length' && nonzero <= nonzero' + 3 && ThreeBytesForAWord(env))
  }

  /** Three zero bytes made nonzero cost no more than a word of zeros: nonzero bytes cost up to eleven times a zero
      one. */
  predicate ThreeBytesForAWord(env: Environment)
  {
    3 * env.gtxdatanonzero <= 35 * env.gtxdatazero
  }

  lemma CheaperCounts(z: nat, x: nat, length: nat, nonzero: nat, length': nat, nonzero': nat)
    requires (length <= length' && nonzero <= nonzero')
             || (length + 32 <= length' && nonzero <= nonzero' + 3 && 3 * x <= 32 * z)
    ensures Times(length, z) + Times(nonzero, x) <= Times(length', z) + Times(nonzero', x)
  {
    if nonzero <= nonzero' {
      TimesMonotone(length, length', z);
      TimesMonotone(nonzero, nonzero', x);
    } else {
      TimesAtLeast(length, 32, length', z);
      TimesAtMost(nonzero, 3, nonzero', x);
      TimesIsProduct(3, x);
      TimesIsProduct(32, z);
    }
  }

  lemma CostsAtMost(env: Environment, b: seq<Byte>, cost: nat)
    requires env.gtxdatazero <= env.gtxdatanonzero
    requires Times(|b|, env.gtxdatazero) + Times(Nonzero(b), env.gtxdatanonzero - env.gtxdatazero) <= cost
    ensures CalldataCost(env, b) <= cost
  {
    Surcharge(env, b);
  }

  lemma CostsAtLeast(env: Environment, b: seq<Byte>, cost: nat)
    requires env.gtxdatazero <= env.gtxdatanonzero
    requires Times(|b|, env.gtxdatazero) + Times(Nonzero(b), env.gtxdatanonzero - env.gtxdatazero) >= cost
    ensures CalldataCost(env, b) >= cost
  {
    Surcharge(env, b);
  }

  lemma CheaperByCounts(env: Environment, a: seq<Byte>, e: seq<Byte>, length: nat, nonzero: nat, length': nat,
                        nonzero': nat)
    requires env.gtxdatazero <= env.gtxdatanonzero && Cheaper(env, length, nonzero, length', nonzero')
    requires length == |a| && nonzero == Nonzero(a) && length' == |e| && nonzero' == Nonzero(e)
    ensures CalldataCost(env, a) <= CalldataCost(env, e)
  {
    var z, x := env.gtxdatazero, env.gtxdatanonzero - env.gtxdatazero;
    var cost := Times(length', z) + Times(nonzero', x);
    CheaperCounts(z, x, length, nonzero, length', nonzero');
    CostsAtMost(env, a, cost);
    CostsAtLeast(env, e, cost);
  }

  /** An encoding no longer with no more nonzero bytes is never dearer; a word saved pays for three more. */
  lemma CheaperByAWord(env: Environment, a: seq<Byte>, e: seq<Byte>)
    requires env.gtxdatazero <= env.gtxdatanonzero && Cheaper(env, |a|, Nonzero(a), |e|, Nonzero(e))
    ensures CalldataCost(env, a) <= CalldataCost(env, e)
  {
    CheaperByCounts(env, a, e, |a|, Nonzero(a), |e|, Nonzero(e));
  }

  lemma {:induction false} LengthIsAtMostCost(env: Environment, b: seq<Byte>)
    requires 1 <= env.gtxdatazero <= env.gtxdatanonzero
    ensures |b| <= CalldataCost(env, b)
  {
    if b != [] { LengthIsAtMostCost(env, b[1..]); }
  }

  // ---------- two tails of the call may be shorter ----------

  /** An offset a word smaller has more nonzero bytes only if it borrows, and then at most four more. */
  lemma SmallerOffset(v: nat)
    requires 32 <= v < MAX_CALLDATA
    ensures WordNonzero(v - 32) <= WordNonzero(v) + if v % 256 < 32 then 4 else 0
  {
    SmallWord(v);
    SmallWord(v - 32);
    var high, low := v / 256, v % 256;
    if low < 32 {
      assert (v - 32) / 256 == high - 1 && (v - 32) % 256 == low + 224;
      FourDigits(high - 1);
    } else {
      assert (v - 32) / 256 == high && (v - 32) % 256 == low - 32;
    }
  }

  lemma FourDigits(v: nat)
    requires v < 0x1_0000_0000
    ensures Digits(v) <= 4
  {
    assert v / 256 / 256 / 256 / 256 == 0;
    assert Digits(v / 256 / 256 / 256) <= 1;
    assert Digits(v / 256 / 256) <= 2;
    assert Digits(v / 256) <= 3;
  }

  /** Offsets 128 bytes apart do not both borrow. */
  lemma TwoSmallerOffsets(v: nat)
    requires 32 <= v && v + 128 < MAX_CALLDATA
    ensures WordNonzero(v - 32) + WordNonzero(v + 96) <= WordNonzero(v) + WordNonzero(v + 128) + 4
  {
    SmallerOffset(v);
    SmallerOffset(v + 128);
    assert v % 256 < 32 ==> (v + 128) % 256 >= 128;
  }

  /** The components of a relay call: its request the third, a signature of 65 bytes the fourth. */
  ghost predicate CallShaped(parts: seq<Part>)
  {
    && |parts| == 5 && parts[0].Dynamic? && parts[1].Static? && parts[2].Dynamic? && parts[3].Dynamic?
        && parts[4].Dynamic?
    && |parts[3].encoding| == 128
  }

  /** The nonzero bytes besides those of the offsets behind the request. */
  ghost function Besides(parts: seq<Part>): nat
    requires CallShaped(parts)
  {
    WordNonzero(160) + Nonzero(parts[0].encoding) + WordNonzero(parts[1].value)
    + WordNonzero(160 + |parts[0].encoding|) + Nonzero(parts[2].encoding)
    + Nonzero(parts[3].encoding) + Nonzero(parts[4].encoding)
  }

  ghost function CallShapes(parts: seq<Part>): seq<Shape>
    requires CallShaped(parts)
  {
    [Displaceable(|parts[0].encoding|, Nonzero(parts[0].encoding)), Fixed(WordNonzero(parts[1].value)),
     Displaceable(|parts[2].encoding|, Nonzero(parts[2].encoding)), Displaceable(128, Nonzero(parts[3].encoding)),
     Displaceable(|parts[4].encoding|, Nonzero(parts[4].encoding))]
  }

  lemma ShapesOfCall(parts: seq<Part>)
    requires CallShaped(parts)
    ensures Nonzero(EncodeTuple(parts)) == Count(CallShapes(parts), 160, WordNonzero)
  {
    TupleCounts(parts);
    assert ShapesOf(parts) == CallShapes(parts);
  }

  lemma CallCounts(parts: seq<Part>, offset: nat)
    requires CallShaped(parts) && offset == 160 + |parts[0].encoding| + |parts[2].encoding|
    ensures Nonzero(EncodeTuple(parts)) == Besides(parts) + WordNonzero(offset) + WordNonzero(offset + 128)
  {
    ShapesOfCall(parts);
    CountOfCall(|parts[0].encoding|, Nonzero(parts[0].encoding), WordNonzero(parts[1].value),
                |parts[2].encoding|, Nonzero(parts[2].encoding), 128, Nonzero(parts[3].encoding),
                |parts[4].encoding|, Nonzero(parts[4].encoding), 160, WordNonzero);
  }

  lemma CallLength(parts: seq<Part>)
    requires CallShaped(parts)
    ensures |EncodeTuple(parts)| == 288 + |parts[0].encoding| + |parts[2].encoding| + |parts[4].encoding|
  {
    TupleCounts(parts);
    TailsOfFive(ShapesOf(parts));
  }

  lemma TailsOfFive(s: seq<Shape>)
    requires |s| == 5
    ensures TailsLength(s) == Length(s[0]) + Length(s[1]) + Length(s[2]) + Length(s[3]) + Length(s[4])
  {
    assert s[1..][1..] == s[2..] && s[2..][1..] == s[3..] && s[3..][1..] == s[4..] && s[4..][1..] == [];
    assert TailsLength(s[4..]) == Length(s[4]);
    assert TailsLength(s[2..]) == Length(s[2]) + TailsLength(s[3..]);
  }

  /** With a request one word shorter, the call has at most three more nonzero bytes. */
  lemma OneWordShorter(actual: seq<Part>, estimate: seq<Part>)
    requires CallShaped(actual) && CallShaped(estimate) && |EncodeTuple(estimate)| < MAX_CALLDATA
    requires actual[0] == estimate[0] && actual[3] == estimate[3] && actual[4] == estimate[4]
    requires PartFits(actual[1], estimate[1]) && Fits(actual[2].encoding, estimate[2].encoding, 1)
    ensures |EncodeTuple(actual)| + 32 == |EncodeTuple(estimate)|
    ensures Nonzero(EncodeTuple(actual)) <= Nonzero(EncodeTuple(estimate)) + 3
  {
    var offset := 160 + |estimate[0].encoding| + |estimate[2].encoding|;
    CallLength(actual);
    CallLength(estimate);
    CallCounts(actual, offset - 32);
    CallCounts(estimate, offset);
    TwoSmallerOffsets(offset);
  }

  lemma FivePartsFit(actual: seq<Part>, estimate: seq<Part>)
    requires |actual| == |estimate| == 5 && actual[0] == estimate[0]
    requires PartFits(actual[1], estimate[1]) && PartFits(actual[2], estimate[2])
    requires PartFits(actual[3], estimate[3]) && PartFits(actual[4], estimate[4])
    ensures PartsFit(actual, estimate)
  {
    PartsFitThemselves(estimate);
    UpdatedPartsFit(estimate, estimate, 1, actual[1]);
    UpdatedPartsFit(estimate[1 := actual[1]], estimate, 2, actual[2]);
    UpdatedPartsFit(estimate[1 := actual[1]][2 := actual[2]], estimate, 3, actual[3]);
    UpdatedPartsFit(estimate[1 := actual[1]][2 := actual[2]][3 := actual[3]], estimate, 4, actual[4]);
    assert estimate[1 := actual[1]][2 := actual[2]][3 := actual[3]][4 := actual[4]] == actual;
  }

  /** Only the request is shorter: two offsets lie behind it. */
  lemma ShorterRequest(actual: seq<Part>, estimate: seq<Part>, saved: nat)
    requires CallShaped(actual) && CallShaped(estimate) && |EncodeTuple(estimate)| < MAX_CALLDATA
    requires actual == estimate[2 := actual[2]] && Fits(actual[2].encoding, estimate[2].encoding, saved)
    ensures |EncodeTuple(actual)| + 32 * saved == |EncodeTuple(estimate)|
    ensures Nonzero(EncodeTuple(actual)) <= Nonzero(EncodeTuple(estimate)) + if saved == 1 then 3 else 0
  {
    PartsFitThemselves(estimate);
    UpdatedPartsFit(estimate, estimate, 2, actual[2]);
    if saved == 0 {
      TupleFits(actual, estimate, 4, 0);
      LateOffsetsBound(ShapesOf(actual), 4);
    } else if saved == 1 {
      OneWordShorter(actual, estimate);
    } else {
      TupleFits(actual, estimate, 2, saved);
      LateOffsetsBound(ShapesOf(actual), 2);
    }
  }

  /** Only the approval data is shorter: no offset lies behind it. */
  lemma ShorterApproval(actual: seq<Part>, estimate: seq<Part>, saved: nat)
    requires CallShaped(actual) && CallShaped(estimate) && |EncodeTuple(estimate)| < MAX_CALLDATA
    requires actual[0] == estimate[0] && actual[2] == estimate[2] && PartFits(actual[1], estimate[1])
    requires PartFits(actual[3], estimate[3]) && Fits(actual[4].encoding, estimate[4].encoding, saved)
    ensures |EncodeTuple(actual)| + 32 * saved == |EncodeTuple(estimate)|
    ensures Nonzero(EncodeTuple(actual)) <= Nonzero(EncodeTuple(estimate))
  {
    FivePartsFit(actual, estimate);
    TupleFits(actual, estimate, 4, saved);
    LateOffsetsBound(ShapesOf(actual), 4);
  }

  // ---------- the server's test ----------

  /** The server's test of the calldata cost, made on the request the client signed: it refuses exactly where the bytes
      of the call cost more than that. */
  method RefusesForCalldataCost(env: Environment, selector: seq<Byte>, c: RelayCall) returns (refused: bool)
    ensures var b := EncodeABI(selector, c);
            refused <==> c.relayRequest.relayData.transactionCalldataGasUsed
                         < (|b| - Nonzero(b)) * env.gtxdatazero + Nonzero(b) * env.gtxdatanonzero
  {
    var cost := CalculateCalldataCost(EncodeABI(selector, c), env);
    CostOfCounts(env, EncodeABI(selector, c));
    refused := cost > c.relayRequest.relayData.transactionCalldataGasUsed;
  }

  /** The call the server counts, against the client's estimate. */
  ghost predicate Estimated(c: RelayCall, full: RelayCall, original: RelayRequest, gasUsed: nat)
  {
    && c.relayRequest == Signed(original, gasUsed) && gasUsed < MAX_CALLDATA && c.maxAcceptanceBudget < MAX_CALLDATA
    && full == PaddedCall(c.domainSeparatorName, original, |full.approvalData|,
                          |full.relayRequest.relayData.paymasterData|)
    && |c.signature| == 65 && |c.approvalData| <= |full.approvalData| < 0x2_0000
    && |original.relayData.paymasterData| <= |full.relayRequest.relayData.paymasterData| < 0x2_0000
    && |EncodeTuple(RelayCallParts(full))| < MAX_CALLDATA
  }

  /** The words the request saves. */
  ghost function SavedWords(full: RelayCall, original: RelayRequest): int
  {
    WordsOf(|full.relayRequest.relayData.paymasterData|) - WordsOf(|original.relayData.paymasterData|)
  }

  lemma AreCallShaped(c: RelayCall)
    requires |c.signature| == 65
    ensures CallShaped(RelayCallParts(c))
  {
    NonzeroOfBytes(c.signature);
  }

  /** The call with the client's request padded to its maximum, and everything else final. */
  function HalfPadded(c: RelayCall, full: RelayCall): RelayCall { c.(relayRequest := full.relayRequest) }

  lemma SignatureFits(signature: seq<Byte>)
    requires |signature| == 65
    ensures PartFits(Dynamic(EncodeBytes(signature)), Dynamic(EncodeBytes(Repeat(255, 65))))
  {
    BytesFit(signature, 65);
  }

  lemma FinalBesidesRequest(c: RelayCall, full: RelayCall, original: RelayRequest, gasUsed: nat)
    requires Estimated(c, full, original, gasUsed)
    ensures var half := EncodeTuple(RelayCallParts(HalfPadded(c, full)));
            |half| <= |EncodeTuple(RelayCallParts(full))| && Nonzero(half) <= Nonzero(EncodeTuple(RelayCallParts(full)))
  {
    var actual, estimate := RelayCallParts(HalfPadded(c, full)), RelayCallParts(full);
    AreCallShaped(full);
    AreCallShaped(HalfPadded(c, full));
    AmountFits(c.maxAcceptanceBudget);
    SignatureFits(c.signature);
    BytesFit(c.approvalData, |full.approvalData|);
    ShorterApproval(actual, estimate, WordsOf(|full.approvalData|) - WordsOf(|c.approvalData|));
  }

  lemma FinalRequest(c: RelayCall, full: RelayCall, original: RelayRequest, gasUsed: nat)
    requires Estimated(c, full, original, gasUsed) && |EncodeTuple(RelayCallParts(HalfPadded(c, full)))| < MAX_CALLDATA
    ensures SavedWords(full, original) >= 0
    ensures var half := EncodeTuple(RelayCallParts(HalfPadded(c, full)));
            && |EncodeTuple(RelayCallParts(c))| + 32 * SavedWords(full, original) == |half|
            && Nonzero(EncodeTuple(RelayCallParts(c))) <= Nonzero(half) + if SavedWords(full, original) == 1 then 3
                else 0
  {
    var half := HalfPadded(c, full);
    var max := |full.relayRequest.relayData.paymasterData|;
    SavedBytes(|original.relayData.paymasterData|, max);
    AreCallShaped(c);
    AreCallShaped(half);
    ComponentIsShorter(RelayCallParts(half), 2);
    RelayRequestFits(original, gasUsed, max, SavedWords(full, original));
    ShorterRequest(RelayCallParts(c), RelayCallParts(half), SavedWords(full, original));
  }

  /** The final call is no longer than estimated, and has more nonzero bytes only if its request saves exactly one
      word. */
  lemma FinalCall(c: RelayCall, full: RelayCall, original: RelayRequest, gasUsed: nat)
    requires Estimated(c, full, original, gasUsed)
    ensures var (a, e) := (EncodeTuple(RelayCallParts(c)), EncodeTuple(RelayCallParts(full)));
            (|a| <= |e| && Nonzero(a) <= Nonzero(e))
            || (SavedWords(full, original) == 1 && |a| + 32 <= |e| && Nonzero(a) <= Nonzero(e) + 3)
  {
    FinalBesidesRequest(c, full, original, gasUsed);
    FinalRequest(c, full, original, gasUsed);
  }

  /** The estimate the client signs is never below what the server counts for the final request: at any prices if the
      paymaster data does not take exactly one word less than its maximum, and then while nonzero bytes cost at most
      11 2/3 times what zero ones do. */
  lemma ServerNeverRefusesCalldataCost(
    env: Environment, selector: seq<Byte>, domain: seq<Byte>, original: RelayRequest,
    maxApprovalDataLength: nat, maxPaymasterDataLength: nat, budget: nat, signature: seq<Byte>, approvalData: seq<Byte>)
    requires 1 <= env.gtxdatazero <= env.gtxdatanonzero
    requires WordsOf(|original.relayData.paymasterData|) + 1 != WordsOf(maxPaymasterDataLength)
               || ThreeBytesForAWord(env)
    requires |approvalData| <= maxApprovalDataLength < 0x2_0000
    requires |original.relayData.paymasterData| <= maxPaymasterDataLength < 0x2_0000
    requires |signature| == 65 && budget < 0x100_0000_0000
    ensures var gasUsed := EstimateCalldataCostForRequest(env, selector, domain, original, maxApprovalDataLength,
                                                          maxPaymasterDataLength);
            gasUsed < 0x100_0000_0000 ==>
              var request := original.(relayData := original.relayData.(transactionCalldataGasUsed := gasUsed));
              CalldataCost(env, EncodeABI(selector, RelayCall(domain, budget, request, signature, approvalData)))
                  <= gasUsed
  {
    var gasUsed := EstimateCalldataCostForRequest(env, selector, domain, original, maxApprovalDataLength,
                                                  maxPaymasterDataLength);
    if gasUsed < MAX_CALLDATA {
      var call := RelayCall(domain, budget, Signed(original, gasUsed), signature, approvalData);
      var full := PaddedCall(domain, original, maxApprovalDataLength, maxPaymasterDataLength);
      LengthIsAtMostCost(env, EncodeABI(selector, full));
      FinalCall(call, full, original, gasUsed);
      NonzeroConcat(selector, EncodeTuple(RelayCallParts(call)));
      NonzeroConcat(selector, EncodeTuple(RelayCallParts(full)));
      CheaperByAWord(env, EncodeABI(selector, call), EncodeABI(selector, full));
    }
  }
}
