/** The client's check of a relay server's answer (packages/provider/src/RelayedTransactionValidator.ts). */
module RelayedTransactionValidator {
  import opened Outcomes
  import opened TxStore
  import opened ObjectMaps

  /** `encodedCall` is the client's own encoding of the relayCall it asked for. */
  datatype RelayTransactionRequest = RelayTransactionRequest(
    relayWorker: Address, maxFeePerGas: nat, maxPriorityFeePerGas: nat,
    relayLastKnownNonce: nat, relayMaxNonce: nat, encodedCall: seq<Byte>)

  datatype ClientDeployment = ClientDeployment(relayHubAddress: Option<Address>, relayCallSelector: seq<Byte>)

  datatype GasPriceValidationResult = GasPriceValidationResult(
    isTransactionTypeValid: bool, isFeeMarket1559Transaction: bool, isLegacyGasPriceValid: bool,
    isMaxFeePerGasValid: bool, isMaxPriorityFeePerGasValid: bool)

  datatype TransactionValidationResult = TransactionValidationResult(
    gasPriceValidationResult: GasPriceValidationResult,
    nonceGapFilledValidationResult: seq<TransactionValidationResult>,
    isNonceGapFilledSizeValid: bool, isTransactionTargetValid: bool, isTransactionSenderValid: bool,
    isTransactionContentValid: bool, isTransactionNonceValid: bool)

  predicate IsGasPriceValid(g: GasPriceValidationResult)
  {
    var isValid1559GasFee := g.isFeeMarket1559Transaction && g.isMaxFeePerGasValid && g.isMaxPriorityFeePerGasValid;
    g.isTransactionTypeValid && (g.isLegacyGasPriceValid || isValid1559GasFee)
  }

  predicate IsTransactionValid(result: TransactionValidationResult)
  {
    var gap := result.nonceGapFilledValidationResult;
    && IsGasPriceValid(result.gasPriceValidationResult)
    && (forall i | 0 <= i < |gap| :: IsTransactionValid(gap[i]))
    && result.isTransactionTargetValid && result.isTransactionSenderValid && result.isTransactionContentValid
    && result.isNonceGapFilledSizeValid && result.isTransactionNonceValid
  }

  predicate ValidateTransactionTarget(c: ClientDeployment, tx: SignedTx)
  {
    c.relayHubAddress.Some? && tx.to == c.relayHubAddress.value
  }

  function ValidateTransactionInNonceGap(c: ClientDeployment, request: RelayTransactionRequest, tx: SignedTx,
                                         expectedNonce: nat): TransactionValidationResult
  {
    TransactionValidationResult(
      GasPriceValidationResult(true, true, true, true, true), [], true,
      ValidateTransactionTarget(c, tx), tx.from == request.relayWorker, c.relayCallSelector <= tx.data,
      tx.nonce == expectedNonce)
  }

  /** A relay call of the requested worker, at the given nonce. */
  ghost predicate RelayCallAt(c: ClientDeployment, request: RelayTransactionRequest, tx: SignedTx, nonce: int)
  {
    && c.relayHubAddress == Some(tx.to) && tx.from == request.relayWorker
    && c.relayCallSelector <= tx.data && tx.nonce == nonce
  }

  method ValidateGasPrice(request: RelayTransactionRequest, tx: SignedTx) returns (g: GasPriceValidationResult)
    ensures IsGasPriceValid(g) <==>
              tx.maxFeePerGas >= request.maxFeePerGas &&
              (tx.kind.FeeMarket? ==> tx.maxPriorityFeePerGas >= request.maxPriorityFeePerGas)
    ensures g.isTransactionTypeValid && g.isFeeMarket1559Transaction == tx.kind.FeeMarket?
    ensures g.isLegacyGasPriceValid == (tx.kind.Legacy? && tx.maxFeePerGas >= request.maxFeePerGas)
    ensures g.isMaxFeePerGasValid == (tx.kind.FeeMarket? && tx.maxFeePerGas >= request.maxFeePerGas)
    ensures g.isMaxPriorityFeePerGasValid ==
              (tx.kind.FeeMarket? && tx.maxPriorityFeePerGas >= request.maxPriorityFeePerGas)
  {
    var isFeeMarket1559Transaction, isLegacyGasPriceValid := false, false;
    var isMaxFeePerGasValid, isMaxPriorityFeePerGasValid := false, false;
    match tx.kind {
      case Legacy =>
        isLegacyGasPriceValid := tx.maxFeePerGas >= request.maxFeePerGas;
      case FeeMarket =>
        isFeeMarket1559Transaction := true;
        isMaxPriorityFeePerGasValid := tx.maxPriorityFeePerGas >= request.maxPriorityFeePerGas;
        isMaxFeePerGasValid := tx.maxFeePerGas >= request.maxFeePerGas;
    }
    g := GasPriceValidationResult(true, isFeeMarket1559Transaction, isLegacyGasPriceValid, isMaxFeePerGasValid,
        isMaxPriorityFeePerGasValid);
  }

  /** The gap is consecutive relay calls of the worker, from the last known nonce on. */
  ghost predicate ConsecutiveRelayCalls(c: ClientDeployment, request: RelayTransactionRequest, values: seq<SignedTx>)
  {
    forall i :: 0 <= i < |values| ==> RelayCallAt(c, request, values[i], request.relayLastKnownNonce + i)
  }

  method ValidateNonceGapFilled(c: ClientDeployment, request: RelayTransactionRequest,
                                transactionsInGap: ObjectMap<SignedTx>)
    returns (result: seq<TransactionValidationResult>)
    ensures |result| == |ObjectValues(transactionsInGap)|
    ensures (forall i :: 0 <= i < |result| ==> IsTransactionValid(result[i]))
            <==> ConsecutiveRelayCalls(c, request, ObjectValues(transactionsInGap))
    // the gas price is not looked at in the gap
    ensures forall i :: 0 <= i < |result| ==>
              result[i].gasPriceValidationResult == GasPriceValidationResult(true, true, true, true, true)
  {
    result := [];
    var values := ObjectValues(transactionsInGap);
    var expectedNonce := request.relayLastKnownNonce;
    for i := 0 to |values|
      invariant |result| == i && expectedNonce == request.relayLastKnownNonce + i
      invariant forall j :: 0 <= j < i ==>
                  result[j].gasPriceValidationResult == GasPriceValidationResult(true, true, true, true, true)
      invariant forall j :: 0 <= j < i ==>
                  (IsTransactionValid(result[j]) <==> RelayCallAt(c, request, values[j],
                      request.relayLastKnownNonce + j))
    {
      var validationResult := ValidateTransactionInNonceGap(c, request, values[i], expectedNonce);
      result := result + [validationResult];
      expectedNonce := expectedNonce + 1;
    }
  }

  /** What makes the client accept an answer. */
  ghost predicate Acceptable(c: ClientDeployment, request: RelayTransactionRequest, returnedTx: SignedTx,
                             nonceGapFilled: ObjectMap<SignedTx>)
  {
    && returnedTx.maxFeePerGas >= request.maxFeePerGas
    && (returnedTx.kind.FeeMarket? ==> returnedTx.maxPriorityFeePerGas >= request.maxPriorityFeePerGas)
    && c.relayHubAddress == Some(returnedTx.to) && returnedTx.from == request.relayWorker
    && returnedTx.data == request.encodedCall && returnedTx.nonce <= request.relayMaxNonce
    && GapAccepted(c, request, returnedTx.nonce, nonceGapFilled)
  }

  /** The gap has the size the nonce calls for and holds consecutive relay calls. */
  ghost predicate GapAccepted(c: ClientDeployment, request: RelayTransactionRequest, nonce: int,
                              gap: ObjectMap<SignedTx>)
  {
    |gap.entries| == nonce - request.relayLastKnownNonce && ConsecutiveRelayCalls(c, request, ObjectValues(gap))
  }

  method ValidateRelayResponse(c: ClientDeployment, request: RelayTransactionRequest, returnedTx: SignedTx,
                               nonceGapFilled: ObjectMap<SignedTx>)
    returns (r: TransactionValidationResult)
    ensures IsTransactionValid(r) <==> Acceptable(c, request, returnedTx, nonceGapFilled)
    // so nothing is accepted that does not go to the hub
    ensures IsTransactionValid(r) ==>
              && c.relayHubAddress == Some(returnedTx.to)
              && forall tx :: tx in ObjectValues(nonceGapFilled) ==> c.relayHubAddress == Some(tx.to)
  {
    var nonce := returnedTx.nonce;
    var expectedNonceGapLength := nonce - request.relayLastKnownNonce;
    var isNonceGapFilledSizeValid := |nonceGapFilled.entries| == expectedNonceGapLength;
    var gasPriceValidationResult := ValidateGasPrice(request, returnedTx);
    var gap := ValidateNonceGapFilled(c, request, nonceGapFilled);
    r := TransactionValidationResult(
      gasPriceValidationResult, gap, isNonceGapFilledSizeValid,
      ValidateTransactionTarget(c, returnedTx), returnedTx.from == request.relayWorker,
      returnedTx.data == request.encodedCall, nonce <= request.relayMaxNonce);
  }
}
