/** Sending, re-sending, boosting and archiving of the server's transactions
    (packages/relay/src/TransactionManager.ts). Answers of the node are parameters; `None` is a failed call. */
module TransactionManager {
  import opened Outcomes
  import opened TxStore
  import opened ObjectMaps

  const ZERO_ADDRESS: Address := 0

  /** The retry factor is the fraction retryNumerator / retryDenominator. */
  datatype Config = Config(
    kind: TransactionType, retryNumerator: nat, retryDenominator: nat, maxMaxFeePerGas: nat,
    pendingTransactionTimeoutSeconds: int, dbPruneTxAfterBlocks: int, dbPruneTxAfterSeconds: int)

  type Nonces = map<Address, nat>

  datatype SendDetails = SendDetails(
    signer: Address, serverAction: ServerAction, destination: Address, value: nat, data: seq<Byte>,
    gasLimit: Option<nat>, maxFeePerGas: Option<nat>, maxPriorityFeePerGas: Option<nat>, creationBlock: ShortBlockInfo)

  datatype SendAnswers = SendAnswers(
    gasPrice: Option<nat>, gasEstimate: Option<nat>, balance: Option<nat>,
    pendingCount: Option<nat>, broadcastHash: Option<TxId>)

  datatype SendError = NodeError | BalanceTooLow | ZeroDestination | InvalidFees | StoreRejected | BroadcastFailed

  datatype SentTransaction = SentTransaction(transactionHash: TxId, signedTx: SignedTx, nonce: nat)

  datatype GasTerms = GasTerms(maxFee: nat, maxPriorityFee: nat, gasLimit: nat)

  // ---------- the steps of a send ----------

  /** Everything before the nonce mutex: fees, gas, balance and destination. */
  function ResolveTerms(d: SendDetails, a: SendAnswers): Result<GasTerms, SendError>
  {
    if d.maxFeePerGas.None? && a.gasPrice.None? then Failure(NodeError) else
    var maxFee := if d.maxFeePerGas.Some? then d.maxFeePerGas.value else a.gasPrice.value;
    var priority := if d.maxPriorityFeePerGas.Some? then d.maxPriorityFeePerGas.value else maxFee;
    if d.gasLimit.None? && a.gasEstimate.None? then Failure(NodeError) else
    var gas := if d.gasLimit.Some? then d.gasLimit.value else a.gasEstimate.value;
    if a.balance.None? then Failure(NodeError)
    else if maxFee * gas > a.balance.value then Failure(BalanceTooLow)
    else if d.destination == ZERO_ADDRESS then Failure(ZeroDestination)
    else Success(GasTerms(maxFee, priority, gas))
  }

  function RaiseNonce(nonces: Nonces, signer: Address, count: nat): (r: Nonces)
    requires signer in nonces
  {
    if count > nonces[signer] then nonces[signer := count] else nonces
  }

  /** A fee-market transaction cannot be built with a priority fee above its fee. */
  predicate Signable(kind: TransactionType, maxFee: nat, maxPriorityFee: nat)
  {
    kind.FeeMarket? ==> maxPriorityFee <= maxFee
  }

  function SignSend(kind: TransactionType, d: SendDetails, terms: GasTerms, nonce: nat): SignedTx
  {
    SignedTx(kind, d.signer, d.destination, d.value, terms.gasLimit, d.data, terms.maxFee,
             if kind.FeeMarket? then terms.maxPriorityFee else terms.maxFee, nonce)
  }

  function FirstRecord(tx: SignedTx, d: SendDetails): StoredTransaction
  {
    StoredTransaction(tx, 1, d.serverAction, d.creationBlock, None, None)
  }

  // ---------- what a send promises, from the request, the answers and the state before it alone ----------

  /** The fee asked for, or else the node's gas price. */
  ghost function FeeOf(d: SendDetails, a: SendAnswers): Option<nat>
  {
    if d.maxFeePerGas.Some? then d.maxFeePerGas else a.gasPrice
  }

  /** The gas limit asked for, or else the node's estimate. */
  ghost function GasOf(d: SendDetails, a: SendAnswers): Option<nat>
  {
    if d.gasLimit.Some? then d.gasLimit else a.gasEstimate
  }

  /** Fee, gas limit and balance are known. */
  ghost predicate Priced(d: SendDetails, a: SendAnswers)
  {
    FeeOf(d, a).Some? && GasOf(d, a).Some? && a.balance.Some?
  }

  ghost predicate Affordable(d: SendDetails, a: SendAnswers)
  {
    Priced(d, a) && FeeOf(d, a).value * GasOf(d, a).value <= a.balance.value
  }

  /** The send gets as far as its nonce. */
  ghost predicate Polls(d: SendDetails, a: SendAnswers)
  {
    Affordable(d, a) && d.destination != 0 && a.pendingCount.Some?
  }

  /** The nonce it gets: the counter, or the pending count where that is higher. */
  ghost function NonceOf(nonces: Nonces, d: SendDetails, a: SendAnswers): nat
    requires d.signer in nonces && Polls(d, a)
  {
    if a.pendingCount.value <= nonces[d.signer] then nonces[d.signer] else a.pendingCount.value
  }

  /** It gets as far as a signature: only a fee-market transaction can ask for too high a priority fee. */
  ghost predicate Signs(kind: TransactionType, d: SendDetails, a: SendAnswers)
  {
    Polls(d, a)
    && (kind.FeeMarket? && d.maxPriorityFeePerGas.Some? ==> FeeOf(d, a).value >= d.maxPriorityFeePerGas.value)
  }

  /** The record of a send: what was asked for, for the first time, at the given nonce. */
  ghost predicate RecordOf(kind: TransactionType, d: SendDetails, a: SendAnswers, nonce: nat, t: StoredTransaction)
  {
    && t.tx.kind == kind && t.tx.from == d.signer && t.tx.to == d.destination && t.tx.value == d.value
    && t.tx.data == d.data && t.tx.nonce == nonce
    && Some(t.tx.gas) == GasOf(d, a) && Some(t.tx.maxFeePerGas) == FeeOf(d, a)
    && t.tx.maxPriorityFeePerGas == (if kind.FeeMarket? && d.maxPriorityFeePerGas.Some?
                                     then d.maxPriorityFeePerGas.value else t.tx.maxFeePerGas)
    && t.serverAction == d.serverAction && t.creationBlock == d.creationBlock
    && t.attempts == 1 && t.boostBlock.None? && t.minedBlock.None?
  }

  datatype Effect = Effect(nonces: Nonces, db: Db, result: Result<SentTransaction, SendError>)

  /** What an undisturbed `sendTransaction` does to the counters and the store. */
  function SendEffect(kind: TransactionType, nonces: Nonces, db: Db, d: SendDetails, a: SendAnswers): (e: Effect)
    requires d.signer in nonces
  {
    var terms := ResolveTerms(d, a);
    if terms.Failure? then Effect(nonces, db, Failure(terms.error))
    else if a.pendingCount.None? then Effect(nonces, db, Failure(NodeError)) else
    var polled := RaiseNonce(nonces, d.signer, a.pendingCount.value);
    var nonce := polled[d.signer];
    if !Signable(kind, terms.value.maxFee, terms.value.maxPriorityFee)
        then Effect(polled, db, Failure(InvalidFees)) else
    var record := FirstRecord(SignSend(kind, d, terms.value, nonce), d);
    var claimed := polled[d.signer := nonce + 1];
    match Put(db, record, false)
    case Failure(_) => Effect(claimed, db, Failure(StoreRejected))
    case Success(db') =>
      if a.broadcastHash == Some(record.Id())
      then Effect(claimed, db', Success(SentTransaction(record.Id(), record.tx, nonce)))
      else Effect(claimed, db', Failure(BroadcastFailed))
  }

  /** The whole promise of a send that finds the counters `nonces` and the store `db`. */
  ghost predicate SendPromise(kind: TransactionType, d: SendDetails, a: SendAnswers, nonces: Nonces, db: Db,
                              nonces': Nonces, db': Db, r: Result<SentTransaction, SendError>)
    requires d.signer in nonces
  {
    if !Polls(d, a) then
      && nonces' == nonces && db' == db
      && r == Failure(if !Priced(d, a) then NodeError
                      else if !Affordable(d, a) then BalanceTooLow
                      else if d.destination == 0 then ZeroDestination
                      else NodeError)
    else
      var nonce := NonceOf(nonces, d, a);
      var key := NonceSigner(nonce, d.signer);
      // the poll raises the counter and the signature uses the nonce up, even where the record is refused
      && nonces' == nonces[d.signer := if Signs(kind, d, a) then nonce + 1 else nonce]
      && if !Signs(kind, d, a) then db' == db && r == Failure(InvalidFees)
         else if key in db then db' == db && r == Failure(StoreRejected)
         else
           && key in db' && db' == db[key := db'[key]] && RecordOf(kind, d, a, nonce, db'[key])
           && r == if a.broadcastHash == Some(Hash(db'[key].tx))
                   then Success(SentTransaction(Hash(db'[key].tx), db'[key].tx, nonce))
                   else Failure(BroadcastFailed)
  }

  lemma SendKeepsItsPromise(kind: TransactionType, nonces: Nonces, db: Db, d: SendDetails, a: SendAnswers)
    requires d.signer in nonces
    ensures var e := SendEffect(kind, nonces, db, d, a);
            SendPromise(kind, d, a, nonces, db, e.nonces, e.db, e.result)
  {
    var terms := ResolveTerms(d, a);
    assert terms.Success? && a.pendingCount.Some? <==> Polls(d, a);
    if Polls(d, a) {
      var nonce := NonceOf(nonces, d, a);
      assert RaiseNonce(nonces, d.signer, a.pendingCount.value) == nonces[d.signer := nonce];
      assert Signs(kind, d, a) <==> Signable(kind, terms.value.maxFee, terms.value.maxPriorityFee);
      assert RecordOf(kind, d, a, nonce, FirstRecord(SignSend(kind, d, terms.value, nonce), d));
    }
  }

  // ---------- new fees ----------

  /** Math.round(x * retryFactor), rounding halves up. */
  function ScaledFee(x: nat, config: Config): (r: nat)
    requires config.retryDenominator > 0
  {
    (2 * x * config.retryNumerator + config.retryDenominator) / (2 * config.retryDenominator)
  }

  datatype NewFees = NewFees(newMaxFee: nat, newMaxPriorityFee: nat, isMaxGasPriceReached: bool)

  /** r is x * retryNumerator / retryDenominator, rounded to the nearest whole number, halves up. */
  ghost predicate Rounded(config: Config, x: nat, r: nat)
  {
    var num, den := config.retryNumerator, config.retryDenominator;
    2 * den * r <= 2 * x * num + den < 2 * den * (r + 1)
  }

  /** The new pair: both old fees scaled, raised to their minima, the fee held to the cap and the priority fee to the
      fee. */
  ghost predicate NewPrice(config: Config, oldMaxFee: nat, oldMaxPriorityFee: nat, minMaxPriorityFee: nat,
                           minMaxFee: nat, fees: NewFees)
  {
    exists fee: nat, priority: nat ::
      && Rounded(config, oldMaxFee, fee) && Rounded(config, oldMaxPriorityFee, priority)
      && fees.newMaxFee == Least(config.maxMaxFeePerGas, Greatest(fee, minMaxFee))
      && fees.newMaxPriorityFee == Least(fees.newMaxFee, Greatest(priority, minMaxPriorityFee))
      && (fees.isMaxGasPriceReached <==> fee > config.maxMaxFeePerGas || minMaxFee > config.maxMaxFeePerGas)
  }

  ghost function Least(x: nat, y: nat): (m: nat)
    ensures m <= x && m <= y && (m == x || m == y)
  {
    if x <= y then x else y
  }

  ghost function Greatest(x: nat, y: nat): (m: nat)
    ensures m >= x && m >= y && (m == x || m == y)
  {
    if x <= y then y else x
  }

  method ResolveNewGasPrice(config: Config, oldMaxFee: nat, oldMaxPriorityFee: nat, minMaxPriorityFee: nat,
                            minMaxFee: nat)
    returns (fees: NewFees)
    requires config.retryDenominator > 0
    ensures NewPrice(config, oldMaxFee, oldMaxPriorityFee, minMaxPriorityFee, minMaxFee, fees)
    ensures fees.newMaxPriorityFee <= fees.newMaxFee <= config.maxMaxFeePerGas
    // neither fee drops, for a factor of at least one and an old pair within the bounds
    ensures config.retryNumerator >= config.retryDenominator
              && oldMaxPriorityFee <= oldMaxFee <= config.maxMaxFeePerGas ==>
              fees.newMaxFee >= oldMaxFee && fees.newMaxPriorityFee >= oldMaxPriorityFee
  {
    var isMaxGasPriceReached := false;
    var newMaxFee := ScaledFee(oldMaxFee, config);
    var newMaxPriorityFee := ScaledFee(oldMaxPriorityFee, config);
    ScaledFeeRounds(oldMaxFee, config);
    ScaledFeeRounds(oldMaxPriorityFee, config);
    ghost var fee, priority := newMaxFee, newMaxPriorityFee;
    if config.retryNumerator >= config.retryDenominator {
      RoundedDoesNotDrop(config, oldMaxFee, fee);
      RoundedDoesNotDrop(config, oldMaxPriorityFee, priority);
    }
    if newMaxPriorityFee < minMaxPriorityFee {
      newMaxPriorityFee := minMaxPriorityFee;
    }
    if newMaxFee < minMaxFee {
      newMaxFee := minMaxFee;
    }
    if newMaxFee > config.maxMaxFeePerGas {
      isMaxGasPriceReached := true;
      newMaxFee := config.maxMaxFeePerGas;
    }
    if newMaxPriorityFee > newMaxFee {
      newMaxPriorityFee := newMaxFee;
    }
    fees := NewFees(newMaxFee, newMaxPriorityFee, isMaxGasPriceReached);
    assert Rounded(config, oldMaxFee, fee) && Rounded(config, oldMaxPriorityFee, priority);
  }

  lemma ScaledFeeRounds(x: nat, config: Config)
    requires config.retryDenominator > 0
    ensures Rounded(config, x, ScaledFee(x, config))
  {
    var a, d := 2 * x * config.retryNumerator + config.retryDenominator, 2 * config.retryDenominator;
    assert a == d * (a / d) + a % d;
  }

  lemma RoundedDoesNotDrop(config: Config, x: nat, r: nat)
    requires config.retryNumerator >= config.retryDenominator > 0 && Rounded(config, x, r)
    ensures r >= x
  {
    var num, den := config.retryNumerator, config.retryDenominator;
    TimesKeepsOrder(x, den, num);
    assert 2 * den * (r + 1) == 2 * (den * (r + 1)) && 2 * x * num == 2 * (x * num);
    assert den * x < den * (r + 1);
    TimesReflectsOrder(den, x, r + 1);
  }

  lemma TimesKeepsOrder(x: nat, y: nat, z: nat)
    requires y <= z
    ensures x * y <= x * z
  {
  }

  lemma TimesReflectsOrder(x: nat, y: nat, z: nat)
    requires x * y < x * z
    ensures y < z
  {
    if z <= y {
      TimesKeepsOrder(x, z, y);
    }
  }

  // ---------- re-sending ----------

  datatype ResendAnswers = ResendAnswers(balance: Option<nat>, transactionCount: Option<nat>,
      broadcastHash: Option<TxId>)

  function ResentRecord(kind: TransactionType, t: StoredTransaction, block: ShortBlockInfo, maxFee: nat,
                        maxPriorityFee: nat): StoredTransaction
  {
    StoredTransaction(
      t.tx.(kind := kind, maxFeePerGas := maxFee,
          maxPriorityFeePerGas := if kind.FeeMarket? then maxPriorityFee else maxFee),
      t.attempts + 1, t.serverAction, t.creationBlock, Some(block), t.minedBlock)
  }

  /** Same call, same nonce, same history; only kind, fees, attempts and boost block may differ. */
  ghost predicate SamePayload(t: StoredTransaction, u: StoredTransaction)
  {
    && u.tx.from == t.tx.from && u.tx.to == t.tx.to && u.tx.value == t.tx.value && u.tx.gas == t.tx.gas
    && u.tx.data == t.tx.data && u.tx.nonce == t.tx.nonce
    && u.serverAction == t.serverAction && u.creationBlock == t.creationBlock && u.minedBlock == t.minedBlock
    && u.attempts >= t.attempts
  }

  ghost predicate PayloadsKept(before: Db, after: Db)
  {
    after.Keys == before.Keys && forall k :: k in after ==> SamePayload(before[k], after[k])
  }

  // ---------- what a boost promises, from the pending transactions and the answers alone ----------

  /** A pass: the kind of transaction it signs, the block it runs at and the new fees. */
  datatype Pass = Pass(kind: TransactionType, block: ShortBlockInfo, fees: NewFees)

  ghost predicate Underpriced(t: StoredTransaction, fees: NewFees)
  {
    t.tx.maxFeePerGas < fees.newMaxFee || t.tx.maxPriorityFeePerGas < fees.newMaxPriorityFee
  }

  /** The priority fee a signature holds. */
  ghost function PriorityIn(kind: TransactionType, maxFee: nat, maxPriorityFee: nat): nat
  {
    if kind == FeeMarket then maxPriorityFee else maxFee
  }

  /** The balance covers a transaction at these fees, and they can be signed. */
  ghost predicate Resendable(kind: TransactionType, t: StoredTransaction, maxFee: nat, maxPriorityFee: nat,
                             a: ResendAnswers)
  {
    a.balance.Some? && maxFee * t.tx.gas <= a.balance.value && (kind == FeeMarket ==> maxPriorityFee <= maxFee)
  }

  /** u is t sent once more: the same call at the same nonce, of the given kind and fees, one attempt later, at the
      given block. */
  ghost predicate Again(kind: TransactionType, t: StoredTransaction, block: ShortBlockInfo, maxFee: nat,
                        maxPriorityFee: nat, u: StoredTransaction)
  {
    && u.tx == t.tx.(kind := kind, maxFeePerGas := maxFee,
                     maxPriorityFeePerGas := PriorityIn(kind, maxFee, maxPriorityFee))
    && u.attempts == t.attempts + 1 && u.boostBlock == Some(block)
    && u.serverAction == t.serverAction && u.creationBlock == t.creationBlock && u.minedBlock == t.minedBlock
  }

  /** What the pass makes of one pending transaction t, given the node's answers: an underpriced one gets the new fees,
      any other is sent again as it is if that is possible. */
  ghost predicate After(p: Pass, t: StoredTransaction, a: ResendAnswers, u: StoredTransaction)
  {
    if Underpriced(t, p.fees) then Again(p.kind, t, p.block, p.fees.newMaxFee, p.fees.newMaxPriorityFee, u)
    else if Resendable(p.kind, t, t.tx.maxFeePerGas, t.tx.maxPriorityFeePerGas, a)
    then Again(p.kind, t, p.block, t.tx.maxFeePerGas, t.tx.maxPriorityFeePerGas, u)
    else u == t
  }

  /** The node takes the replacement of an underpriced transaction. */
  ghost predicate Answered(p: Pass, t: StoredTransaction, a: ResendAnswers)
  {
    && Resendable(p.kind, t, p.fees.newMaxFee, p.fees.newMaxPriorityFee, a) && a.transactionCount.Some?
    && a.broadcastHash == Some(Hash(t.tx.(
         kind := p.kind, maxFeePerGas := p.fees.newMaxFee,
         maxPriorityFeePerGas := PriorityIn(p.kind, p.fees.newMaxFee, p.fees.newMaxPriorityFee))))
  }

  /** The pending transaction t is handled, and the boost answer names what replaced it, if anything did. */
  ghost predicate HandledAs(p: Pass, t: StoredTransaction, a: ResendAnswers, db: Db,
                            replaced: map<TxId, SentTransaction>)
  {
    && t.Key() in db && After(p, t, a, db[t.Key()])
    && (Hash(t.tx) in replaced <==> Underpriced(t, p.fees))
    && (Hash(t.tx) in replaced ==>
          replaced[Hash(t.tx)] == SentTransaction(Hash(db[t.Key()].tx), db[t.Key()].tx, t.tx.nonce))
  }

  /** A record after its turn is not under the new fees. */
  lemma AfterIsPriced(p: Pass, t: StoredTransaction, a: ResendAnswers, u: StoredTransaction)
    requires After(p, t, a, u) && p.fees.newMaxPriorityFee <= p.fees.newMaxFee
    ensures !Underpriced(u, p.fees)
  {
  }

  /** The transactions from the i-th on are stored as they were. */
  ghost predicate Untouched(before: Db, db: Db, pendingTxs: seq<StoredTransaction>, i: nat)
    requires before.Keys == db.Keys
  {
    forall j :: i <= j < |pendingTxs| ==>
        pendingTxs[j].Key() in db && db[pendingTxs[j].Key()] == pendingTxs[j] == before[pendingTxs[j].Key()]
  }

  lemma LaterUntouched(before: Db, db: Db, db': Db, pendingTxs: seq<StoredTransaction>, i: nat)
    requires i < |pendingTxs| && StrictlyAscending(pendingTxs) && before.Keys == db.Keys == db'.Keys
               && Untouched(before, db, pendingTxs, i)
    requires forall k :: k in db' && k != pendingTxs[i].Key() ==> db'[k] == db[k]
    ensures Untouched(before, db', pendingTxs, i + 1)
  {
    forall j | i + 1 <= j < |pendingTxs|
      ensures pendingTxs[j].Key() in db' && db'[pendingTxs[j].Key()] == pendingTxs[j] == before[pendingTxs[j].Key()]
    {
      assert pendingTxs[i].tx.nonce < pendingTxs[j].tx.nonce;
    }
  }

  ghost predicate OthersKept(before: Db, db: Db, pendingTxs: seq<StoredTransaction>)
    requires before.Keys == db.Keys
  {
    forall k :: k in db && before[k] !in pendingTxs ==> db[k] == before[k]
  }

  lemma TurnKeepsTheOthers(before: Db, db: Db, db': Db, pendingTxs: seq<StoredTransaction>, t: StoredTransaction)
    requires before.Keys == db.Keys == db'.Keys && OthersKept(before, db, pendingTxs)
    requires t in pendingTxs && t.Key() in before && before[t.Key()] == t
    requires forall k :: k in db' && k != t.Key() ==> db'[k] == db[k]
    ensures OthersKept(before, db', pendingTxs)
  {
  }

  /** What the boost loop has done after i turns. */
  ghost predicate Progress(p: Pass, before: Db, db: Db, pendingTxs: seq<StoredTransaction>,
                           answers: nat -> ResendAnswers, i: nat, replaced: map<TxId, SentTransaction>)
    requires i <= |pendingTxs|
  {
    && PayloadsKept(before, db)
    && OthersKept(before, db, pendingTxs) && Untouched(before, db, pendingTxs, i)
    && (forall j :: 0 <= j < i ==> HandledAs(p, pendingTxs[j], answers(j), db, replaced))
    && AreTaken(pendingTxs, i, replaced)
  }

  /** What one turn does to the record of t. */
  ghost predicate Turn(p: Pass, t: StoredTransaction, a: ResendAnswers, db: Db, db': Db, sent: Option<SentTransaction>)
  {
    && db'.Keys == db.Keys && t.Key() in db'
    && (forall k :: k in db' && k != t.Key() ==> db'[k] == db[k])
    && After(p, t, a, db'[t.Key()])
    && (sent.Some? <==> Underpriced(t, p.fees))
    && (sent.Some? ==> sent.value == SentTransaction(Hash(db'[t.Key()].tx), db'[t.Key()].tx, t.tx.nonce))
  }

  function Recorded(replaced: map<TxId, SentTransaction>, id: TxId,
                    sent: Option<SentTransaction>): map<TxId, SentTransaction>
  {
    if sent.Some? then replaced[id := sent.value] else replaced
  }

  lemma TurnHandlesItsOwn(p: Pass, t: StoredTransaction, a: ResendAnswers, db: Db, db': Db,
                          replaced: map<TxId, SentTransaction>, sent: Option<SentTransaction>)
    requires Turn(p, t, a, db, db', sent) && t.Id() !in replaced
    ensures HandledAs(p, t, a, db', Recorded(replaced, t.Id(), sent))
  {
  }

  lemma TurnKeepsOthers(p: Pass, u: StoredTransaction, b: ResendAnswers, t: StoredTransaction, a: ResendAnswers,
                        db: Db, db': Db, replaced: map<TxId, SentTransaction>, sent: Option<SentTransaction>)
    requires Turn(p, t, a, db, db', sent) && HandledAs(p, u, b, db, replaced) && u.tx.nonce != t.tx.nonce
    ensures HandledAs(p, u, b, db', Recorded(replaced, t.Id(), sent))
  {
    assert u.Key() != t.Key() && u.Id() != t.Id();
  }

  lemma PayloadsKeptTwice(before: Db, db: Db, db': Db)
    requires PayloadsKept(before, db) && PayloadsKept(db, db')
    ensures PayloadsKept(before, db')
  {
  }

  /** Only transactions whose turn has come are replaced. */
  ghost predicate AreTaken(pendingTxs: seq<StoredTransaction>, i: nat, replaced: map<TxId, SentTransaction>)
    requires i <= |pendingTxs|
  {
    forall id :: id in replaced ==> exists j :: 0 <= j < i && pendingTxs[j].Id() == id
  }

  lemma RecordedAreTaken(pendingTxs: seq<StoredTransaction>, i: nat, replaced: map<TxId, SentTransaction>,
                         sent: Option<SentTransaction>)
    requires i < |pendingTxs| && AreTaken(pendingTxs, i, replaced)
    ensures AreTaken(pendingTxs, i + 1, Recorded(replaced, pendingTxs[i].Id(), sent))
  {
    forall id | id in Recorded(replaced, pendingTxs[i].Id(), sent)
        ensures exists j :: 0 <= j < i + 1 && pendingTxs[j].Id() == id
    {
      if id in replaced {
        var j :| 0 <= j < i && pendingTxs[j].Id() == id;
      } else {
        assert pendingTxs[i].Id() == id;
      }
    }
  }

  lemma TurnKeepsHandled(p: Pass, db: Db, db': Db, pendingTxs: seq<StoredTransaction>, answers: nat -> ResendAnswers,
                         i: nat, replaced: map<TxId, SentTransaction>, sent: Option<SentTransaction>)
    requires i < |pendingTxs| && StrictlyAscending(pendingTxs)
    requires forall j :: 0 <= j < i ==> HandledAs(p, pendingTxs[j], answers(j), db, replaced)
    requires Turn(p, pendingTxs[i], answers(i), db, db', sent)
    ensures forall j :: 0 <= j < i ==>
              HandledAs(p, pendingTxs[j], answers(j), db', Recorded(replaced, pendingTxs[i].Id(), sent))
  {
    var t := pendingTxs[i];
    forall j | 0 <= j < i ensures HandledAs(p, pendingTxs[j], answers(j), db', Recorded(replaced, t.Id(), sent)) {
      assert pendingTxs[j].tx.nonce < t.tx.nonce;
      TurnKeepsOthers(p, pendingTxs[j], answers(j), t, answers(i), db, db', replaced, sent);
    }
  }

  lemma NotYetTaken(pendingTxs: seq<StoredTransaction>, i: nat, replaced: map<TxId, SentTransaction>)
    requires i < |pendingTxs| && StrictlyAscending(pendingTxs) && AreTaken(pendingTxs, i, replaced)
    ensures pendingTxs[i].Id() !in replaced
  {
    forall j | 0 <= j < i ensures pendingTxs[j].Id() != pendingTxs[i].Id() {
      assert pendingTxs[j].tx.nonce < pendingTxs[i].tx.nonce;
    }
  }

  lemma TurnMakesProgress(p: Pass, before: Db, db: Db, db': Db, pendingTxs: seq<StoredTransaction>,
                          answers: nat -> ResendAnswers, i: nat, replaced: map<TxId, SentTransaction>,
                          sent: Option<SentTransaction>)
    requires i < |pendingTxs| && StrictlyAscending(pendingTxs)
    requires Progress(p, before, db, pendingTxs, answers, i, replaced) && PayloadsKept(db, db')
    requires Turn(p, pendingTxs[i], answers(i), db, db', sent)
    ensures Progress(p, before, db', pendingTxs, answers, i + 1, Recorded(replaced, pendingTxs[i].Id(), sent))
  {
    var t := pendingTxs[i];
    NotYetTaken(pendingTxs, i, replaced);
    TurnHandlesItsOwn(p, t, answers(i), db, db', replaced, sent);
    TurnKeepsHandled(p, db, db', pendingTxs, answers, i, replaced, sent);
    RecordedAreTaken(pendingTxs, i, replaced, sent);
    LaterUntouched(before, db, db', pendingTxs, i);
    PayloadsKeptTwice(before, db, db');
    TurnKeepsTheOthers(before, db, db', pendingTxs, t);
  }

  ghost predicate AllAnswered(p: Pass, pendingTxs: seq<StoredTransaction>, answers: nat -> ResendAnswers)
  {
    forall j :: 0 <= j < |pendingTxs| && Underpriced(pendingTxs[j], p.fees) ==>
        Answered(p, pendingTxs[j], answers(j))
  }

  lemma OneMoreAnswered(p: Pass, pendingTxs: seq<StoredTransaction>, answers: nat -> ResendAnswers, i: nat)
    requires i < |pendingTxs| && AllAnswered(p, pendingTxs[..i], answers)
    requires Underpriced(pendingTxs[i], p.fees) ==> Answered(p, pendingTxs[i], answers(i))
    ensures AllAnswered(p, pendingTxs[..i + 1], answers)
  {
    forall j | 0 <= j <= i && Underpriced(pendingTxs[j], p.fees) ensures Answered(p, pendingTxs[j], answers(j)) {
      assert j < i ==> pendingTxs[..i][j] == pendingTxs[j];
    }
  }

  /** Every pending transaction is handled, and the answer names no other. */
  ghost predicate AllHandled(p: Pass, pendingTxs: seq<StoredTransaction>, answers: nat -> ResendAnswers, db: Db,
                             replaced: map<TxId, SentTransaction>)
  {
    && (forall j :: 0 <= j < |pendingTxs| ==> HandledAs(p, pendingTxs[j], answers(j), db, replaced))
    && AreTaken(pendingTxs, |pendingTxs|, replaced)
  }

  ghost predicate NonePending(db: Db, signer: Address, latestCount: int)
  {
    forall k :: k in db ==> !InRange(k, signer, latestCount, None)
  }

  datatype BoostOutcome =
    | NothingPending
    | AwaitingConfirmations
    | SentRecently
    | Boosted(fees: NewFees, replaced: map<TxId, SentTransaction>)

  datatype BoostError = MissingNonce(nonce: nat, lowest: nat) | GasFeesUnavailable | ResendFailed(sendError: SendError)

  /** The timestamp of the last boost, or of the send. */
  ghost function LastSentAt(t: StoredTransaction): nat
  {
    if t.boostBlock.Some? then t.boostBlock.value.timestamp else t.creationBlock.timestamp
  }

  ghost predicate NoFeeDrops(config: Config, t: StoredTransaction, fees: NewFees)
  {
    config.retryNumerator >= config.retryDenominator
    && t.tx.maxPriorityFeePerGas <= t.tx.maxFeePerGas <= config.maxMaxFeePerGas ==>
      fees.newMaxFee >= t.tx.maxFeePerGas && fees.newMaxPriorityFee >= t.tx.maxPriorityFeePerGas
  }

  /** u is t with the block its receipt names, where t is rechecked and the receipt names one; otherwise it is t. */
  ghost predicate MinedAsReceipted(t: StoredTransaction, currentBlock: int, recheckAfter: int,
                                   receipt: TxId -> Option<nat>, block: nat -> ShortBlockInfo, u: StoredTransaction)
  {
    var named := receipt(Hash(t.tx));
    if t.minedBlock.None?
    then u == (if named.Some? then t.(minedBlock := Some(block(named.value))) else t)
    else if currentBlock - t.minedBlock.value.number >= recheckAfter && named.Some?
            && named.value != t.minedBlock.value.number
    then u == t.(minedBlock := Some(block(named.value)))
    else u == t
  }

  /** The records of `done` are rechecked, all others are as before. */
  ghost predicate Filled(before: Db, db: Db, done: seq<StoredTransaction>, currentBlock: int, recheckAfter: int,
                         receipt: TxId -> Option<nat>, block: nat -> ShortBlockInfo)
  {
    && db.Keys == before.Keys
    && forall k :: k in before ==>
         if before[k] in done then MinedAsReceipted(before[k], currentBlock, recheckAfter, receipt, block, db[k])
         else db[k] == before[k]
  }

  lemma OneMoreFilled(before: Db, db: Db, db': Db, txs: seq<StoredTransaction>, i: nat, currentBlock: int,
                      recheckAfter: int, receipt: TxId -> Option<nat>, block: nat -> ShortBlockInfo)
    requires i < |txs| && ValidDb(before) && txs[i].Key() in before && before[txs[i].Key()] == txs[i]
    requires Filled(before, db, txs[..i], currentBlock, recheckAfter, receipt, block)
    requires db'.Keys == db.Keys && forall k :: k in db && k != txs[i].Key() ==> db'[k] == db[k]
    requires
      var k := txs[i].Key();
      || MinedAsReceipted(txs[i], currentBlock, recheckAfter, receipt, block, db'[k])
      || (db'[k] == db[k] && MinedAsReceipted(txs[i], currentBlock, recheckAfter, receipt, block, txs[i]))
    ensures Filled(before, db', txs[..i + 1], currentBlock, recheckAfter, receipt, block)
  {
    var t := txs[i];
    assert txs[..i + 1] == txs[..i] + [t];
    assert forall k :: k in before && k != t.Key() ==> before[k] != t;
  }

  class TransactionManager {
    var nonces: Nonces
    const store: TxStoreManager
    const config: Config

    constructor (managerAddress: Address, workerAddress: Address, store: TxStoreManager, config: Config)
      ensures this.store == store && this.config == config
      ensures nonces == map[managerAddress := 0, workerAddress := 0]
    {
      this.nonces := map[managerAddress := 0, workerAddress := 0];
      this.store := store;
      this.config := config;
    }

    method PollNonce(signer: Address, pendingCount: nat) returns (nonce: nat)
      requires signer in nonces
      modifies this`nonces
      ensures nonce == if pendingCount <= old(nonces)[signer] then old(nonces)[signer] else pendingCount
      ensures nonces == old(nonces)[signer := nonce]
    {
      if pendingCount > nonces[signer] {
        nonces := nonces[signer := pendingCount];
      }
      nonce := nonces[signer];
    }

    method SendTransaction(d: SendDetails, a: SendAnswers) returns (r: Result<SentTransaction, SendError>)
      requires d.signer in nonces && ValidDb(store.db)
      modifies this`nonces, store
      ensures ValidDb(store.db) && nonces.Keys == old(nonces.Keys)
      ensures Effect(nonces, store.db, r) == SendEffect(config.kind, old(nonces), old(store.db), d, a)
      ensures SendPromise(config.kind, d, a, old(nonces), old(store.db), nonces, store.db, r)
    {
      SendKeepsItsPromise(config.kind, nonces, store.db, d, a);
      var terms := ResolveTerms(d, a);
      if terms.Failure? {
        return Failure(terms.error);
      }
      // the nonce mutex is held from here to the write of the record
      if a.pendingCount.None? {
        return Failure(NodeError);
      }
      var nonce := PollNonce(d.signer, a.pendingCount.value);
      assert nonces == RaiseNonce(old(nonces), d.signer, a.pendingCount.value);
      if !Signable(config.kind, terms.value.maxFee, terms.value.maxPriorityFee) {
        return Failure(InvalidFees);
      }
      var signed := SignSend(config.kind, d, terms.value, nonce);
      var storedTx := FirstRecord(signed, d);
      nonces := nonces[d.signer := nonces[d.signer] + 1];
      var put := store.PutTx(storedTx, false);
      if put.Failure? {
        return Failure(StoreRejected);
      }
      if a.broadcastHash != Some(storedTx.Id()) {
        return Failure(BroadcastFailed);
      }
      r := Success(SentTransaction(storedTx.Id(), signed, nonce));
    }

    /** The record is replaced before the broadcast, so a failed broadcast leaves the new record behind. */
    method ResendTransaction(t: StoredTransaction, currentBlock: ShortBlockInfo, newMaxFee: nat,
                             newMaxPriorityFee: nat, a: ResendAnswers)
      returns (r: Result<SentTransaction, SendError>)
      requires ValidDb(store.db)
      modifies store
      ensures ValidDb(store.db)
      ensures a.balance.None? ==> r == Failure(NodeError) && store.db == old(store.db)
      ensures a.balance.Some? && newMaxFee * t.tx.gas > a.balance.value ==>
                r == Failure(BalanceTooLow) && store.db == old(store.db)
      ensures a.balance.Some? && newMaxFee * t.tx.gas <= a.balance.value
                && !Resendable(config.kind, t, newMaxFee, newMaxPriorityFee, a) ==>
                r == Failure(InvalidFees) && store.db == old(store.db)
      ensures Resendable(config.kind, t, newMaxFee, newMaxPriorityFee, a) ==>
                && t.Key() in store.db && store.db == old(store.db)[t.Key() := store.db[t.Key()]]
                && var u := store.db[t.Key()];
                   && Again(config.kind, t, currentBlock, newMaxFee, newMaxPriorityFee, u)
                   && r == if a.transactionCount.None? then Failure(NodeError)
                           else if a.broadcastHash == Some(Hash(u.tx))
                           then Success(SentTransaction(Hash(u.tx), u.tx, t.tx.nonce))
                           else Failure(BroadcastFailed)
    {
      if a.balance.None? {
        return Failure(NodeError);
      }
      if newMaxFee * t.tx.gas > a.balance.value {
        return Failure(BalanceTooLow);
      }
      if !Signable(config.kind, newMaxFee, newMaxPriorityFee) {
        return Failure(InvalidFees);
      }
      var storedTx := ResentRecord(config.kind, t, currentBlock, newMaxFee, newMaxPriorityFee);
      assert storedTx.Key() == t.Key();
      var _ := store.PutTx(storedTx, true);
      if a.transactionCount.None? {
        return Failure(NodeError);
      }
      if a.broadcastHash != Some(storedTx.Id()) {
        return Failure(BroadcastFailed);
      }
      r := Success(SentTransaction(storedTx.Id(), storedTx.tx, t.tx.nonce));
    }

    /** One turn of the boost loop: an underpriced transaction gets the new fees, another is sent again as it is. */
    method ResendOne(t: StoredTransaction, currentBlock: ShortBlockInfo, fees: NewFees, a: ResendAnswers)
      returns (r: Result<Option<SentTransaction>, SendError>)
      requires ValidDb(store.db) && fees.newMaxPriorityFee <= fees.newMaxFee
      requires t.Key() in store.db && store.db[t.Key()] == t
      modifies store
      ensures ValidDb(store.db) && PayloadsKept(old(store.db), store.db)
      ensures forall k :: k in store.db && k != t.Key() ==> store.db[k] == old(store.db)[k]
      ensures var p := Pass(config.kind, currentBlock, fees);
              && (r.Success? <==> !Underpriced(t, fees) || Answered(p, t, a))
              && (r.Success? ==> Turn(p, t, a, old(store.db), store.db, r.value))
    {
      if t.tx.maxFeePerGas < fees.newMaxFee || t.tx.maxPriorityFeePerGas < fees.newMaxPriorityFee {
        var boosted := ResendTransaction(t, currentBlock, fees.newMaxFee, fees.newMaxPriorityFee, a);
        if boosted.Failure? {
          return Failure(boosted.error);
        }
        r := Success(Some(boosted.value));
      } else {
        // the failure of a mere rebroadcast is logged and dropped
        var _ := ResendTransaction(t, currentBlock, t.tx.maxFeePerGas, t.tx.maxPriorityFeePerGas, a);
        r := Success(None);
      }
    }

    method ResendAll(pendingTxs: seq<StoredTransaction>, currentBlock: ShortBlockInfo, fees: NewFees,
                     answers: nat -> ResendAnswers)
      returns (r: Result<map<TxId, SentTransaction>, SendError>)
      requires ValidDb(store.db) && fees.newMaxPriorityFee <= fees.newMaxFee
      requires StrictlyAscending(pendingTxs)
      requires forall j :: 0 <= j < |pendingTxs|
                 ==> pendingTxs[j].Key() in store.db && store.db[pendingTxs[j].Key()] == pendingTxs[j]
      modifies store
      ensures ValidDb(store.db) && PayloadsKept(old(store.db), store.db)
      ensures forall k :: k in store.db && old(store.db)[k] !in pendingTxs ==> store.db[k] == old(store.db)[k]
      ensures var p := Pass(config.kind, currentBlock, fees);
              && (r.Success? <==> AllAnswered(p, pendingTxs, answers))
              && (r.Success? ==> AllHandled(p, pendingTxs, answers, store.db, r.value))
    {
      ghost var p := Pass(config.kind, currentBlock, fees);
      ghost var before := store.db;
      var replaced: map<TxId, SentTransaction> := map[];
      var i := 0;
      while i < |pendingTxs|
        invariant 0 <= i <= |pendingTxs|
        invariant ValidDb(store.db) && Progress(p, before, store.db, pendingTxs, answers, i, replaced)
        invariant AllAnswered(p, pendingTxs[..i], answers)
      {
        ghost var db, oldReplaced := store.db, replaced;
        var one := ResendOne(pendingTxs[i], currentBlock, fees, answers(i));
        if one.Failure? {
          PayloadsKeptTwice(before, db, store.db);
          assert !AllAnswered(p, pendingTxs, answers);
          return Failure(one.error);
        }
        OneMoreAnswered(p, pendingTxs, answers, i);
        if one.value.Some? {
          replaced := replaced[pendingTxs[i].Id() := one.value.value];
        }
        TurnMakesProgress(p, before, db, store.db, pendingTxs, answers, i, oldReplaced, one.value);
        i := i + 1;
      }
      assert pendingTxs[..i] == pendingTxs;
      r := Success(replaced);
    }

    /** `latestCount` is the mined transaction count, `baseFee` the node's fee answer, `answers` the node during the
        loop. */
    method BoostUnderpricedPendingTransactions(
      signer: Address, currentBlock: ShortBlockInfo, minMaxPriorityFee: nat,
      latestCount: nat, baseFee: Option<nat>, answers: nat -> ResendAnswers)
      returns (r: Result<BoostOutcome, BoostError>)
      requires ValidDb(store.db) && config.retryDenominator > 0
      modifies store
      // whatever happens, no key appears or disappears and no transaction changes what it does
      ensures ValidDb(store.db) && PayloadsKept(old(store.db), store.db)
      ensures forall k :: k in store.db && !InRange(k, signer, latestCount, None) ==> store.db[k] == old(store.db)[k]
      // a completed pass prices the oldest pending transaction anew, handles every pending one, leaves none under
      // the new fees, and its answer maps exactly the underpriced transactions to what is now stored at their nonces
      ensures r.Success? && r.value.Boosted? ==>
                && NonceSigner(latestCount, signer) in old(store.db) && baseFee.Some?
                && var oldest := old(store.db)[NonceSigner(latestCount, signer)];
                   && NewPrice(config, oldest.tx.maxFeePerGas, oldest.tx.maxPriorityFeePerGas, minMaxPriorityFee,
                               baseFee.value, r.value.fees)
                   && NoFeeDrops(config, oldest, r.value.fees)
      ensures r.Success? && r.value.Boosted? ==>
                && r.value.fees.newMaxPriorityFee <= r.value.fees.newMaxFee <= config.maxMaxFeePerGas
                && forall k :: k in store.db && InRange(k, signer, latestCount, None) ==>
                     !Underpriced(store.db[k], r.value.fees)
      ensures r.Success? && r.value.Boosted? ==>
                exists pendingTxs ::
                  && RangeAnswer(old(store.db), signer, latestCount, None, pendingTxs)
                  && AllAnswered(Pass(config.kind, currentBlock, r.value.fees), pendingTxs, answers)
                  && AllHandled(Pass(config.kind, currentBlock, r.value.fees), pendingTxs, answers, store.db,
                                r.value.replaced)
      // the other outcomes
      ensures r == Success(NothingPending) <==> NonePending(old(store.db), signer, latestCount)
      ensures r != Success(AwaitingConfirmations)
      ensures (r.Failure? && r.error.MissingNonce?) <==>
                !NonePending(old(store.db), signer, latestCount) && NonceSigner(latestCount, signer) !in old(store.db)
      ensures r.Failure? && r.error.MissingNonce? ==>
                && r.error.nonce == latestCount && NonceSigner(r.error.lowest, signer) in old(store.db)
                && forall k :: k in old(store.db) && InRange(k, signer, latestCount, None) ==>
                     r.error.lowest <= k.nonce
      ensures r == Success(SentRecently) <==>
                && NonceSigner(latestCount, signer) in old(store.db)
                && currentBlock.timestamp - LastSentAt(old(store.db)[NonceSigner(latestCount, signer)])
                   < config.pendingTransactionTimeoutSeconds
      ensures r == Failure(GasFeesUnavailable) <==>
                && NonceSigner(latestCount, signer) in old(store.db) && baseFee.None?
                && currentBlock.timestamp - LastSentAt(old(store.db)[NonceSigner(latestCount, signer)])
                   >= config.pendingTransactionTimeoutSeconds
      ensures r.Failure? && r.error.ResendFailed? ==>
                && NonceSigner(latestCount, signer) in old(store.db) && baseFee.Some?
                && var oldest := old(store.db)[NonceSigner(latestCount, signer)];
                   exists pendingTxs, fees ::
                     && RangeAnswer(old(store.db), signer, latestCount, None, pendingTxs)
                     && NewPrice(config, oldest.tx.maxFeePerGas, oldest.tx.maxPriorityFeePerGas, minMaxPriorityFee,
                                 baseFee.value, fees)
                     && !AllAnswered(Pass(config.kind, currentBlock, fees), pendingTxs, answers)
      ensures r.Failure? && !r.error.ResendFailed? ==> store.db == old(store.db)
      ensures r.Success? && !r.value.Boosted? ==> store.db == old(store.db)
    {
      var pendingTxs := store.GetTxsInNonceRange(signer, latestCount, None);
      if |pendingTxs| == 0 {
        return Success(NothingPending);
      }
      var oldest := pendingTxs[0];
      assert oldest in pendingTxs && InRange(oldest.Key(), signer, latestCount, None);
      // the branch for an oldest nonce below the mined count is dead: the query starts at that count
      assert oldest.tx.nonce >= latestCount;
      if latestCount != oldest.tx.nonce {
        assert forall t :: t in pendingTxs ==> t.tx.nonce >= oldest.tx.nonce;
        assert InRange(NonceSigner(latestCount, signer), signer, latestCount, None);
        return Failure(MissingNonce(latestCount, oldest.tx.nonce));
      }
      assert oldest.Key() == NonceSigner(latestCount, signer);
      var lastSentAt := if oldest.boostBlock.Some? then oldest.boostBlock.value.timestamp
                        else oldest.creationBlock.timestamp;
      if currentBlock.timestamp - lastSentAt < config.pendingTransactionTimeoutSeconds {
        return Success(SentRecently);
      }
      if baseFee.None? {
        return Failure(GasFeesUnavailable);
      }
      var fees := ResolveNewGasPrice(config, oldest.tx.maxFeePerGas, oldest.tx.maxPriorityFeePerGas, minMaxPriorityFee,
          baseFee.value);
      var resent := ResendAll(pendingTxs, currentBlock, fees, answers);
      ghost var p := Pass(config.kind, currentBlock, fees);
      if resent.Failure? {
        assert !AllAnswered(p, pendingTxs, answers);
        return Failure(ResendFailed(resent.error));
      }
      forall k | k in store.db && InRange(k, signer, latestCount, None) ensures !Underpriced(store.db[k], fees) {
        assert old(store.db)[k] in pendingTxs;
        var j :| 0 <= j < |pendingTxs| && pendingTxs[j] == old(store.db)[k];
        assert HandledAs(p, pendingTxs[j], answers(j), store.db, resent.value);
        AfterIsPriced(p, pendingTxs[j], answers(j), store.db[k]);
      }
      return Success(Boosted(fees, resent.value));
    }

    method UpdateTransactionWithMinedBlock(t: StoredTransaction, minedBlock: ShortBlockInfo)
      requires t.attempts > 0 && ValidDb(store.db)
      modifies store
      ensures ValidDb(store.db) && store.db == old(store.db)[t.Key() := t.(minedBlock := Some(minedBlock))]
    {
      var storedTx := t.(minedBlock := Some(minedBlock));
      assert storedTx.Key() == t.Key();
      var _ := store.PutTx(storedTx, true);
    }

    method FillMinedBlockDetailsForTransactions(currentBlock: int, receipt: TxId -> Option<nat>,
                                                block: nat -> ShortBlockInfo)
      requires ValidDb(store.db) && forall k :: k in store.db ==> store.db[k].attempts > 0
      modifies store
      ensures ValidDb(store.db)
      // a transaction never mined, or mined long enough ago, takes the block its receipt names; nothing else changes
      ensures store.db.Keys == old(store.db).Keys
      ensures forall k :: k in store.db ==>
                MinedAsReceipted(old(store.db)[k], currentBlock, config.dbPruneTxAfterBlocks, receipt, block,
                                 store.db[k])
    {
      var sortedTxs := store.GetAll();
      ghost var before := store.db;
      var i := 0;
      while i < |sortedTxs|
        invariant 0 <= i <= |sortedTxs|
        invariant ValidDb(store.db)
        invariant Filled(before, store.db, sortedTxs[..i], currentBlock, config.dbPruneTxAfterBlocks, receipt, block)
      {
        var t := sortedTxs[i];
        ghost var db := store.db;
        assert t in sortedTxs && t.Key() in before && before[t.Key()] == t;
        var shouldRecheck := t.minedBlock.None?
            || currentBlock - t.minedBlock.value.number >= config.dbPruneTxAfterBlocks;
        if shouldRecheck {
          var found := receipt(t.Id());
          if found.Some? && (t.minedBlock.None? || found.value != t.minedBlock.value.number) {
            UpdateTransactionWithMinedBlock(t, block(found.value));
          }
        }
        OneMoreFilled(before, db, store.db, sortedTxs, i, currentBlock, config.dbPruneTxAfterBlocks, receipt, block);
        i := i + 1;
      }
      assert sortedTxs[..i] == sortedTxs;
      assert forall k :: k in before ==> before[k].Key() == k && before[k] in sortedTxs;
    }

    method RemoveArchivedTransactions(currentBlock: ShortBlockInfo)
      modifies store
      ensures store.db == RemoveArchived(old(store.db), currentBlock.number - config.dbPruneTxAfterBlocks,
                                         currentBlock.timestamp - config.dbPruneTxAfterSeconds)
      ensures forall k :: k in old(store.db) ==>
                (k !in store.db <==>
                 && old(store.db)[k].minedBlock.Some?
                 && currentBlock.number - old(store.db)[k].minedBlock.value.number >= config.dbPruneTxAfterBlocks
                 && currentBlock.timestamp - old(store.db)[k].minedBlock.value.timestamp
                    >= config.dbPruneTxAfterSeconds)
      ensures forall k :: k in store.db ==> k in old(store.db) && store.db[k] == old(store.db)[k]
    {
      var upToBlockNumber := currentBlock.number - config.dbPruneTxAfterBlocks;
      var upToTimestamp := currentBlock.timestamp - config.dbPruneTxAfterSeconds;
      store.RemoveArchivedTransactions(upToBlockNumber, upToTimestamp);
    }

    /** The stored transactions of a nonce range as an object keyed by nonce. */
    method GetNonceGapFilled(signer: Address, fromNonce: int, toNonce: int) returns (gap: ObjectMap<SignedTx>)
      requires ValidDb(store.db)
      ensures exists r: seq<StoredTransaction> ::
                && RangeAnswer(store.db, signer, fromNonce, Some(toNonce), r) && |gap.entries| == |r|
                && gap.entries == GapEntries(r)
                && forall i :: 0 <= i < |r| ==> gap.entries[i] == (r[i].tx.nonce, r[i].tx)
      ensures RisingKeys(gap.entries)
    {
      var transactions := store.GetTxsInNonceRange(signer, fromNonce, Some(toNonce));
      var entries: seq<(nat, SignedTx)> := [];
      for i := 0 to |transactions|
        invariant entries == GapEntries(transactions[..i])
      {
        var t := transactions[i];
        assert transactions[..i + 1] == transactions[..i] + [t];
        entries := Assign(entries, t.tx.nonce, t.tx);
      }
      assert transactions[..|transactions|] == transactions;
      return ObjectMap(entries);
    }
  }

  function GapEntries(r: seq<StoredTransaction>): seq<(nat, SignedTx)>
  {
    seq(|r|, i requires 0 <= i < |r| => (r[i].tx.nonce, r[i].tx))
  }
}
