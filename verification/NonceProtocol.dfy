/** Concurrent sends, polls, boosting, mining, pruning and process restarts as one state machine.
    A step runs from one `await` of packages/relay/src/TransactionManager.ts to the next. */
module NonceProtocol {
  import opened Outcomes
  import opened TxStore
  import opened TransactionManager

  /** One call of `sendTransaction`, past its checks of balance and destination. */
  datatype Task =
    | Waiting(d: SendDetails, terms: GasTerms)
    | Holding(d: SendDetails, terms: GasTerms)               // owns the mutex, awaits the transaction count
    | Polled(d: SendDetails, terms: GasTerms, nonce: nat)    // `pollNonce` has answered
    | Claimed(record: StoredTransaction)                     // signed, counter incremented, `putTx` under way
    | Written(record: StoredTransaction)
    | Refused                                                // `putTx` threw
    | Broadcasting(record: StoredTransaction)                // mutex released
    | Finished

  /** The interval handler, one pass at a time. */
  datatype Pass =
    | Idle
    | Counted(signer: Address, count: nat)
    | Boosting(todo: seq<StoredTransaction>)
    | Rebroadcasting(record: StoredTransaction, todo: seq<StoredTransaction>)

  /** `base` is a signer's transaction count before this server first used its key. */
  datatype Chain = Chain(base: map<Address, nat>, mined: map<Address, nat>, accepted: set<NonceSigner>)

  /** What happened: grants and insertions of this process, everything else since the database was created. */
  datatype History = History(
    granted: seq<NonceSigner>, inserted: seq<NonceSigner>,
    written: set<NonceSigner>, pruned: set<NonceSigner>,
    recorded: set<TxId>, broadcast: set<TxId>, missingNonce: bool)

  datatype State = State(
    kind: TransactionType, nonces: Nonces, mutex: Option<nat>, tasks: map<nat, Task>, db: Db,
    pass: Pass, chain: Chain, history: History)

  datatype Event =
    | Request(id: nat, d: SendDetails, terms: GasTerms)
    | Acquire(id: nat)
    | Poll(id: nat, count: nat)
    | Abort(id: nat)
    | Sign(id: nat)
    | Write(id: nat)
    | Release(id: nat)
    | Broadcast(id: nat, accepted: bool)
    | OutsidePoll(signer: Address, count: nat)
    | FillMined(key: NonceSigner, block: ShortBlockInfo)
    | Prune(upToBlock: int, upToTimestamp: int)
    | BoostCount(signer: Address, count: nat)
    | BoostRead(pending: seq<StoredTransaction>)
    | BoostWrite(block: ShortBlockInfo, maxFee: nat, maxPriorityFee: nat)
    | BoostSkip
    | BoostBroadcast(accepted: bool)
    | BoostEnd
    | Mine(signer: Address)
    | Restart

  predicate InSection(t: Task)
  {
    t.Holding? || t.Polled? || t.Claimed? || t.Written? || t.Refused?
  }

  ghost predicate Enabled(s: State, e: Event)
  {
    match e
    case Request(id, d, _) => id !in s.tasks && d.signer in s.nonces
    case Acquire(id) => id in s.tasks && s.tasks[id].Waiting? && s.mutex.None?
    case Poll(id, _) => id in s.tasks && s.tasks[id].Holding?
    case Abort(id) => id in s.tasks && (s.tasks[id].Holding? || s.tasks[id].Polled?)
    case Sign(id) => id in s.tasks && s.tasks[id].Polled?
        && Signable(s.kind, s.tasks[id].terms.maxFee, s.tasks[id].terms.maxPriorityFee)
    case Write(id) => id in s.tasks && s.tasks[id].Claimed?
    case Release(id) => id in s.tasks && (s.tasks[id].Written? || s.tasks[id].Refused?)
    case Broadcast(id, _) => id in s.tasks && s.tasks[id].Broadcasting?
    case OutsidePoll(signer, _) => signer in s.nonces
    case FillMined(key, _) => s.pass.Idle? && key in s.db
    case Prune(_, _) => s.pass.Idle?
    case BoostCount(signer, _) => s.pass.Idle? && signer in s.nonces
    case BoostRead(pending) => s.pass.Counted? && RangeAnswer(s.db, s.pass.signer, s.pass.count, None, pending)
    case BoostWrite(_, maxFee, maxPriorityFee) => s.pass.Boosting? && s.pass.todo != []
        && Signable(s.kind, maxFee, maxPriorityFee)
    case BoostSkip => s.pass.Boosting? && s.pass.todo != []
    case BoostBroadcast(_) => s.pass.Rebroadcasting?
    case BoostEnd => !s.pass.Idle?
    case Mine(signer) => signer in s.nonces && signer in s.chain.mined
    case Restart => true
  }

  ghost predicate SignersKnown(s: State)
  {
    forall id :: id in s.tasks && (s.tasks[id].Waiting? || s.tasks[id].Holding? || s.tasks[id].Polled?) ==>
      s.tasks[id].d.signer in s.nonces
  }

  function Accept(c: Chain, key: NonceSigner, accepted: bool): Chain
  {
    if accepted then c.(accepted := c.accepted + {key}) else c
  }

  // ---------- one function per step ----------

  function DoRequest(s: State, id: nat, d: SendDetails, terms: GasTerms): State
  {
    s.(tasks := s.tasks[id := Waiting(d, terms)])
  }

  function DoAcquire(s: State, id: nat): State
    requires id in s.tasks && s.tasks[id].Waiting?
  {
    s.(mutex := Some(id), tasks := s.tasks[id := Holding(s.tasks[id].d, s.tasks[id].terms)])
  }

  function DoPoll(s: State, id: nat, count: nat): State
    requires id in s.tasks && s.tasks[id].Holding? && s.tasks[id].d.signer in s.nonces
  {
    var t := s.tasks[id];
    var nonces := RaiseNonce(s.nonces, t.d.signer, count);
    s.(nonces := nonces, tasks := s.tasks[id := Polled(t.d, t.terms, nonces[t.d.signer])])
  }

  function DoAbort(s: State, id: nat): State
  {
    s.(mutex := None, tasks := s.tasks[id := Finished])
  }

  /** The nonce signed is the one polled; the counter incremented is the one that stands now. */
  function DoSign(s: State, id: nat): State
    requires id in s.tasks && s.tasks[id].Polled? && s.tasks[id].d.signer in s.nonces
  {
    var t := s.tasks[id];
    var record := FirstRecord(SignSend(s.kind, t.d, t.terms, t.nonce), t.d);
    s.(nonces := s.nonces[t.d.signer := s.nonces[t.d.signer] + 1], tasks := s.tasks[id := Claimed(record)],
       history := s.history.(granted := s.history.granted + [record.Key()]))
  }

  function DoWrite(s: State, id: nat): State
    requires id in s.tasks && s.tasks[id].Claimed?
  {
    var record := s.tasks[id].record;
    match Put(s.db, record, false)
    case Failure(_) => s.(tasks := s.tasks[id := Refused])
    case Success(db) =>
      s.(db := db, tasks := s.tasks[id := Written(record)],
         history := s.history.(inserted := s.history.inserted + [record.Key()],
                               written := s.history.written + {record.Key()},
                               recorded := s.history.recorded + {record.Id()}))
  }

  function DoRelease(s: State, id: nat): State
    requires id in s.tasks && (s.tasks[id].Written? || s.tasks[id].Refused?)
  {
    s.(mutex := None, tasks := s.tasks[id := if s.tasks[id].Written? then Broadcasting(s.tasks[id].record)
        else Finished])
  }

  function DoBroadcast(s: State, id: nat, accepted: bool): State
    requires id in s.tasks && s.tasks[id].Broadcasting?
  {
    var record := s.tasks[id].record;
    s.(tasks := s.tasks[id := Finished], chain := Accept(s.chain, record.Key(), accepted),
       history := s.history.(broadcast := s.history.broadcast + {record.Id()}))
  }

  function DoFillMined(s: State, key: NonceSigner, block: ShortBlockInfo): State
    requires key in s.db
  {
    s.(db := s.db[key := s.db[key].(minedBlock := Some(block))])
  }

  function DoPrune(s: State, upToBlock: int, upToTimestamp: int): State
  {
    var db := RemoveArchived(s.db, upToBlock, upToTimestamp);
    s.(db := db, history := s.history.(pruned := s.history.pruned + (s.db.Keys - db.Keys)))
  }

  function DoBoostRead(s: State, pending: seq<StoredTransaction>): State
    requires s.pass.Counted?
  {
    if pending == [] then s.(pass := Idle)
    else if pending[0].tx.nonce != s.pass.count then s.(pass := Idle, history := s.history.(missingNonce := true))
    else s.(pass := Boosting(pending))
  }

  function DoBoostWrite(s: State, block: ShortBlockInfo, maxFee: nat, maxPriorityFee: nat): State
    requires s.pass.Boosting? && s.pass.todo != []
  {
    var record := ResentRecord(s.kind, s.pass.todo[0], block, maxFee, maxPriorityFee);
    s.(db := s.db[record.Key() := record], pass := Rebroadcasting(record, s.pass.todo[1..]),
       history := s.history.(written := s.history.written + {record.Key()},
           recorded := s.history.recorded + {record.Id()}))
  }

  function DoBoostBroadcast(s: State, accepted: bool): State
    requires s.pass.Rebroadcasting?
  {
    s.(pass := Boosting(s.pass.todo), chain := Accept(s.chain, s.pass.record.Key(), accepted),
       history := s.history.(broadcast := s.history.broadcast + {s.pass.record.Id()}))
  }

  function DoOutsidePoll(s: State, signer: Address, count: nat): State
    requires signer in s.nonces
  {
    s.(nonces := RaiseNonce(s.nonces, signer, count))
  }

  function DoMine(s: State, signer: Address): State
    requires signer in s.chain.mined
  {
    s.(chain := s.chain.(mined := s.chain.mined[signer := s.chain.mined[signer] + 1]))
  }

  /** Counters, mutex and every task are lost; the database and the chain remain. */
  function DoRestart(s: State): State
  {
    s.(nonces := map a | a in s.nonces :: 0, mutex := None, tasks := map[], pass := Idle,
       history := s.history.(granted := [], inserted := []))
  }

  ghost function Apply(s: State, e: Event): State
    requires Enabled(s, e) && SignersKnown(s)
  {
    match e
    case Request(id, d, terms) => DoRequest(s, id, d, terms)
    case Acquire(id) => DoAcquire(s, id)
    case Poll(id, count) => DoPoll(s, id, count)
    case Abort(id) => DoAbort(s, id)
    case Sign(id) => DoSign(s, id)
    case Write(id) => DoWrite(s, id)
    case Release(id) => DoRelease(s, id)
    case Broadcast(id, accepted) => DoBroadcast(s, id, accepted)
    case OutsidePoll(signer, count) => DoOutsidePoll(s, signer, count)
    case FillMined(key, block) => DoFillMined(s, key, block)
    case Prune(upToBlock, upToTimestamp) => DoPrune(s, upToBlock, upToTimestamp)
    case BoostCount(signer, count) => s.(pass := Counted(signer, count))
    case BoostRead(pending) => DoBoostRead(s, pending)
    case BoostWrite(block, maxFee, maxPriorityFee) => DoBoostWrite(s, block, maxFee, maxPriorityFee)
    case BoostSkip => s.(pass := Boosting(s.pass.todo[1..]))
    case BoostBroadcast(accepted) => DoBoostBroadcast(s, accepted)
    case BoostEnd => s.(pass := Idle)
    case Mine(signer) => DoMine(s, signer)
    case Restart => DoRestart(s)
  }

  // ---------- safety against any node and any other user of the keys ----------

  ghost predicate RisingPerSigner(keys: seq<NonceSigner>)
  {
    forall i, j :: 0 <= i < j < |keys| && keys[i].signer == keys[j].signer ==> keys[i].nonce < keys[j].nonce
  }

  /** Every listed nonce of the signer is below the bound. */
  ghost predicate Below(keys: seq<NonceSigner>, signer: Address, bound: nat)
  {
    forall i :: 0 <= i < |keys| && keys[i].signer == signer ==> keys[i].nonce < bound
  }

  ghost predicate TaskInv(s: State, id: nat)
    requires id in s.tasks
  {
    && (InSection(s.tasks[id]) <==> s.mutex == Some(id))
    && match s.tasks[id]
       case Waiting(d, _) => d.signer in s.nonces
       case Holding(d, _) => d.signer in s.nonces
       case Polled(d, _, nonce) => d.signer in s.nonces && nonce <= s.nonces[d.signer]
           && Below(s.history.granted, d.signer, nonce)
       case Claimed(record) =>
         && record.tx.from in s.nonces && record.attempts == 1 && record.minedBlock.None?
         && record.Key() in s.history.granted && Below(s.history.inserted, record.tx.from, record.tx.nonce)
         && record.tx.nonce < s.nonces[record.tx.from]
       case Written(record) =>
         record.tx.from in s.nonces && record.Id() in s.history.recorded && record.Key() in s.history.inserted
       case Refused => true
       case Broadcasting(record) =>
         record.tx.from in s.nonces && record.Id() in s.history.recorded && record.Key() in s.history.inserted
       case Finished => true
  }

  ghost predicate SafeInv(s: State)
    ensures SafeInv(s) ==> SignersKnown(s)
  {
    && ValidDb(s.db)
    && (forall id :: id in s.tasks ==> TaskInv(s, id))
    && (s.mutex.Some? ==> s.mutex.value in s.tasks)
    && RisingPerSigner(s.history.granted) && RisingPerSigner(s.history.inserted)
    && (forall k :: k in s.history.granted ==> k.signer in s.nonces)
    && (forall a :: a in s.nonces ==> Below(s.history.granted, a, s.nonces[a]))
    && (forall k :: k in s.history.inserted ==> k in s.history.granted)
    && (s.pass.Rebroadcasting? ==> s.pass.record.Id() in s.history.recorded)
    && s.history.broadcast <= s.history.recorded
  }

  lemma RisingAppend(keys: seq<NonceSigner>, k: NonceSigner)
    requires RisingPerSigner(keys) && Below(keys, k.signer, k.nonce)
    ensures RisingPerSigner(keys + [k])
    ensures forall x :: x in keys + [k] <==> x in keys || x == k
    ensures forall a, b :: Below(keys, a, b) && (a == k.signer ==> k.nonce < b) ==> Below(keys + [k], a, b)
  {
  }

  lemma EnterIsSafe(s: State, id: nat, d: SendDetails, terms: GasTerms)
    requires SafeInv(s) && d.signer in s.nonces
    ensures id !in s.tasks ==> SafeInv(DoRequest(s, id, d, terms))
    ensures id in s.tasks && s.tasks[id].Waiting? && s.mutex.None? ==> SafeInv(DoAcquire(s, id))
  {
  }

  lemma PollIsSafe(s: State, id: nat, count: nat)
    requires SafeInv(s) && id in s.tasks && s.tasks[id].Holding?
    ensures SafeInv(DoPoll(s, id, count))
  {
  }

  lemma SignIsSafe(s: State, id: nat)
    requires SafeInv(s) && id in s.tasks && s.tasks[id].Polled?
    ensures SafeInv(DoSign(s, id))
  {
    var t := s.tasks[id];
    assert TaskInv(s, id);
    var k := NonceSigner(t.nonce, t.d.signer);
    RisingAppend(s.history.granted, k);
    var s' := DoSign(s, id);
    forall i | 0 <= i < |s.history.inserted| && s.history.inserted[i].signer == k.signer
      ensures s.history.inserted[i].nonce < k.nonce
    {
      assert s.history.inserted[i] in s.history.inserted;
      var g :| 0 <= g < |s.history.granted| && s.history.granted[g] == s.history.inserted[i];
    }
    forall other | other in s'.tasks ensures TaskInv(s', other) {
      if other != id { assert TaskInv(s, other); }
    }
  }

  lemma WriteIsSafe(s: State, id: nat)
    requires SafeInv(s) && id in s.tasks && s.tasks[id].Claimed?
    ensures SafeInv(DoWrite(s, id))
  {
    assert TaskInv(s, id);
    RisingAppend(s.history.inserted, s.tasks[id].record.Key());
    var s' := DoWrite(s, id);
    forall other | other in s'.tasks ensures TaskInv(s', other) {
      if other != id { assert TaskInv(s, other); }
    }
  }

  lemma LeaveIsSafe(s: State, id: nat, accepted: bool)
    requires SafeInv(s) && id in s.tasks
    ensures s.tasks[id].Holding? || s.tasks[id].Polled? ==> SafeInv(DoAbort(s, id))
    ensures s.tasks[id].Written? || s.tasks[id].Refused? ==> SafeInv(DoRelease(s, id))
    ensures s.tasks[id].Broadcasting? ==> SafeInv(DoBroadcast(s, id, accepted))
  {
    assert TaskInv(s, id);
  }

  lemma OutsidePollIsSafe(s: State, signer: Address, count: nat)
    requires SafeInv(s) && signer in s.nonces
    ensures SafeInv(DoOutsidePoll(s, signer, count))
  {
    var s' := DoOutsidePoll(s, signer, count);
    forall id | id in s'.tasks ensures TaskInv(s', id) {
      assert TaskInv(s, id);
    }
  }

  /** Steps that leave counters, tasks and grants alone. */
  lemma FrameIsSafe(s: State, s': State)
    requires SafeInv(s) && ValidDb(s'.db)
    requires s'.nonces == s.nonces && s'.tasks == s.tasks && s'.mutex == s.mutex
    requires s'.history.granted == s.history.granted && s'.history.inserted == s.history.inserted
    requires s.history.recorded <= s'.history.recorded && s'.history.broadcast <= s'.history.recorded
    requires s'.pass.Rebroadcasting? ==> s'.pass.record.Id() in s'.history.recorded
    ensures SafeInv(s')
  {
    forall id | id in s'.tasks ensures TaskInv(s', id) {
      assert TaskInv(s, id);
    }
  }

  predicate OfTask(e: Event)
  {
    e.Request? || e.Acquire? || e.Poll? || e.Abort? || e.Sign? || e.Write? || e.Release? || e.Broadcast?
        || e.OutsidePoll?
  }

  lemma TaskStepIsSafe(s: State, e: Event)
    requires SafeInv(s) && Enabled(s, e) && OfTask(e)
    ensures SafeInv(Apply(s, e))
  {
    match e
    case Request(id, d, terms) => EnterIsSafe(s, id, d, terms);
    case Acquire(id) => assert TaskInv(s, id); EnterIsSafe(s, id, s.tasks[id].d, s.tasks[id].terms);
    case Poll(id, count) => PollIsSafe(s, id, count);
    case Sign(id) => SignIsSafe(s, id);
    case Write(id) => WriteIsSafe(s, id);
    case Abort(id) => LeaveIsSafe(s, id, true);
    case Release(id) => LeaveIsSafe(s, id, true);
    case Broadcast(id, accepted) => LeaveIsSafe(s, id, accepted);
    case OutsidePoll(signer, count) => OutsidePollIsSafe(s, signer, count);
  }

  lemma StoreStepIsSafe(s: State, e: Event)
    requires SafeInv(s) && Enabled(s, e) && (e.FillMined? || e.Prune? || e.BoostWrite? || e.Mine?)
    ensures SafeInv(Apply(s, e))
  {
    match e
    case FillMined(key, block) => FrameIsSafe(s, DoFillMined(s, key, block));
    case Prune(upToBlock, upToTimestamp) => FrameIsSafe(s, DoPrune(s, upToBlock, upToTimestamp));
    case BoostWrite(block, maxFee, maxPriorityFee) => FrameIsSafe(s, DoBoostWrite(s, block, maxFee, maxPriorityFee));
    case Mine(signer) => FrameIsSafe(s, DoMine(s, signer));
  }

  /** Steps of a pass that touch nothing but the pass. */
  lemma PassFrameIsSafe(s: State, s': State)
    requires SafeInv(s) && !s'.pass.Rebroadcasting?
    requires s' == s.(pass := s'.pass, history := s.history.(missingNonce := s'.history.missingNonce))
    ensures SafeInv(s')
  {
    FrameIsSafe(s, s');
  }

  lemma BoostBroadcastIsSafe(s: State, accepted: bool)
    requires SafeInv(s) && s.pass.Rebroadcasting?
    ensures SafeInv(DoBoostBroadcast(s, accepted))
  {
    FrameIsSafe(s, DoBoostBroadcast(s, accepted));
  }

  lemma BoostStepIsSafe(s: State, e: Event)
    requires SafeInv(s) && Enabled(s, e) && (e.BoostCount? || e.BoostRead? || e.BoostSkip? || e.BoostBroadcast?
               || e.BoostEnd?)
    ensures SafeInv(Apply(s, e))
  {
    if e.BoostBroadcast? { BoostBroadcastIsSafe(s, e.accepted); } else { PassFrameIsSafe(s, Apply(s, e)); }
  }

  lemma RestartIsSafe(s: State)
    requires SafeInv(s)
    ensures SafeInv(DoRestart(s))
  {
  }

  lemma StepIsSafe(s: State, e: Event)
    requires SafeInv(s) && Enabled(s, e)
    ensures SafeInv(Apply(s, e))
  {
    if OfTask(e) { TaskStepIsSafe(s, e); }
    else if e.Restart? { RestartIsSafe(s); }
    else if e.FillMined? || e.Prune? || e.BoostWrite? || e.Mine? { StoreStepIsSafe(s, e); }
    else { BoostStepIsSafe(s, e); }
  }

  // ---------- coverage when only this server signs ----------

  /** An honest node's pending count, however late it arrives: no further than the accepted nonces reach. */
  ghost predicate PendingAnswer(c: Chain, signer: Address, count: nat)
  {
    && signer in c.base && c.base[signer] <= count
    && forall n: nat :: c.base[signer] <= n < count ==> NonceSigner(n, signer) in c.accepted
  }

  /** No other signer, no reorganisation, an honest node. */
  ghost predicate Honest(s: State, e: Event)
    requires Enabled(s, e)
  {
    match e
    case Poll(id, count) => PendingAnswer(s.chain, s.tasks[id].d.signer, count)
    case OutsidePoll(signer, count) => PendingAnswer(s.chain, signer, count)
    case BoostCount(signer, count) => signer in s.chain.mined && count == s.chain.mined[signer]
    case FillMined(key, _) => key.signer in s.chain.mined && key.nonce < s.chain.mined[key.signer]
    case Mine(signer) => NonceSigner(s.chain.mined[signer], signer) in s.chain.accepted
    case _ => true
  }

  /** A send signs the nonce its counter stands at, or the counter was raised since its poll only to a nonce that was
      written before. */
  ghost predicate Undisturbing(s: State, e: Event)
  {
    e.Sign? && e.id in s.tasks && s.tasks[e.id].Polled? && s.tasks[e.id].d.signer in s.nonces ==>
      var signer := s.tasks[e.id].d.signer;
      s.tasks[e.id].nonce == s.nonces[signer] || NonceSigner(s.nonces[signer], signer) in s.history.written
  }

  /** For each signer, one past the highest nonce ever written. */
  type Tops = map<Address, nat>

  /** The nonce a send has taken but not yet stored. */
  ghost predicate InFlight(s: State, k: NonceSigner)
  {
    s.mutex.Some? && s.mutex.value in s.tasks && s.tasks[s.mutex.value].Claimed?
        && s.tasks[s.mutex.value].record.Key() == k
  }

  ghost predicate ChainCover(s: State, top: Tops)
  {
    && (forall a :: a in top <==> a in s.nonces)
    && (forall a :: a in top <==> a in s.chain.base)
    && (forall a :: a in top <==> a in s.chain.mined)
    && (forall a :: a in top ==> s.chain.base[a] <= s.chain.mined[a] <= top[a])
    && (forall k :: k in s.chain.accepted && k.signer in top ==> k.nonce < top[k.signer])
  }

  /** The written nonces of a signer are exactly those from its base to its top: no hole was ever left behind. */
  ghost predicate StoreCover(s: State, top: Tops)
    requires ChainCover(s, top)
  {
    && (forall k :: k in s.history.written <==> k.signer in top && s.chain.base[k.signer] <= k.nonce < top[k.signer])
    && (forall k :: k in s.history.written <==> k in s.db || k in s.history.pruned)
    && (forall k :: k in s.history.pruned ==> k.nonce < s.chain.mined[k.signer])
    && (forall k :: k in s.db && s.db[k].minedBlock.Some? ==> k.nonce < s.chain.mined[k.signer])
  }

  ghost predicate TaskCover(s: State, top: Tops, t: Task)
    requires ChainCover(s, top)
  {
    match t
    case Polled(d, _, nonce) => d.signer in top && s.chain.base[d.signer] <= nonce <= s.nonces[d.signer]
    case Claimed(record) => record.tx.from in top
        && s.chain.base[record.tx.from] <= record.tx.nonce <= top[record.tx.from]
    case Written(record) => record.Key() in s.history.written
    case Broadcasting(record) => record.Key() in s.history.written
    case _ => true
  }

  ghost predicate CounterCover(s: State, top: Tops)
    requires ChainCover(s, top)
  {
    && (forall a :: a in top ==>
        s.nonces[a] <= top[a] || (s.nonces[a] == top[a] + 1 && InFlight(s, NonceSigner(top[a], a))))
    && (forall id :: id in s.tasks ==> TaskCover(s, top, s.tasks[id]))
  }

  ghost predicate TodoCover(s: State, todo: seq<StoredTransaction>)
    requires forall a :: a in s.nonces ==> a in s.chain.mined
  {
    forall t :: t in todo ==>
        t.Key() in s.db && t.tx.from in s.nonces && (t.minedBlock.Some? ==> t.tx.nonce < s.chain.mined[t.tx.from])
  }

  ghost predicate PassCover(s: State, top: Tops)
    requires ChainCover(s, top)
  {
    && !s.history.missingNonce
    && match s.pass
       case Idle => true
       case Counted(signer, count) =>
         && signer in top && s.chain.base[signer] <= count <= s.chain.mined[signer]
         && forall k :: k in s.history.pruned && k.signer == signer ==> k.nonce < count
       case Boosting(todo) => TodoCover(s, todo)
       case Rebroadcasting(record, todo) => record.Key() in s.history.written && TodoCover(s, todo)
  }

  ghost predicate CoverInv(s: State, top: Tops)
  {
    ChainCover(s, top) && StoreCover(s, top) && CounterCover(s, top) && PassCover(s, top)
  }

  /** An honest pending answer reaches no further than what was written. */
  lemma PendingIsWritten(s: State, top: Tops, signer: Address, count: nat)
    requires ChainCover(s, top) && signer in top && PendingAnswer(s.chain, signer, count)
    ensures s.chain.base[signer] <= count <= top[signer]
  {
    if count > s.chain.base[signer] {
      assert NonceSigner(count - 1, signer) in s.chain.accepted;
    }
  }

  lemma OnlyOneInSection(s: State, id: nat, other: nat)
    requires SafeInv(s) && id in s.tasks && InSection(s.tasks[id]) && other in s.tasks && other != id
    ensures s.mutex == Some(id) && !InSection(s.tasks[other])
  {
    assert TaskInv(s, id) && TaskInv(s, other);
  }

  lemma PollCovers(s: State, top: Tops, id: nat, count: nat)
    requires SafeInv(s) && CoverInv(s, top) && id in s.tasks && s.tasks[id].Holding?
    requires PendingAnswer(s.chain, s.tasks[id].d.signer, count)
    ensures CoverInv(DoPoll(s, id, count), top)
  {
    assert TaskInv(s, id);
    PendingIsWritten(s, top, s.tasks[id].d.signer, count);
    var s' := DoPoll(s, id, count);
    forall other | other in s'.tasks ensures TaskCover(s', top, s'.tasks[other]) {
      if other != id { OnlyOneInSection(s, id, other); assert TaskCover(s, top, s.tasks[other]); }
    }
    forall a | a in top ensures s'.nonces[a] <= top[a] {
      assert !InFlight(s, NonceSigner(top[a], a));
    }
  }

  lemma OutsidePollCovers(s: State, top: Tops, signer: Address, count: nat)
    requires SafeInv(s) && CoverInv(s, top) && signer in s.nonces && PendingAnswer(s.chain, signer, count)
    ensures CoverInv(DoOutsidePoll(s, signer, count), top)
  {
    PendingIsWritten(s, top, signer, count);
    var s' := DoOutsidePoll(s, signer, count);
    forall id | id in s'.tasks ensures TaskCover(s', top, s'.tasks[id]) {
      assert TaskCover(s, top, s.tasks[id]);
    }
    forall a | a in top && s'.nonces[a] > top[a]
        ensures s'.nonces[a] == top[a] + 1 && InFlight(s', NonceSigner(top[a], a))
    {
      assert InFlight(s, NonceSigner(top[a], a));
    }
  }

  lemma RequestCovers(s: State, top: Tops, id: nat, d: SendDetails, terms: GasTerms)
    requires SafeInv(s) && CoverInv(s, top) && id !in s.tasks
    ensures CoverInv(DoRequest(s, id, d, terms), top)
  {
    var s' := DoRequest(s, id, d, terms);
    forall other | other in s'.tasks ensures TaskCover(s', top, s'.tasks[other]) {
      if other != id { assert TaskCover(s, top, s.tasks[other]); }
    }
    forall a | a in top && s'.nonces[a] > top[a] ensures InFlight(s', NonceSigner(top[a], a)) {
      assert InFlight(s, NonceSigner(top[a], a));
    }
  }

  /** Steps of one task that change neither counters nor store, and leave no claim behind. */
  lemma TaskFrameCovers(s: State, s': State, top: Tops, id: nat)
    requires SafeInv(s) && CoverInv(s, top) && id in s.tasks && !s.tasks[id].Claimed?
    requires s.mutex.None? || s.mutex == Some(id)
    requires id in s'.tasks && s' == s.(mutex := s'.mutex, tasks := s.tasks[id := s'.tasks[id]])
    requires TaskCover(s', top, s'.tasks[id])
    ensures CoverInv(s', top)
  {
    forall other | other in s'.tasks ensures TaskCover(s', top, s'.tasks[other]) {
      if other != id { assert TaskCover(s, top, s.tasks[other]); }
    }
    forall a | a in top ensures s'.nonces[a] <= top[a] {
      assert !InFlight(s, NonceSigner(top[a], a));
    }
  }

  lemma AcquireCovers(s: State, top: Tops, id: nat)
    requires SafeInv(s) && CoverInv(s, top) && id in s.tasks && s.tasks[id].Waiting? && s.mutex.None?
    ensures CoverInv(DoAcquire(s, id), top)
  {
    TaskFrameCovers(s, DoAcquire(s, id), top, id);
  }

  lemma AbortCovers(s: State, top: Tops, id: nat)
    requires SafeInv(s) && CoverInv(s, top) && id in s.tasks && (s.tasks[id].Holding? || s.tasks[id].Polled?)
    ensures CoverInv(DoAbort(s, id), top)
  {
    assert TaskInv(s, id);
    TaskFrameCovers(s, DoAbort(s, id), top, id);
  }

  lemma ReleaseCovers(s: State, top: Tops, id: nat)
    requires SafeInv(s) && CoverInv(s, top) && id in s.tasks && (s.tasks[id].Written? || s.tasks[id].Refused?)
    ensures CoverInv(DoRelease(s, id), top)
  {
    assert TaskInv(s, id) && TaskCover(s, top, s.tasks[id]);
    TaskFrameCovers(s, DoRelease(s, id), top, id);
  }

  /** A signature of the nonce its counter stands at, or of an older one while the counter stands at a written nonce. */
  lemma SignCoversCounters(s: State, top: Tops, id: nat)
    requires SafeInv(s) && CoverInv(s, top) && id in s.tasks && s.tasks[id].Polled? && Undisturbing(s, Sign(id))
    requires ChainCover(DoSign(s, id), top)
    ensures CounterCover(DoSign(s, id), top)
  {
    var s', signer := DoSign(s, id), s.tasks[id].d.signer;
    assert TaskInv(s, id) && TaskCover(s, top, s.tasks[id]);
    forall other | other in s'.tasks ensures TaskCover(s', top, s'.tasks[other]) {
      if other != id { OnlyOneInSection(s, id, other); assert TaskCover(s, top, s.tasks[other]); }
    }
    forall a | a in top ensures s.nonces[a] <= top[a] {
      assert !InFlight(s, NonceSigner(top[a], a));
    }
    assert s'.nonces[signer] > top[signer] ==> InFlight(s', NonceSigner(top[signer], signer));
  }

  lemma SignCovers(s: State, top: Tops, id: nat)
    requires SafeInv(s) && CoverInv(s, top) && id in s.tasks && s.tasks[id].Polled? && Undisturbing(s, Sign(id))
    ensures CoverInv(DoSign(s, id), top)
  {
    assert ChainCover(DoSign(s, id), top);
    SignCoversCounters(s, top, id);
  }

  function Raised(top: Tops, k: NonceSigner): Tops
    requires k.signer in top
  {
    if k.nonce >= top[k.signer] then top[k.signer := k.nonce + 1] else top
  }

  /** A refused write took a nonce that was already in the store. */
  lemma RefusedWriteCovers(s: State, top: Tops, id: nat)
    requires SafeInv(s) && CoverInv(s, top) && id in s.tasks && s.tasks[id].Claimed? && s.tasks[id].record.Key() in s.db
    ensures s.tasks[id].record.tx.from in top
    ensures Raised(top, s.tasks[id].record.Key()) == top && CoverInv(DoWrite(s, id), top)
  {
    var k := s.tasks[id].record.Key();
    var s' := DoWrite(s, id);
    assert TaskInv(s, id) && TaskCover(s, top, s.tasks[id]);
    assert k in s.history.written;
    forall other | other in s'.tasks ensures TaskCover(s', top, s'.tasks[other]) {
      if other != id { assert TaskCover(s, top, s.tasks[other]); }
    }
    forall a | a in top ensures s'.nonces[a] <= top[a] {
      assert !InFlight(s, NonceSigner(top[a], a));
    }
  }

  lemma NewRecordCoversChain(s: State, s': State, top: Tops, k: NonceSigner)
    requires ChainCover(s, top) && PassCover(s, top) && k.signer in top
    requires s'.chain == s.chain && s'.nonces.Keys == s.nonces.Keys && s'.pass == s.pass
    requires s.db.Keys <= s'.db.Keys && s.history.written <= s'.history.written
    requires s'.history.pruned == s.history.pruned && s'.history.missingNonce == s.history.missingNonce
    ensures ChainCover(s', Raised(top, k)) && PassCover(s', Raised(top, k))
  {
  }

  /** A new record extends the written range without leaving a hole. */
  lemma NewRecordCoversStore(s: State, s': State, top: Tops, record: StoredTransaction)
    requires ChainCover(s, top) && StoreCover(s, top) && record.tx.from in top
    requires s.chain.base[record.tx.from] <= record.tx.nonce <= top[record.tx.from]
    requires record.minedBlock.None? && record.Key() !in s.db && s'.chain == s.chain
    requires s'.db == s.db[record.Key() := record] && s'.history.written == s.history.written + {record.Key()}
    requires s'.history.pruned == s.history.pruned && ChainCover(s', Raised(top, record.Key()))
    ensures StoreCover(s', Raised(top, record.Key()))
  {
    var key := record.Key();
    var top' := Raised(top, key);
    forall k ensures k in s'.history.written <==>
        k.signer in top' && s'.chain.base[k.signer] <= k.nonce < top'[k.signer]
    {
      assert k in s'.history.written <==> k in s.history.written || k == key;
    }
    forall k ensures k in s'.history.written <==> k in s'.db || k in s'.history.pruned {
      assert k in s'.db <==> k in s.db || k == key;
    }
  }

  lemma WriteCovers(s: State, top: Tops, id: nat)
    requires SafeInv(s) && CoverInv(s, top) && id in s.tasks && s.tasks[id].Claimed?
               && s.tasks[id].record.Key() !in s.db
    ensures s.tasks[id].record.tx.from in top
    ensures CoverInv(DoWrite(s, id), Raised(top, s.tasks[id].record.Key()))
  {
    var record := s.tasks[id].record;
    var k := record.Key();
    var s' := DoWrite(s, id);
    assert TaskInv(s, id) && TaskCover(s, top, s.tasks[id]);
    NewRecordCoversChain(s, s', top, k);
    NewRecordCoversStore(s, s', top, record);
    WriteCoversCounters(s, top, id);
  }

  lemma WriteCoversCounters(s: State, top: Tops, id: nat)
    requires SafeInv(s) && ChainCover(s, top) && CounterCover(s, top)
    requires id in s.tasks && s.tasks[id].Claimed? && s.tasks[id].record.Key() !in s.db
               && s.tasks[id].record.tx.from in top
    requires ChainCover(DoWrite(s, id), Raised(top, s.tasks[id].record.Key()))
    ensures CounterCover(DoWrite(s, id), Raised(top, s.tasks[id].record.Key()))
  {
    var k := s.tasks[id].record.Key();
    var s', top' := DoWrite(s, id), Raised(top, k);
    assert TaskInv(s, id);
    forall other | other in s'.tasks ensures TaskCover(s', top', s'.tasks[other]) {
      if other != id {
        OnlyOneInSection(s, id, other);
        assert TaskCover(s, top, s.tasks[other]);
      }
    }
    forall a | a in top' ensures s'.nonces[a] <= top'[a] {
      if s.nonces[a] > top[a] { assert InFlight(s, NonceSigner(top[a], a)); }
    }
  }

  /** Steps that leave counters and tasks alone. */
  lemma CounterFrame(s: State, s': State, top: Tops)
    requires ChainCover(s, top) && CounterCover(s, top) && ChainCover(s', top)
    requires s'.nonces == s.nonces && s'.tasks == s.tasks && s'.mutex == s.mutex && s'.chain.base == s.chain.base
    requires s.history.written <= s'.history.written
    ensures CounterCover(s', top)
  {
    forall id | id in s'.tasks ensures TaskCover(s', top, s'.tasks[id]) {
      assert TaskCover(s, top, s.tasks[id]);
    }
    forall a | a in top && s'.nonces[a] > top[a] ensures InFlight(s', NonceSigner(top[a], a)) {
      assert InFlight(s, NonceSigner(top[a], a));
    }
  }

  /** Steps that leave pass and store alone. */
  lemma PassFrame(s: State, s': State, top: Tops)
    requires ChainCover(s, top) && PassCover(s, top) && ChainCover(s', top)
    requires s'.pass == s.pass && s'.db == s.db && s'.chain.base == s.chain.base
    requires forall a :: a in top ==> s.chain.mined[a] <= s'.chain.mined[a]
    requires s'.history.written == s.history.written && s'.history.pruned == s.history.pruned
    requires s'.history.missingNonce == s.history.missingNonce
    ensures PassCover(s', top)
  {
  }

  /** The node accepts a record that was written, or refuses it. */
  lemma AcceptCovers(s: State, s': State, top: Tops, key: NonceSigner, accepted: bool)
    requires ChainCover(s, top) && StoreCover(s, top) && key in s.history.written
    requires s'.chain == Accept(s.chain, key, accepted) && s'.nonces == s.nonces && s'.db == s.db
    requires s'.history.written == s.history.written && s'.history.pruned == s.history.pruned
    ensures ChainCover(s', top) && StoreCover(s', top)
  {
  }

  lemma FinishCovers(s: State, s': State, top: Tops, id: nat)
    requires SafeInv(s) && ChainCover(s, top) && CounterCover(s, top) && id in s.tasks && s.tasks[id].Broadcasting?
    requires ChainCover(s', top) && s'.chain.base == s.chain.base && s'.nonces == s.nonces && s'.mutex == s.mutex
    requires s'.tasks == s.tasks[id := Finished] && s'.history.written == s.history.written
    ensures CounterCover(s', top)
  {
    assert TaskInv(s, id);
    forall other | other in s'.tasks ensures TaskCover(s', top, s'.tasks[other]) {
      assert TaskCover(s, top, s.tasks[other]);
    }
    forall a | a in top && s'.nonces[a] > top[a] ensures InFlight(s', NonceSigner(top[a], a)) {
      assert InFlight(s, NonceSigner(top[a], a));
    }
  }

  lemma BroadcastCovers(s: State, top: Tops, id: nat, accepted: bool)
    requires SafeInv(s) && CoverInv(s, top) && id in s.tasks && s.tasks[id].Broadcasting?
    ensures CoverInv(DoBroadcast(s, id, accepted), top)
  {
    var s' := DoBroadcast(s, id, accepted);
    assert TaskCover(s, top, s.tasks[id]);
    AcceptCovers(s, s', top, s.tasks[id].record.Key(), accepted);
    FinishCovers(s, s', top, id);
    PassFrame(s, s', top);
  }

  lemma FillMinedCoversStore(s: State, top: Tops, key: NonceSigner, block: ShortBlockInfo)
    requires ChainCover(s, top) && StoreCover(s, top) && key in s.db
    requires key.signer in s.chain.mined && key.nonce < s.chain.mined[key.signer]
    ensures ChainCover(DoFillMined(s, key, block), top) && StoreCover(DoFillMined(s, key, block), top)
  {
    assert DoFillMined(s, key, block).db.Keys == s.db.Keys;
  }

  lemma FillMinedCovers(s: State, top: Tops, key: NonceSigner, block: ShortBlockInfo)
    requires SafeInv(s) && CoverInv(s, top) && key in s.db && s.pass.Idle?
    requires key.signer in s.chain.mined && key.nonce < s.chain.mined[key.signer]
    ensures CoverInv(DoFillMined(s, key, block), top)
  {
    FillMinedCoversStore(s, top, key, block);
    CounterFrame(s, DoFillMined(s, key, block), top);
  }

  lemma PruneCovers(s: State, top: Tops, upToBlock: int, upToTimestamp: int)
    requires SafeInv(s) && CoverInv(s, top) && s.pass.Idle?
    ensures CoverInv(DoPrune(s, upToBlock, upToTimestamp), top)
  {
    var s' := DoPrune(s, upToBlock, upToTimestamp);
    CounterFrame(s, s', top);
    forall k | k in s'.history.pruned ensures k in s.history.written && k.nonce < s.chain.mined[k.signer] {
      if k in s.db { PruningKeepsUnmined(s.db, upToBlock, upToTimestamp, k); }
    }
  }

  lemma MineCoversChain(s: State, top: Tops, signer: Address)
    requires ChainCover(s, top) && StoreCover(s, top) && signer in s.chain.mined
    requires NonceSigner(s.chain.mined[signer], signer) in s.chain.accepted
    ensures ChainCover(DoMine(s, signer), top) && StoreCover(DoMine(s, signer), top)
  {
  }

  lemma MineCovers(s: State, top: Tops, signer: Address)
    requires SafeInv(s) && CoverInv(s, top) && signer in s.chain.mined
    requires NonceSigner(s.chain.mined[signer], signer) in s.chain.accepted
    ensures CoverInv(DoMine(s, signer), top)
  {
    MineCoversChain(s, top, signer);
    CounterFrame(s, DoMine(s, signer), top);
    PassFrame(s, DoMine(s, signer), top);
  }

  lemma BoostCountCovers(s: State, top: Tops, signer: Address)
    requires SafeInv(s) && CoverInv(s, top) && signer in s.chain.mined
    ensures CoverInv(s.(pass := Counted(signer, s.chain.mined[signer])), top)
  {
    CounterFrame(s, s.(pass := Counted(signer, s.chain.mined[signer])), top);
    forall k | k in s.history.pruned ensures k in s.history.written { }
  }

  /** The boosting query finds nothing, or finds the mined count's own nonce first. */
  lemma BoostReadFindsTheOldest(s: State, top: Tops, pending: seq<StoredTransaction>)
    requires SafeInv(s) && CoverInv(s, top) && pending != []
    requires s.pass.Counted? && RangeAnswer(s.db, s.pass.signer, s.pass.count, None, pending)
    ensures pending[0].tx.nonce == s.pass.count
  {
    var signer, count := s.pass.signer, s.pass.count;
    assert pending[0] in pending;
    var k := pending[0].Key();
    assert InRange(k, signer, count, None) && k in s.history.written;
    var oldest := NonceSigner(count, signer);
    assert oldest in s.history.written && oldest in s.db;
    assert InRange(oldest, signer, count, None) && s.db[oldest] in pending;
  }

  lemma BoostReadCovers(s: State, top: Tops, pending: seq<StoredTransaction>)
    requires SafeInv(s) && CoverInv(s, top) && s.pass.Counted?
               && RangeAnswer(s.db, s.pass.signer, s.pass.count, None, pending)
    ensures CoverInv(DoBoostRead(s, pending), top)
  {
    if pending != [] { BoostReadFindsTheOldest(s, top, pending); }
    forall t | t in pending ensures t.Key() in s.db && t.tx.from in s.nonces
        && (t.minedBlock.Some? ==> t.tx.nonce < s.chain.mined[t.tx.from])
    {
      assert s.db[t.Key()] == t && t.Key() in s.history.written;
    }
    CounterFrame(s, DoBoostRead(s, pending), top);
  }

  lemma BoostWriteCovers(s: State, top: Tops, block: ShortBlockInfo, maxFee: nat, maxPriorityFee: nat)
    requires SafeInv(s) && CoverInv(s, top) && s.pass.Boosting? && s.pass.todo != []
    ensures CoverInv(DoBoostWrite(s, block, maxFee, maxPriorityFee), top)
  {
    var s' := DoBoostWrite(s, block, maxFee, maxPriorityFee);
    var t := s.pass.todo[0];
    assert t in s.pass.todo && t.Key() in s.db && t.Key() in s.history.written;
    assert s'.history.written == s.history.written;
    CounterFrame(s, s', top);
    assert StoreCover(s', top);
    forall u | u in s'.pass.todo ensures u in s.pass.todo { }
  }

  lemma BoostBroadcastCovers(s: State, top: Tops, accepted: bool)
    requires SafeInv(s) && CoverInv(s, top) && s.pass.Rebroadcasting?
    ensures CoverInv(DoBoostBroadcast(s, accepted), top)
  {
    var s' := DoBoostBroadcast(s, accepted);
    AcceptCovers(s, s', top, s.pass.record.Key(), accepted);
    CounterFrame(s, s', top);
  }

  lemma BoostEndCovers(s: State, top: Tops)
    requires SafeInv(s) && CoverInv(s, top)
    ensures CoverInv(s.(pass := Idle), top)
  {
    CounterFrame(s, s.(pass := Idle), top);
  }

  lemma BoostSkipCovers(s: State, top: Tops)
    requires SafeInv(s) && CoverInv(s, top) && s.pass.Boosting? && s.pass.todo != []
    ensures CoverInv(s.(pass := Boosting(s.pass.todo[1..])), top)
  {
    CounterFrame(s, s.(pass := Boosting(s.pass.todo[1..])), top);
    forall u | u in s.pass.todo[1..] ensures u in s.pass.todo { }
  }

  lemma RestartCovers(s: State, top: Tops)
    requires SafeInv(s) && CoverInv(s, top)
    ensures CoverInv(DoRestart(s), top)
  {
  }

  function NextTops(s: State, top: Tops, e: Event): Tops
  {
    if e.Write? && e.id in s.tasks && s.tasks[e.id].Claimed? && s.tasks[e.id].record.tx.from in top
    then Raised(top, s.tasks[e.id].record.Key()) else top
  }

  lemma WriteStepCovers(s: State, top: Tops, id: nat)
    requires SafeInv(s) && CoverInv(s, top) && id in s.tasks && s.tasks[id].Claimed?
    ensures CoverInv(DoWrite(s, id), NextTops(s, top, Write(id)))
  {
    if s.tasks[id].record.Key() in s.db { RefusedWriteCovers(s, top, id); } else { WriteCovers(s, top, id); }
  }

  lemma EnterStepCovers(s: State, top: Tops, e: Event)
    requires SafeInv(s) && CoverInv(s, top) && Enabled(s, e) && Honest(s, e)
    requires e.Request? || e.Acquire? || e.Poll? || e.OutsidePoll?
    ensures CoverInv(Apply(s, e), top)
  {
    match e
    case Request(id, d, terms) => RequestCovers(s, top, id, d, terms);
    case Acquire(id) => AcquireCovers(s, top, id);
    case Poll(id, count) => PollCovers(s, top, id, count);
    case OutsidePoll(signer, count) => OutsidePollCovers(s, top, signer, count);
  }

  lemma LeaveStepCovers(s: State, top: Tops, e: Event)
    requires SafeInv(s) && CoverInv(s, top) && Enabled(s, e) && Undisturbing(s, e)
    requires e.Abort? || e.Sign? || e.Release? || e.Broadcast?
    ensures CoverInv(Apply(s, e), top)
  {
    match e
    case Abort(id) => AbortCovers(s, top, id);
    case Sign(id) => SignCovers(s, top, id);
    case Release(id) => ReleaseCovers(s, top, id);
    case Broadcast(id, accepted) => BroadcastCovers(s, top, id, accepted);
  }

  lemma PassStepCovers(s: State, top: Tops, e: Event)
    requires SafeInv(s) && CoverInv(s, top) && Enabled(s, e) && Honest(s, e) && !OfTask(e) && !e.Restart?
    ensures CoverInv(Apply(s, e), top)
  {
    match e
    case FillMined(key, block) => FillMinedCovers(s, top, key, block);
    case Prune(upToBlock, upToTimestamp) => PruneCovers(s, top, upToBlock, upToTimestamp);
    case BoostCount(signer, count) => BoostCountCovers(s, top, signer);
    case BoostRead(pending) => BoostReadCovers(s, top, pending);
    case BoostWrite(block, maxFee, maxPriorityFee) => BoostWriteCovers(s, top, block, maxFee, maxPriorityFee);
    case BoostSkip => BoostSkipCovers(s, top);
    case BoostBroadcast(accepted) => BoostBroadcastCovers(s, top, accepted);
    case BoostEnd => BoostEndCovers(s, top);
    case Mine(signer) => MineCovers(s, top, signer);
  }

  lemma StepCovers(s: State, top: Tops, e: Event)
    requires SafeInv(s) && CoverInv(s, top) && Enabled(s, e) && Honest(s, e) && Undisturbing(s, e)
    ensures CoverInv(Apply(s, e), NextTops(s, top, e))
  {
    if e.Write? { WriteStepCovers(s, top, e.id); }
    else if e.Request? || e.Acquire? || e.Poll? || e.OutsidePoll? { EnterStepCovers(s, top, e); }
    else if OfTask(e) { LeaveStepCovers(s, top, e); }
    else if e.Restart? { RestartCovers(s, top); }
    else { PassStepCovers(s, top, e); }
  }

  // ---------- whole runs ----------

  /** Which steps a run may contain. A quiet run is an honest one in one process, where the worker signs nothing. */
  datatype Rules = AnyNode | HonestNode | HonestUndisturbed | Quiet(worker: Address)

  ghost predicate SignsFor(s: State, e: Event, signer: Address)
  {
    e.Sign? && e.id in s.tasks && s.tasks[e.id].Polled? && s.tasks[e.id].d.signer == signer
  }

  ghost predicate Allowed(rules: Rules, s: State, e: Event)
  {
    && SignersKnown(s) && Enabled(s, e)
    && (!rules.AnyNode? ==> Honest(s, e))
    && (rules.HonestUndisturbed? ==> Undisturbing(s, e))
    && (rules.Quiet? ==> !e.Restart? && !SignsFor(s, e, rules.worker))
  }

  ghost predicate Run(rules: Rules, s: State, events: seq<Event>, t: State)
    decreases |events|
  {
    if events == [] then s == t
    else Allowed(rules, s, events[0]) && Run(rules, Apply(s, events[0]), events[1..], t)
  }

  ghost predicate NoRestart(events: seq<Event>)
  {
    forall i :: 0 <= i < |events| ==> !events[i].Restart?
  }

  /** A process just started, over whatever an earlier one left in the database. */
  ghost predicate Booted(s: State)
  {
    && ValidDb(s.db) && s.mutex.None? && s.tasks == map[] && s.pass.Idle?
    && (forall a :: a in s.nonces ==> s.nonces[a] == 0)
    && s.history.granted == [] && s.history.inserted == [] && s.history.broadcast <= s.history.recorded
  }

  /** The first process ever to use these keys. */
  ghost predicate FirstLaunch(s: State)
  {
    && Booted(s) && s.db == map[] && s.chain.base.Keys == s.nonces.Keys && s.chain.mined == s.chain.base
        && s.chain.accepted == {}
    && s.history.written == {} && s.history.pruned == {} && s.history.recorded == {} && !s.history.missingNonce
  }

  lemma {:induction false} RunIsSafe(rules: Rules, s: State, events: seq<Event>, t: State)
    requires SafeInv(s) && Run(rules, s, events, t)
    ensures SafeInv(t)
    decreases |events|
  {
    if events != [] {
      StepIsSafe(s, events[0]);
      RunIsSafe(rules, Apply(s, events[0]), events[1..], t);
    }
  }

  /** Whatever the node answers and however sends, polls, passes and restarts interleave: at most one send is
      between its poll and its release, grants rise in mutex order, no two stored sends of a signer share a nonce,
      and nothing was broadcast that had not been recorded. */
  lemma NonceSafety(rules: Rules, s: State, events: seq<Event>, t: State)
    requires Booted(s) && Run(rules, s, events, t)
    ensures forall i, j :: i in t.tasks && j in t.tasks && InSection(t.tasks[i]) && InSection(t.tasks[j]) ==> i == j
    ensures RisingPerSigner(t.history.granted)
    ensures RisingPerSigner(t.history.inserted)
    ensures forall k :: k in t.history.inserted ==> k in t.history.granted
    ensures forall id :: id in t.tasks && t.tasks[id].Claimed? ==> t.tasks[id].record.Key() in t.history.granted
    ensures forall id :: id in t.tasks && t.tasks[id].Broadcasting? ==>
              && t.tasks[id].record.Key() in t.history.inserted
              && t.tasks[id].record.Id() in t.history.recorded
    ensures t.history.broadcast <= t.history.recorded
  {
    assert SafeInv(s);
    RunIsSafe(rules, s, events, t);
    forall i, j | i in t.tasks && j in t.tasks && InSection(t.tasks[i]) && InSection(t.tasks[j]) ensures i == j {
      assert TaskInv(t, i) && TaskInv(t, j);
    }
    assert forall id :: id in t.tasks ==> TaskInv(t, id);
  }

  lemma {:induction false} HonestRunCovers(s: State, top: Tops, events: seq<Event>, t: State) returns (top': Tops)
    requires SafeInv(s) && CoverInv(s, top) && Run(HonestUndisturbed, s, events, t)
    ensures SafeInv(t) && CoverInv(t, top')
    decreases |events|
  {
    if events == [] {
      top' := top;
    } else {
      StepIsSafe(s, events[0]);
      StepCovers(s, top, events[0]);
      top' := HonestRunCovers(Apply(s, events[0]), NextTops(s, top, events[0]), events[1..], t);
    }
  }

  lemma {:induction false} RunKeepsBase(rules: Rules, s: State, events: seq<Event>, t: State)
    requires Run(rules, s, events, t)
    ensures t.chain.base == s.chain.base
    decreases |events|
  {
    if events != [] {
      RunKeepsBase(rules, Apply(s, events[0]), events[1..], t);
    }
  }

  /** Everything this process or an earlier one wrote is below the counters, and no counter was raised since a poll. */
  ghost predicate Fresh(s: State, top: Tops)
    requires ChainCover(s, top)
  {
    && (forall a :: a in top ==> top[a] == s.chain.base[a] || top[a] <= s.nonces[a])
    && forall id :: id in s.tasks && s.tasks[id].Polled? ==> StandsAsPolled(s, s.tasks[id])
  }

  ghost predicate StandsAsPolled(s: State, t: Task)
    requires t.Polled?
  {
    t.d.signer in s.nonces && t.nonce == s.nonces[t.d.signer]
  }

  /** Without a restart no poll outside the mutex raises a counter behind a send's poll. */
  lemma OutsidePollStaysFresh(s: State, top: Tops, signer: Address, count: nat)
    requires SafeInv(s) && CoverInv(s, top) && Fresh(s, top) && signer in s.nonces
               && PendingAnswer(s.chain, signer, count)
    ensures forall id :: id in s.tasks && s.tasks[id].Polled?
              ==> StandsAsPolled(DoOutsidePoll(s, signer, count), s.tasks[id])
  {
    PendingIsWritten(s, top, signer, count);
    forall id | id in s.tasks && s.tasks[id].Polled?
        ensures StandsAsPolled(DoOutsidePoll(s, signer, count), s.tasks[id])
    {
      assert TaskCover(s, top, s.tasks[id]) && StandsAsPolled(s, s.tasks[id]);
    }
  }

  lemma CountersKept(s: State, e: Event)
    requires SignersKnown(s) && Enabled(s, e) && !e.Poll? && !e.OutsidePoll? && !e.Sign? && !e.Restart?
    ensures Apply(s, e).nonces == s.nonces
    ensures forall id :: id in Apply(s, e).tasks && Apply(s, e).tasks[id].Polled?
              ==> id in s.tasks && s.tasks[id] == Apply(s, e).tasks[id]
  {
  }

  lemma BaseKept(s: State, e: Event)
    requires SignersKnown(s) && Enabled(s, e)
    ensures Apply(s, e).nonces.Keys == s.nonces.Keys && Apply(s, e).chain.base == s.chain.base
  {
  }

  lemma NoncesNeverDrop(s: State, e: Event)
    requires SignersKnown(s) && Enabled(s, e) && !e.Restart?
    ensures Apply(s, e).nonces.Keys == s.nonces.Keys && Apply(s, e).chain.base == s.chain.base
    ensures forall a :: a in s.nonces ==> Apply(s, e).nonces[a] >= s.nonces[a]
  {
    BaseKept(s, e);
    if !e.Poll? && !e.OutsidePoll? && !e.Sign? { CountersKept(s, e); }
  }

  /** Steps other than outside polls change counters only from inside the mutex. */
  lemma PolledStand(s: State, top: Tops, e: Event)
    requires SafeInv(s) && CoverInv(s, top) && Fresh(s, top) && Enabled(s, e) && Honest(s, e) && !e.Restart?
    ensures forall id :: id in Apply(s, e).tasks && Apply(s, e).tasks[id].Polled?
              ==> StandsAsPolled(Apply(s, e), Apply(s, e).tasks[id])
  {
    if e.OutsidePoll? {
      OutsidePollStaysFresh(s, top, e.signer, e.count);
    } else if e.Poll? || e.Sign? {
      forall id | id in Apply(s, e).tasks && Apply(s, e).tasks[id].Polled?
          ensures StandsAsPolled(Apply(s, e), Apply(s, e).tasks[id])
      {
        if id != e.id { OnlyOneInSection(s, e.id, id); }
      }
    } else {
      CountersKept(s, e);
      forall id | id in Apply(s, e).tasks && Apply(s, e).tasks[id].Polled?
          ensures StandsAsPolled(Apply(s, e), Apply(s, e).tasks[id])
      {
        assert id in s.tasks && s.tasks[id] == Apply(s, e).tasks[id];
      }
    }
  }

  lemma StepStaysFresh(s: State, s': State, top: Tops, e: Event)
    requires SafeInv(s) && CoverInv(s, top) && Fresh(s, top) && Enabled(s, e) && Honest(s, e) && !e.Restart?
               && s' == Apply(s, e)
    requires ChainCover(s', NextTops(s, top, e))
    ensures Fresh(s', NextTops(s, top, e))
  {
    NoncesNeverDrop(s, e);
    PolledStand(s, top, e);
    if e.Write? { assert TaskInv(s, e.id); }
  }

  lemma FreshIsUndisturbed(s: State, top: Tops, e: Event)
    requires ChainCover(s, top) && Fresh(s, top)
    ensures Undisturbing(s, e)
  {
    if e.Sign? && e.id in s.tasks && s.tasks[e.id].Polled? { assert StandsAsPolled(s, s.tasks[e.id]); }
  }

  lemma {:induction false} FreshRunCovers(s: State, top: Tops, events: seq<Event>, t: State) returns (top': Tops)
    requires SafeInv(s) && CoverInv(s, top) && Fresh(s, top) && Run(HonestNode, s, events, t) && NoRestart(events)
    ensures SafeInv(t) && CoverInv(t, top') && Fresh(t, top')
    decreases |events|
  {
    if events == [] {
      top' := top;
    } else {
      StepIsSafe(s, events[0]);
      FreshIsUndisturbed(s, top, events[0]);
      StepCovers(s, top, events[0]);
      StepStaysFresh(s, Apply(s, events[0]), top, events[0]);
      assert NoRestart(events[1..]);
      top' := FreshRunCovers(Apply(s, events[0]), NextTops(s, top, events[0]), events[1..], t);
    }
  }

  /** Every nonce from the signer's first one to its counter is stored, was pruned after being mined, or is just being
      stored. */
  ghost predicate Covered(s: State)
  {
    forall a, n: nat {:trigger NonceSigner(n, a)} ::
      a in s.nonces && a in s.chain.base && s.chain.base[a] <= n < s.nonces[a] ==>
      var k := NonceSigner(n, a);
      k in s.db || (k in s.history.pruned && a in s.chain.mined && n < s.chain.mined[a]) || InFlight(s, k)
  }

  lemma CoverInvMeansCovered(s: State, top: Tops)
    requires CoverInv(s, top)
    ensures Covered(s) && !s.history.missingNonce
  {
    forall a, n: nat {:trigger NonceSigner(n, a)} | a in s.nonces && a in s.chain.base
        && s.chain.base[a] <= n < s.nonces[a]
      ensures var k := NonceSigner(n, a);
              k in s.db || (k in s.history.pruned && a in s.chain.mined && n < s.chain.mined[a]) || InFlight(s, k)
    {
      var k := NonceSigner(n, a);
      if n < top[a] { assert k in s.history.written; }
    }
  }

  /** Nonce coverage of one process, and boosting never meets a missing nonce. */
  lemma Coverage(s: State, events: seq<Event>, t: State)
    requires FirstLaunch(s) && Run(HonestNode, s, events, t) && NoRestart(events)
    ensures Covered(t) && !t.history.missingNonce
  {
    assert CoverInv(s, s.chain.base) && SafeInv(s);
    var top := FreshRunCovers(s, s.chain.base, events, t);
    CoverInvMeansCovered(t, top);
  }

  /** A signature keeps coverage exactly when the counter still stands as polled, or stands at a nonce written
      before. */
  lemma SignCoversIff(s: State, top: Tops, id: nat)
    requires SafeInv(s) && CoverInv(s, top) && id in s.tasks && s.tasks[id].Polled?
    ensures Covered(DoSign(s, id)) <==> Undisturbing(s, Sign(id))
    ensures var signer := s.tasks[id].d.signer;
            signer in top && (NonceSigner(s.nonces[signer], signer) in s.history.written
                <==> s.nonces[signer] < top[signer])
  {
    assert TaskInv(s, id) && TaskCover(s, top, s.tasks[id]);
    if Undisturbing(s, Sign(id)) {
      SignCovers(s, top, id);
      CoverInvMeansCovered(DoSign(s, id), top);
    } else {
      var skipped := NonceSigner(s.nonces[s.tasks[id].d.signer], s.tasks[id].d.signer);
      assert skipped !in s.db && skipped !in s.history.pruned && !InFlight(DoSign(s, id), skipped);
    }
  }

  /** Every state of an honest run is covered. */
  ghost predicate CoveredThroughout(s: State, events: seq<Event>)
    decreases |events|
  {
    Covered(s) && (events == [] || (Allowed(HonestNode, s, events[0])
        ==> CoveredThroughout(Apply(s, events[0]), events[1..])))
  }

  lemma {:induction false} CoveredRun(s: State, top: Tops, events: seq<Event>, t: State)
    requires SafeInv(s) && CoverInv(s, top) && Run(HonestNode, s, events, t)
    ensures CoveredThroughout(s, events) <==> Run(HonestUndisturbed, s, events, t)
    decreases |events|
  {
    CoverInvMeansCovered(s, top);
    if events != [] {
      var e := events[0];
      StepIsSafe(s, e);
      if Undisturbing(s, e) {
        StepCovers(s, top, e);
        CoveredRun(Apply(s, e), NextTops(s, top, e), events[1..], t);
      } else {
        SignCoversIff(s, top, e.id);
      }
    }
  }

  /** Across restarts coverage holds at every state of a run exactly when each signature finds its counter as polled,
      or at a nonce written before; and then boosting never meets a missing nonce. */
  lemma CoverageAcrossRestarts(s: State, events: seq<Event>, t: State)
    requires FirstLaunch(s) && Run(HonestNode, s, events, t)
    ensures CoveredThroughout(s, events) <==> Run(HonestUndisturbed, s, events, t)
    ensures CoveredThroughout(s, events) ==> Covered(t) && !t.history.missingNonce
  {
    assert CoverInv(s, s.chain.base) && SafeInv(s);
    CoveredRun(s, s.chain.base, events, t);
    if Run(HonestUndisturbed, s, events, t) {
      var top := HonestRunCovers(s, s.chain.base, events, t);
      CoverInvMeansCovered(t, top);
    }
  }
}
