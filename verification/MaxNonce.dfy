/** The check of relayMaxNonce (packages/relay/src/RelayServer.ts:257-263) is a poll outside the send mutex.
    When it binds the nonce of the send behind it, over all runs with restarts. */
module MaxNonce {
  import opened Outcomes
  import opened TxStore
  import opened TransactionManager
  import opened NonceProtocol
  import opened NonceRuns

  // ---------- what every honest step keeps, restarts and disturbed sends included ----------

  ghost predicate SameKeys(s: State)
  {
    && (forall a :: a in s.nonces <==> a in s.chain.base)
    && (forall a :: a in s.nonces <==> a in s.chain.mined)
  }

  ghost predicate ChainRecords(s: State)
    requires SameKeys(s)
  {
    && (forall a :: a in s.chain.base ==> s.chain.base[a] <= s.chain.mined[a])
    && (forall a, n: nat :: a in s.chain.base && s.chain.base[a] <= n < s.chain.mined[a] ==>
        NonceSigner(n, a) in s.chain.accepted)
    && s.chain.accepted <= s.history.written
  }

  ghost predicate Mined(s: State, k: NonceSigner)
  {
    k.signer in s.chain.mined && k.nonce < s.chain.mined[k.signer]
  }

  ghost predicate StoreRecords(s: State)
  {
    && (forall k :: k in s.history.written <==> k in s.db || k in s.history.pruned)
    && (forall k :: k in s.history.pruned ==> Mined(s, k))
    && (forall k :: k in s.db && s.db[k].minedBlock.Some? ==> Mined(s, k))
    && (forall x :: x in s.history.recorded ==> NonceSigner(x.tx.nonce, x.tx.from) in s.history.written)
  }

  ghost predicate InHand(s: State, t: StoredTransaction)
  {
    t.Key() in s.db && (t.minedBlock.Some? ==> Mined(s, t.Key()))
  }

  ghost predicate PassRecords(s: State)
  {
    match s.pass
    case Boosting(todo) => forall t :: t in todo ==> InHand(s, t)
    case Rebroadcasting(record, todo) => record.Key() in s.history.written && forall t :: t in todo ==> InHand(s, t)
    case _ => true
  }

  ghost predicate TaskRecords(s: State)
  {
    forall id :: id in s.tasks ==>
      && (s.tasks[id].Claimed? ==> s.tasks[id].record.minedBlock.None?)
      && (s.tasks[id].Written? || s.tasks[id].Broadcasting? ==> s.tasks[id].record.Key() in s.history.written)
  }

  /** Accepted nonces were written, written records are stored or were mined and pruned. */
  ghost predicate RecordInv(s: State)
  {
    ValidDb(s.db) && SameKeys(s) && ChainRecords(s) && StoreRecords(s) && PassRecords(s) && TaskRecords(s)
  }

  /** Steps that leave chain, store and pass alone. */
  lemma TaskFrameRecords(s: State, s': State)
    requires RecordInv(s) && TaskRecords(s') && s'.nonces.Keys == s.nonces.Keys
               && s'.history.written == s.history.written
    requires s' == s.(nonces := s'.nonces, mutex := s'.mutex, tasks := s'.tasks, history := s'.history)
    requires s'.history.pruned == s.history.pruned && s'.history.recorded == s.history.recorded
    ensures RecordInv(s')
  {
  }

  lemma TaskStepRecords(s: State, e: Event)
    requires RecordInv(s) && SignersKnown(s) && Enabled(s, e) && OfTask(e) && !e.Write? && !e.Broadcast?
    ensures RecordInv(Apply(s, e))
  {
    TaskFrameRecords(s, Apply(s, e));
  }

  /** A record that is not mined is stored for the first time. */
  lemma NewRecordInStore(s: State, s': State, record: StoredTransaction)
    requires ValidDb(s.db) && StoreRecords(s) && record.minedBlock.None? && s'.db == s.db[record.Key() := record]
    requires s'.chain == s.chain && s'.history.pruned == s.history.pruned
    requires s'.history.written == s.history.written + {record.Key()}
    requires s'.history.recorded == s.history.recorded + {record.Id()}
    ensures ValidDb(s'.db) && StoreRecords(s')
  {
  }

  lemma NewRecord(s: State, s': State, record: StoredTransaction)
    requires RecordInv(s) && record.minedBlock.None? && s'.db == s.db[record.Key() := record]
    requires s'.nonces == s.nonces && s'.chain == s.chain && s'.pass == s.pass
    requires s'.history.written == s.history.written + {record.Key()}
    ensures SameKeys(s') && ChainRecords(s') && PassRecords(s')
  {
  }

  lemma WriteRecords(s: State, id: nat)
    requires RecordInv(s) && id in s.tasks && s.tasks[id].Claimed?
    ensures RecordInv(DoWrite(s, id))
  {
    if Put(s.db, s.tasks[id].record, false).Success? {
      NewRecordInStore(s, DoWrite(s, id), s.tasks[id].record);
      NewRecord(s, DoWrite(s, id), s.tasks[id].record);
    } else {
      TaskFrameRecords(s, DoWrite(s, id));
    }
  }

  /** Steps in which the node may accept a record that was written. */
  lemma AcceptRecords(s: State, s': State, key: NonceSigner, accepted: bool)
    requires RecordInv(s) && key in s.history.written && s'.chain == Accept(s.chain, key, accepted)
    requires s' == s.(tasks := s'.tasks, pass := s'.pass, chain := s'.chain,
                      history := s.history.(broadcast := s'.history.broadcast))
    requires TaskRecords(s') && PassRecords(s')
    ensures RecordInv(s')
  {
  }

  lemma BroadcastRecords(s: State, id: nat, accepted: bool)
    requires RecordInv(s) && id in s.tasks && s.tasks[id].Broadcasting?
    ensures RecordInv(DoBroadcast(s, id, accepted))
  {
    var s' := DoBroadcast(s, id, accepted);
    assert PassRecords(s') && TaskRecords(s');
    AcceptRecords(s, s', s.tasks[id].record.Key(), accepted);
  }

  lemma BoostBroadcastRecords(s: State, accepted: bool)
    requires RecordInv(s) && s.pass.Rebroadcasting?
    ensures RecordInv(DoBoostBroadcast(s, accepted))
  {
    var s' := DoBoostBroadcast(s, accepted);
    assert PassRecords(s') && TaskRecords(s');
    AcceptRecords(s, s', s.pass.record.Key(), accepted);
  }

  lemma PruneRecords(s: State, upToBlock: int, upToTimestamp: int)
    requires RecordInv(s) && s.pass.Idle?
    ensures RecordInv(DoPrune(s, upToBlock, upToTimestamp))
  {
  }

  lemma FillMinedRecords(s: State, key: NonceSigner, block: ShortBlockInfo)
    requires RecordInv(s) && s.pass.Idle? && key in s.db && Mined(s, key)
    ensures RecordInv(DoFillMined(s, key, block))
  {
  }

  lemma MineRecords(s: State, signer: Address)
    requires RecordInv(s) && signer in s.chain.mined && NonceSigner(s.chain.mined[signer], signer) in s.chain.accepted
    ensures RecordInv(DoMine(s, signer))
  {
  }

  /** Steps of a pass that touch neither chain nor store. */
  lemma PassFrameRecords(s: State, s': State)
    requires RecordInv(s) && PassRecords(s')
    requires s' == s.(pass := s'.pass, history := s.history.(missingNonce := s'.history.missingNonce))
    ensures RecordInv(s')
  {
  }

  lemma BoostReadRecords(s: State, pending: seq<StoredTransaction>)
    requires RecordInv(s) && s.pass.Counted? && RangeAnswer(s.db, s.pass.signer, s.pass.count, None, pending)
    ensures RecordInv(DoBoostRead(s, pending))
  {
    forall t | t in pending ensures InHand(s, t) { assert s.db[t.Key()] == t; }
    assert PassRecords(DoBoostRead(s, pending));
    PassFrameRecords(s, DoBoostRead(s, pending));
  }

  lemma BoostWriteRecords(s: State, block: ShortBlockInfo, maxFee: nat, maxPriorityFee: nat)
    requires RecordInv(s) && s.pass.Boosting? && s.pass.todo != []
    ensures RecordInv(DoBoostWrite(s, block, maxFee, maxPriorityFee))
    ensures DoBoostWrite(s, block, maxFee, maxPriorityFee).history.written == s.history.written
  {
    var t := s.pass.todo[0];
    assert t in s.pass.todo && InHand(s, t);
    forall u | u in s.pass.todo[1..] ensures u in s.pass.todo { }
  }

  lemma BoostSkipRecords(s: State)
    requires RecordInv(s) && s.pass.Boosting? && s.pass.todo != []
    ensures RecordInv(s.(pass := Boosting(s.pass.todo[1..])))
  {
    var s' := s.(pass := Boosting(s.pass.todo[1..]));
    forall u | u in s.pass.todo[1..] ensures InHand(s', u) { assert u in s.pass.todo && InHand(s, u); }
    PassFrameRecords(s, s');
  }

  lemma PassStepRecords(s: State, e: Event)
    requires RecordInv(s) && SignersKnown(s) && Enabled(s, e) && Honest(s, e) && !OfTask(e) && !e.Restart?
    ensures RecordInv(Apply(s, e))
  {
    match e
    case FillMined(key, block) => FillMinedRecords(s, key, block);
    case Prune(upToBlock, upToTimestamp) => PruneRecords(s, upToBlock, upToTimestamp);
    case BoostCount(signer, count) => PassFrameRecords(s, s.(pass := Counted(signer, count)));
    case BoostRead(pending) => BoostReadRecords(s, pending);
    case BoostWrite(block, maxFee, maxPriorityFee) => BoostWriteRecords(s, block, maxFee, maxPriorityFee);
    case BoostSkip => BoostSkipRecords(s);
    case BoostBroadcast(accepted) => BoostBroadcastRecords(s, accepted);
    case BoostEnd => PassFrameRecords(s, s.(pass := Idle));
    case Mine(signer) => MineRecords(s, signer);
  }

  lemma StepRecords(s: State, e: Event)
    requires RecordInv(s) && SignersKnown(s) && Enabled(s, e) && Honest(s, e)
    ensures RecordInv(Apply(s, e))
  {
    if e.Write? { WriteRecords(s, e.id); }
    else if e.Broadcast? { BroadcastRecords(s, e.id, e.accepted); }
    else if OfTask(e) { TaskStepRecords(s, e); }
    else if !e.Restart? { PassStepRecords(s, e); }
  }

  lemma {:induction false} RunRecords(rules: Rules, s: State, events: seq<Event>, t: State)
    requires !rules.AnyNode? && RecordInv(s) && Run(rules, s, events, t)
    ensures RecordInv(t)
    decreases |events|
  {
    if events != [] {
      StepRecords(s, events[0]);
      RunRecords(rules, Apply(s, events[0]), events[1..], t);
    }
  }

  // ---------- a nonce left to take keeps quiet runs within the maximum ----------

  /** No send has stored this nonce or is about to. */
  ghost predicate Untaken(s: State, worker: Address, n: nat)
  {
    NonceSigner(n, worker) !in s.history.written && !InFlight(s, NonceSigner(n, worker))
  }

  /** Some nonce of the worker up to the maximum is left. The server can tell from its store and its mutex. */
  ghost predicate NonceLeft(s: State, worker: Address, maxNonce: nat)
  {
    worker in s.chain.base && exists n: nat :: s.chain.base[worker] <= n <= maxNonce && Untaken(s, worker, n)
  }

  /** No send of the worker is about to sign a nonce above the maximum. */
  ghost predicate WithinMax(s: State, worker: Address, maxNonce: nat)
  {
    forall id :: id in s.tasks && s.tasks[id].Polled? && s.tasks[id].d.signer == worker
        ==> s.tasks[id].nonce <= maxNonce
  }

  /** Whatever happens until the worker signs again, its sends stay within the maximum. */
  ghost predicate MaxNonceBinds(s: State, worker: Address, maxNonce: nat)
  {
    forall events: seq<Event>, t: State :: Run(Quiet(worker), s, events, t) ==> WithinMax(t, worker, maxNonce)
  }

  ghost predicate QuietInv(s: State, worker: Address, n: nat, maxNonce: nat)
  {
    && SafeInv(s) && RecordInv(s) && worker in s.nonces
    && s.chain.base[worker] <= n <= maxNonce && Untaken(s, worker, n) && s.nonces[worker] <= maxNonce
  }

  /** The accepted nonces below an honest answer were written, so it cannot pass one that was not. */
  lemma AnswerBelowUntaken(s: State, worker: Address, n: nat, count: nat)
    requires RecordInv(s) && Untaken(s, worker, n) && PendingAnswer(s.chain, worker, count) && s.chain.base[worker] <= n
    ensures count <= n
  {
    assert n < count ==> NonceSigner(n, worker) in s.chain.accepted;
  }

  lemma WrittenBy(s: State, e: Event)
    requires SafeInv(s) && RecordInv(s) && Allowed(HonestNode, s, e)
    ensures forall k :: k in Apply(s, e).history.written ==> k in s.history.written || (e.Write? && InFlight(s, k))
  {
    if e.Write? { assert TaskInv(s, e.id); }
    else if e.BoostWrite? { BoostWriteRecords(s, e.block, e.maxFee, e.maxPriorityFee); }
  }

  lemma ClaimedBy(s: State, e: Event, k: NonceSigner)
    requires SignersKnown(s) && Enabled(s, e) && !SignsFor(s, e, k.signer) && InFlight(Apply(s, e), k)
    ensures InFlight(s, k)
  {
  }

  lemma StaysUntaken(s: State, e: Event, worker: Address, n: nat)
    requires SafeInv(s) && RecordInv(s) && Untaken(s, worker, n) && Allowed(Quiet(worker), s, e)
    ensures Untaken(Apply(s, e), worker, n)
  {
    WrittenBy(s, e);
    if InFlight(Apply(s, e), NonceSigner(n, worker)) { ClaimedBy(s, e, NonceSigner(n, worker)); }
  }

  lemma CounterStaysWithin(s: State, e: Event, worker: Address, n: nat, maxNonce: nat)
    requires QuietInv(s, worker, n, maxNonce) && Allowed(Quiet(worker), s, e)
    ensures worker in Apply(s, e).nonces && Apply(s, e).nonces[worker] <= maxNonce
  {
    if e.Poll? {
      if s.tasks[e.id].d.signer == worker { AnswerBelowUntaken(s, worker, n, e.count); }
    } else if e.OutsidePoll? {
      if e.signer == worker { AnswerBelowUntaken(s, worker, n, e.count); }
    } else if !e.Sign? {
      CountersKept(s, e);
    }
  }

  lemma {:induction false} QuietRunStaysWithin(s: State, worker: Address, n: nat, maxNonce: nat, events: seq<Event>,
                                               t: State)
    requires QuietInv(s, worker, n, maxNonce) && Run(Quiet(worker), s, events, t)
    ensures WithinMax(t, worker, maxNonce)
    decreases |events|
  {
    if events == [] {
      forall id | id in t.tasks && t.tasks[id].Polled? && t.tasks[id].d.signer == worker
          ensures t.tasks[id].nonce <= maxNonce
      {
        assert TaskInv(t, id);
      }
    } else {
      var e := events[0];
      StepIsSafe(s, e);
      StepRecords(s, e);
      StaysUntaken(s, e, worker, n);
      CounterStaysWithin(s, e, worker, n, maxNonce);
      NoncesNeverDrop(s, e);
      QuietRunStaysWithin(Apply(s, e), worker, n, maxNonce, events[1..], t);
    }
  }

  // ---------- without one, some quiet run passes it ----------

  lemma ReachesSafely(rules: Rules, s: State, t: State)
    requires !rules.AnyNode? && SafeInv(s) && RecordInv(s) && Reaches(rules, s, t)
    ensures SafeInv(t) && RecordInv(t)
  {
    var events :| Run(rules, s, events, t);
    RunIsSafe(rules, s, events, t);
    RunRecords(rules, s, events, t);
  }

  /** The send that owns the mutex leaves it, storing the nonce it has taken. */
  lemma LeaveSection(s: State, worker: Address, id: nat) returns (t: State)
    requires SafeInv(s) && RecordInv(s) && s.mutex == Some(id)
    ensures Reaches(Quiet(worker), s, t) && t.mutex.None? && t.pass == s.pass
    ensures t.nonces == s.nonces && t.chain == s.chain
    ensures s.history.written <= t.history.written && forall k :: InFlight(s, k) ==> k in t.history.written
  {
    assert TaskInv(s, id);
    if s.tasks[id].Claimed? {
      t := WriteAndRelease(Quiet(worker), s, id);
    } else if s.tasks[id].Holding? || s.tasks[id].Polled? {
      t := DoAbort(s, id);
      Goes(Quiet(worker), s, Abort(id));
    } else {
      t := DoRelease(s, id);
      Goes(Quiet(worker), s, Release(id));
    }
  }

  /** Pass over, mutex free, no nonce in flight. */
  lemma Settle(s: State, worker: Address) returns (t: State)
    requires SafeInv(s) && RecordInv(s)
    ensures Reaches(Quiet(worker), s, t) && t.mutex.None? && t.pass.Idle? && t.nonces == s.nonces && t.chain == s.chain
    ensures forall k :: k in s.history.written || InFlight(s, k) ==> k in t.history.written
  {
    t := s.(pass := Idle);
    EndPass(Quiet(worker), s);
    ReachesSafely(Quiet(worker), s, t);
    if t.mutex.Some? {
      var ended := t;
      t := LeaveSection(ended, worker, ended.mutex.value);
      Onward(Quiet(worker), s, ended, t);
      forall k | InFlight(s, k) ensures k in t.history.written { assert InFlight(ended, k); }
    }
  }

  /** A pass can broadcast everything in its list, and the node accept it. */
  lemma {:induction false} BoostAll(s: State, worker: Address) returns (t: State)
    requires SignersKnown(s) && s.pass.Boosting?
    ensures Reaches(Quiet(worker), s, t) && SignersKnown(t)
    ensures t.mutex == s.mutex && t.nonces == s.nonces && t.chain == s.chain.(accepted := t.chain.accepted)
    ensures s.chain.accepted <= t.chain.accepted && forall x :: x in s.pass.todo ==> x.Key() in t.chain.accepted
    decreases |s.pass.todo|
  {
    if s.pass.todo == [] {
      t := s;
      Stays(Quiet(worker), s);
    } else {
      var s1 := BoostFirst(Quiet(worker), s);
      t := BoostAll(s1, worker);
      Onward(Quiet(worker), s, s1, t);
      forall x | x in s.pass.todo ensures x.Key() in t.chain.accepted {
        assert x == s.pass.todo[0] || x in s1.pass.todo;
      }
    }
  }

  lemma {:induction false} ByNonce(db: Db, signer: Address, keys: set<NonceSigner>) returns (r: seq<StoredTransaction>)
    requires ValidDb(db) && forall k :: k in keys ==> k in db && k.signer == signer
    ensures StrictlyAscending(r) && forall t :: t in r <==> t.Key() in keys && db[t.Key()] == t
    decreases keys
  {
    if keys == {} {
      r := [];
    } else {
      var k :| k in keys;
      var rest := ByNonce(db, signer, keys - {k});
      InsertKeepsStrictOrder(db[k], rest);
      r := InsertByNonce(db[k], rest);
    }
  }

  /** The node may come to accept all of it. */
  lemma AcceptStored(s: State, worker: Address) returns (t: State)
    requires SafeInv(s) && RecordInv(s) && s.pass.Idle? && worker in s.nonces
    requires NonceSigner(s.chain.mined[worker], worker) in s.db
    ensures Reaches(Quiet(worker), s, t) && SignersKnown(t)
    ensures t.mutex == s.mutex && t.nonces == s.nonces && t.chain == s.chain.(accepted := t.chain.accepted)
    ensures s.chain.accepted <= t.chain.accepted
    ensures forall k :: k in s.db && k.signer == worker && k.nonce >= s.chain.mined[worker] ==> k in t.chain.accepted
  {
    var count := s.chain.mined[worker];
    var pending := ByNonce(s.db, worker, set k | k in s.db && InRange(k, worker, count, None));
    PendingStartsAt(s.db, worker, count, pending);
    TakeUp(Quiet(worker), s, worker, pending);
    t := BoostAll(s.(pass := Boosting(pending)), worker);
    Onward(Quiet(worker), s, s.(pass := Boosting(pending)), t);
    forall k | k in s.db && k.signer == worker && k.nonce >= count ensures k in t.chain.accepted {
      assert InRange(k, worker, count, None) && s.db[k] in pending && s.db[k].Key() == k;
    }
  }

  lemma PendingStartsAt(db: Db, worker: Address, count: nat, pending: seq<StoredTransaction>)
    requires ValidDb(db) && RangeAnswer(db, worker, count, None, pending) && NonceSigner(count, worker) in db
    ensures pending != [] && pending[0].tx.nonce == count
  {
    var k := NonceSigner(count, worker);
    assert InRange(k, worker, count, None) && db[k] in pending && db[k].Key() == k;
    assert pending[0] in pending && InRange(pending[0].Key(), worker, count, None);
  }

  /** Once every nonce up to the maximum is stored, the node can accept them all. */
  lemma AcceptUpTo(s: State, worker: Address, maxNonce: nat) returns (t: State)
    requires SafeInv(s) && RecordInv(s) && s.pass.Idle? && worker in s.nonces && s.chain.base[worker] <= maxNonce
    requires forall n: nat :: s.chain.base[worker] <= n <= maxNonce ==> NonceSigner(n, worker) in s.history.written
    ensures Reaches(Quiet(worker), s, t) && SignersKnown(t)
    ensures t.mutex == s.mutex && t.nonces == s.nonces && PendingAnswer(t.chain, worker, maxNonce + 1)
  {
    if s.chain.mined[worker] > maxNonce {
      t := s;
      Stays(Quiet(worker), s);
    } else {
      t := AcceptStored(s, worker);
    }
  }

  lemma {:induction false} AboveAll(ids: set<nat>) returns (bound: nat)
    ensures forall id :: id in ids ==> id < bound
    decreases ids
  {
    if ids == {} {
      bound := 0;
    } else {
      var id :| id in ids;
      var rest := AboveAll(ids - {id});
      bound := if id < rest then rest else id + 1;
      forall x | x in ids ensures x < bound { assert x == id || x in ids - {id}; }
    }
  }

  const ANY_CALL := SendDetails(0, RELAY_CALL, 0, 0, [], None, None, None, ShortBlockInfo(0, 0))

  /** With every nonce up to the maximum taken, the node may accept them all and the next send be told the one
      behind. */
  lemma PassTheMax(s: State, worker: Address, maxNonce: nat) returns (events: seq<Event>, t: State)
    requires SafeInv(s) && RecordInv(s) && worker in s.nonces && s.chain.base[worker] <= maxNonce
    requires !NonceLeft(s, worker, maxNonce)
    ensures Run(Quiet(worker), s, events, t) && !WithinMax(t, worker, maxNonce)
  {
    var s1 := Settle(s, worker);
    ReachesSafely(Quiet(worker), s, s1);
    forall n: nat | s.chain.base[worker] <= n <= maxNonce ensures NonceSigner(n, worker) in s1.history.written {
      assert !Untaken(s, worker, n);
    }
    var s2 := AcceptUpTo(s1, worker, maxNonce);
    var id := AboveAll(s2.tasks.Keys);
    t := EnterAndPoll(Quiet(worker), s2, id, ANY_CALL.(signer := worker), GasTerms(0, 0, 0), maxNonce + 1);
    assert t.tasks[id].nonce > maxNonce;
    Onward(Quiet(worker), s, s1, s2);
    Onward(Quiet(worker), s, s2, t);
    events :| Run(Quiet(worker), s, events, t);
  }

  lemma BindsIff(s: State, worker: Address, maxNonce: nat)
    requires SafeInv(s) && RecordInv(s) && worker in s.nonces && s.chain.base[worker] <= s.nonces[worker] <= maxNonce
    ensures MaxNonceBinds(s, worker, maxNonce) <==> NonceLeft(s, worker, maxNonce)
  {
    if NonceLeft(s, worker, maxNonce) {
      var n: nat :| s.chain.base[worker] <= n <= maxNonce && Untaken(s, worker, n);
      forall events: seq<Event>, t: State | Run(Quiet(worker), s, events, t) ensures WithinMax(t, worker, maxNonce) {
        QuietRunStaysWithin(s, worker, n, maxNonce, events, t);
      }
    } else {
      var _, _ := PassTheMax(s, worker, maxNonce);
    }
  }

  // ---------- the check and the send behind it ----------

  /** `validateMaxNonce` lets the request pass: the node's answer leaves the counter within the maximum. */
  ghost predicate CheckPasses(s: State, worker: Address, count: nat, maxNonce: nat)
  {
    Allowed(HonestNode, s, OutsidePoll(worker, count)) && DoOutsidePoll(s, worker, count).nonces[worker] <= maxNonce
  }

  lemma RecordsFromLaunch(s0: State, before: seq<Event>, s: State)
    requires FirstLaunch(s0) && Run(HonestNode, s0, before, s)
    ensures SafeInv(s) && RecordInv(s)
  {
    RunIsSafe(HonestNode, s0, before, s);
    RunRecords(HonestNode, s0, before, s);
  }

  /** What coverage knows after a run from the first launch. */
  lemma CoveredFromLaunch(s0: State, before: seq<Event>, s: State) returns (top: Tops)
    requires FirstLaunch(s0)
    requires Run(HonestUndisturbed, s0, before, s) || (Run(HonestNode, s0, before, s) && NoRestart(before))
    ensures SafeInv(s) && CoverInv(s, top) && s.chain.base == s0.chain.base && Run(HonestNode, s0, before, s)
    ensures NoRestart(before) && Run(HonestNode, s0, before, s) ==> Fresh(s, top)
  {
    assert CoverInv(s0, s0.chain.base) && SafeInv(s0);
    if Run(HonestNode, s0, before, s) && NoRestart(before) {
      top := FreshRunCovers(s0, s0.chain.base, before, s);
    } else {
      Weaken(HonestUndisturbed, s0, before, s);
      top := HonestRunCovers(s0, s0.chain.base, before, s);
    }
    RunKeepsBase(HonestNode, s0, before, s);
  }

  /** After any honest run, restarts included: once the check passed, the maximum binds the worker's next signature
      exactly when a nonce up to it was left before the check. */
  lemma RelayMaxNonceIff(s0: State, before: seq<Event>, s: State, worker: Address, count: nat, maxNonce: nat)
    requires FirstLaunch(s0) && Run(HonestNode, s0, before, s) && CheckPasses(s, worker, count, maxNonce)
    ensures MaxNonceBinds(DoOutsidePoll(s, worker, count), worker, maxNonce) <==> NonceLeft(s, worker, maxNonce)
  {
    var checked := DoOutsidePoll(s, worker, count);
    RecordsFromLaunch(s0, before, s);
    StepIsSafe(s, OutsidePoll(worker, count));
    StepRecords(s, OutsidePoll(worker, count));
    BindsIff(checked, worker, maxNonce);
    assert forall n: nat :: Untaken(checked, worker, n) <==> Untaken(s, worker, n);
  }

  /** Where the written nonces are one stretch, a nonce is left exactly when none at the maximum or above was
      written. */
  lemma LeftIffStored(s: State, top: Tops, worker: Address, maxNonce: nat)
    requires SafeInv(s) && CoverInv(s, top) && worker in s.nonces && s.chain.base[worker] <= maxNonce
               && s.nonces[worker] <= maxNonce
    ensures NonceLeft(s, worker, maxNonce) <==> forall k :: k in s.history.written && k.signer == worker ==>
              k.nonce < maxNonce
  {
    var free := top[worker];
    if free <= maxNonce {
      if InFlight(s, NonceSigner(free, worker)) {
        assert TaskInv(s, s.mutex.value);
        free := free + 1;
      }
      assert Untaken(s, worker, free);
    } else {
      assert NonceSigner(maxNonce, worker) in s.history.written;
    }
  }

  /** Where no signature left a gap, the exact condition is that nothing at the maximum or above was ever stored. */
  lemma RelayMaxNonceIffStored(s0: State, before: seq<Event>, s: State, worker: Address, count: nat, maxNonce: nat)
    requires FirstLaunch(s0) && Run(HonestUndisturbed, s0, before, s) && CheckPasses(s, worker, count, maxNonce)
    ensures MaxNonceBinds(DoOutsidePoll(s, worker, count), worker, maxNonce)
            <==> forall k :: k in s.history.written && k.signer == worker ==> k.nonce < maxNonce
  {
    var top := CoveredFromLaunch(s0, before, s);
    RelayMaxNonceIff(s0, before, s, worker, count, maxNonce);
    LeftIffStored(s, top, worker, maxNonce);
  }

  lemma FreshLeavesCounter(s: State, top: Tops, worker: Address, count: nat)
    requires SafeInv(s) && CoverInv(s, top) && Fresh(s, top) && worker in s.nonces
               && PendingAnswer(s.chain, worker, count)
    ensures var free := DoOutsidePoll(s, worker, count).nonces[worker];
            s.chain.base[worker] <= free && Untaken(s, worker, free)
  {
    PendingIsWritten(s, top, worker, count);
    assert s.mutex.Some? ==> TaskInv(s, s.mutex.value);
  }

  /** In the first process the check always binds: what was stored is below the counter it looked at. */
  lemma RelayMaxNonceHolds(s0: State, before: seq<Event>, s: State, worker: Address, count: nat, maxNonce: nat)
    requires FirstLaunch(s0) && Run(HonestNode, s0, before, s) && NoRestart(before)
               && CheckPasses(s, worker, count, maxNonce)
    ensures NonceLeft(s, worker, maxNonce) && MaxNonceBinds(DoOutsidePoll(s, worker, count), worker, maxNonce)
  {
    var top := CoveredFromLaunch(s0, before, s);
    FreshLeavesCounter(s, top, worker, count);
    RelayMaxNonceIff(s0, before, s, worker, count, maxNonce);
  }

  /** The next process, over a stored nonce 0 that nobody broadcast, checks a maximum of 0. */
  lemma CheckOverStored(s: State)
    requires SignersKnown(s) && s.nonces == map[EXAMPLE_SIGNER := 0] && s.chain == ExampleLaunch().chain
    requires s.history.written == {NonceSigner(0, EXAMPLE_SIGNER)}
    ensures CheckPasses(s, EXAMPLE_SIGNER, 0, 0) && DoOutsidePoll(s, EXAMPLE_SIGNER, 0) == s
              && !NonceLeft(s, EXAMPLE_SIGNER, 0)
  {
  }

  /** After a restart it may not: a process stored nonce 0 and stopped before broadcasting it, so the next one's check
      hears 0 and lets a maximum of 0 pass, a boost pass broadcasts 0, and the send behind the check is told 1. */
  lemma RestartPassesTheMax() returns (s0: State, before: seq<Event>, s: State, between: seq<Event>, t: State)
    ensures FirstLaunch(s0) && Run(HonestUndisturbed, s0, before, s) && CheckPasses(s, EXAMPLE_SIGNER, 0, 0)
    ensures Run(Quiet(EXAMPLE_SIGNER), DoOutsidePoll(s, EXAMPLE_SIGNER, 0), between, t)
              && !WithinMax(t, EXAMPLE_SIGNER, 0)
  {
    s0 := ExampleLaunch();
    s := StoredButNotBroadcast();
    before :| Run(HonestUndisturbed, s0, before, s);
    Weaken(HonestUndisturbed, s0, before, s);
    RecordsFromLaunch(s0, before, s);
    CheckOverStored(s);
    between, t := PassTheMax(s, EXAMPLE_SIGNER, 0);
  }

  /** A first process sends once; nobody else signs. */
  lemma SentOnce(other: Address) returns (t: State)
    requires other != EXAMPLE_SIGNER
    ensures Reaches(Quiet(other), ExampleLaunch(), t) && SignersKnown(t) && t.mutex.None?
    ensures t.chain == ExampleLaunch().chain && 1 !in t.tasks && t.nonces == map[EXAMPLE_SIGNER := 1]
  {
    var s := EnterAndPoll(Quiet(other), ExampleLaunch(), 0, ExampleCall(), ExampleTerms(), 0);
    t := SignAndWrite(Quiet(other), s, 0);
    Onward(Quiet(other), ExampleLaunch(), s, t);
  }

  lemma SentTwice(other: Address) returns (t: State)
    requires other != EXAMPLE_SIGNER
    ensures Reaches(Quiet(other), ExampleLaunch(), t) && !WithinMax(t, EXAMPLE_SIGNER, 0)
  {
    var s := SentOnce(other);
    t := EnterAndPoll(Quiet(other), s, 1, ExampleCall(), ExampleTerms(), 0);
    Onward(Quiet(other), ExampleLaunch(), s, t);
    assert t.tasks[1].nonce == 1;
  }

  /** Nor if another send of the worker signs between the check and the send behind it, even in the first process. */
  lemma AnotherSendPassesTheMax() returns (s: State, between: seq<Event>, t: State)
    ensures FirstLaunch(s) && CheckPasses(s, EXAMPLE_SIGNER, 0, 0)
    ensures Run(HonestNode, DoOutsidePoll(s, EXAMPLE_SIGNER, 0), between, t) && NoRestart(between)
    ensures !WithinMax(t, EXAMPLE_SIGNER, 0)
  {
    s := ExampleLaunch();
    assert DoOutsidePoll(s, EXAMPLE_SIGNER, 0) == s;
    var other := EXAMPLE_SIGNER + 1;
    t := SentTwice(other);
    between :| Run(Quiet(other), s, between, t);
    Weaken(Quiet(other), s, between, t);
    QuietRunsDoNotRestart(other, s, between, t);
  }
}
