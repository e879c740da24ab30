/** Runs of the nonce protocol: building them, the undisturbed send, and the run that loses a nonce. */
module NonceRuns {
  import opened Outcomes
  import opened TxStore
  import opened TransactionManager
  import opened NonceProtocol

  lemma {:induction false} Concatenate(rules: Rules, s: State, events: seq<Event>, t: State, more: seq<Event>, u: State)
    requires Run(rules, s, events, t) && Run(rules, t, more, u)
    ensures Run(rules, s, events + more, u)
    decreases |events|
  {
    if events == [] {
      assert events + more == more;
    } else {
      Concatenate(rules, Apply(s, events[0]), events[1..], t, more, u);
      assert (events + more)[1..] == events[1..] + more;
    }
  }

  /** An undisturbed run or a quiet one is an honest run. */
  lemma {:induction false} Weaken(rules: Rules, s: State, events: seq<Event>, t: State)
    requires !rules.AnyNode? && Run(rules, s, events, t)
    ensures Run(HonestNode, s, events, t)
    decreases |events|
  {
    if events != [] { Weaken(rules, Apply(s, events[0]), events[1..], t); }
  }

  lemma {:induction false} QuietRunsDoNotRestart(worker: Address, s: State, events: seq<Event>, t: State)
    requires Run(Quiet(worker), s, events, t)
    ensures NoRestart(events)
    decreases |events|
  {
    if events != [] { QuietRunsDoNotRestart(worker, Apply(s, events[0]), events[1..], t); }
  }

  lemma OneStep(rules: Rules, s: State, e: Event)
    requires Allowed(rules, s, e)
    ensures Run(rules, s, [e], Apply(s, e))
  {
    assert [e][1..] == [];
  }

  // ---------- what some run leads to ----------

  ghost predicate Reaches(rules: Rules, s: State, t: State)
  {
    exists events: seq<Event> :: Run(rules, s, events, t)
  }

  lemma Stays(rules: Rules, s: State)
    ensures Reaches(rules, s, s)
  {
    assert Run(rules, s, [], s);
  }

  lemma Goes(rules: Rules, s: State, e: Event)
    requires Allowed(rules, s, e)
    ensures Reaches(rules, s, Apply(s, e))
  {
    OneStep(rules, s, e);
  }

  lemma Onward(rules: Rules, s: State, t: State, u: State)
    requires Reaches(rules, s, t) && Reaches(rules, t, u)
    ensures Reaches(rules, s, u)
  {
    var events :| Run(rules, s, events, t);
    var more :| Run(rules, t, more, u);
    Concatenate(rules, s, events, t, more, u);
  }

  lemma ReachesHonestly(rules: Rules, s: State, t: State)
    requires !rules.AnyNode? && Reaches(rules, s, t)
    ensures Reaches(HonestNode, s, t)
  {
    var events :| Run(rules, s, events, t);
    Weaken(rules, s, events, t);
  }

  /** A task that finds the mutex free enters and has its poll answered. */
  lemma EnterAndPoll(rules: Rules, s: State, id: nat, d: SendDetails, terms: GasTerms, count: nat) returns (t: State)
    requires SignersKnown(s) && s.mutex.None? && id !in s.tasks && d.signer in s.nonces
    requires !rules.AnyNode? ==> PendingAnswer(s.chain, d.signer, count)
    ensures Reaches(rules, s, t) && SignersKnown(t)
    ensures var nonces := RaiseNonce(s.nonces, d.signer, count);
            t == s.(nonces := nonces, mutex := Some(id), tasks := s.tasks[id := Polled(d, terms, nonces[d.signer])])
  {
    var s1 := DoRequest(s, id, d, terms);
    var s2 := DoAcquire(s1, id);
    t := DoPoll(s2, id, count);
    assert t.tasks == s.tasks[id := t.tasks[id]];
    Goes(rules, s, Request(id, d, terms));
    Goes(rules, s1, Acquire(id));
    Goes(rules, s2, Poll(id, count));
    Onward(rules, s, s1, s2);
    Onward(rules, s, s2, t);
  }

  /** The record a polled task is about to sign. */
  function Signed(s: State, id: nat): StoredTransaction
    requires id in s.tasks && s.tasks[id].Polled?
  {
    FirstRecord(SignSend(s.kind, s.tasks[id].d, s.tasks[id].terms, s.tasks[id].nonce), s.tasks[id].d)
  }

  /** A claimed nonce is stored, or refused, and the mutex left. */
  lemma WriteAndRelease(rules: Rules, s: State, id: nat) returns (t: State)
    requires SignersKnown(s) && id in s.tasks && s.tasks[id].Claimed?
    ensures Reaches(rules, s, t) && SignersKnown(t)
    ensures t.nonces == s.nonces && t.mutex.None? && t.kind == s.kind && t.chain == s.chain && t.pass == s.pass
    ensures t.history.pruned == s.history.pruned && t.history.missingNonce == s.history.missingNonce
    ensures var record, written := s.tasks[id].record, Put(s.db, s.tasks[id].record, false);
            && t.tasks == s.tasks[id := if written.Success? then Broadcasting(record) else Finished]
            && t.db == (if written.Success? then written.value else s.db)
            && t.history.written == s.history.written + if written.Success? then {record.Key()} else {}
  {
    var s1 := DoWrite(s, id);
    t := DoRelease(s1, id);
    assert t.tasks == s.tasks[id := t.tasks[id]];
    Goes(rules, s, Write(id));
    Goes(rules, s1, Release(id));
    Onward(rules, s, s1, t);
  }

  /** A polled task signs, writes and leaves the mutex. */
  lemma SignAndWrite(rules: Rules, s: State, id: nat) returns (t: State)
    requires SignersKnown(s) && id in s.tasks && s.tasks[id].Polled?
    requires rules.Quiet? ==> rules.worker != s.tasks[id].d.signer
    requires rules.HonestUndisturbed? ==> StandsAsPolled(s, s.tasks[id])
    requires Signable(s.kind, s.tasks[id].terms.maxFee, s.tasks[id].terms.maxPriorityFee)
    ensures Reaches(rules, s, t) && SignersKnown(t)
    ensures var signer, record := s.tasks[id].d.signer, Signed(s, id);
            && t.nonces == s.nonces[signer := s.nonces[signer] + 1] && t.mutex.None? && t.kind == s.kind
            && t.chain == s.chain && t.pass == s.pass
            && t.history.pruned == s.history.pruned && t.history.missingNonce == s.history.missingNonce
            && t.tasks == s.tasks[id := if record.Key() in s.db then Finished else Broadcasting(record)]
            && t.history.written == (if record.Key() in s.db then s.history.written
                                     else s.history.written + {record.Key()})
            && t.db == if record.Key() in s.db then s.db else s.db[record.Key() := record]
  {
    var s1 := DoSign(s, id);
    Goes(rules, s, Sign(id));
    t := WriteAndRelease(rules, s1, id);
    Onward(rules, s, s1, t);
    assert t.tasks == s.tasks[id := t.tasks[id]];
  }

  /** A task that signs, writes and, where the record is new, broadcasts. */
  lemma SignWriteBroadcast(s: State, id: nat) returns (t: State)
    requires SignersKnown(s) && id in s.tasks && s.tasks[id].Polled?
    requires Signable(s.kind, s.tasks[id].terms.maxFee, s.tasks[id].terms.maxPriorityFee)
    ensures Reaches(AnyNode, s, t)
    ensures var signer, record := s.tasks[id].d.signer, Signed(s, id);
            && t.nonces == s.nonces[signer := s.nonces[signer] + 1] && t.mutex.None?
            && t.db == (if record.Key() in s.db then s.db else s.db[record.Key() := record])
            && (record.Key() !in s.db ==> record.Id() in t.history.broadcast)
  {
    t := SignAndWrite(AnyNode, s, id);
    if t.tasks[id].Broadcasting? {
      var written := t;
      Goes(AnyNode, written, Broadcast(id, true));
      t := DoBroadcast(written, id, true);
      Onward(AnyNode, s, written, t);
    }
  }

  /** A send that nothing interrupts does to counters and store what the protocol's steps do, one after the other. */
  lemma SendIsARun(s: State, id: nat, d: SendDetails, a: SendAnswers) returns (events: seq<Event>, t: State)
    requires SafeInv(s) && s.mutex.None? && id !in s.tasks && d.signer in s.nonces
    ensures Run(AnyNode, s, events, t)
    ensures var e := SendEffect(s.kind, s.nonces, s.db, d, a);
            && t.nonces == e.nonces && t.db == e.db && t.mutex.None?
            && (e.result.Success? ==> e.result.value.transactionHash in t.history.broadcast)
  {
    var resolved := ResolveTerms(d, a);
    if resolved.Failure? || a.pendingCount.None? {
      t := s;
      Stays(AnyNode, s);
    } else {
      var polled := EnterAndPoll(AnyNode, s, id, d, resolved.value, a.pendingCount.value);
      if Signable(s.kind, resolved.value.maxFee, resolved.value.maxPriorityFee) {
        t := SignWriteBroadcast(polled, id);
      } else {
        t := DoAbort(polled, id);
        Goes(AnyNode, polled, Abort(id));
      }
      Onward(AnyNode, s, polled, t);
    }
    events :| Run(AnyNode, s, events, t);
  }

  /** A resend of the boost loop is a step that replaces the record and one that broadcasts it. */
  lemma ResendIsARun(s: State, block: ShortBlockInfo, maxFee: nat, maxPriorityFee: nat, accepted: bool)
    returns (t: State)
    requires SafeInv(s) && s.pass.Boosting? && s.pass.todo != []
    requires s.kind == FeeMarket ==> maxPriorityFee <= maxFee
    ensures Run(AnyNode, s, [BoostWrite(block, maxFee, maxPriorityFee), BoostBroadcast(accepted)], t)
    ensures var key := s.pass.todo[0].Key();
            && key in t.db && t.db == s.db[key := t.db[key]]
            && Again(s.kind, s.pass.todo[0], block, maxFee, maxPriorityFee, t.db[key])
            && t.history.broadcast == s.history.broadcast + {t.db[key].Id()}
            && t.chain == (if accepted then s.chain.(accepted := s.chain.accepted + {key}) else s.chain)
    ensures t.pass == Boosting(s.pass.todo[1..])
    ensures t.nonces == s.nonces && t.tasks == s.tasks && t.mutex == s.mutex && t.kind == s.kind
  {
    var write, broadcast := BoostWrite(block, maxFee, maxPriorityFee), BoostBroadcast(accepted);
    var s1 := DoBoostWrite(s, block, maxFee, maxPriorityFee);
    t := DoBoostBroadcast(s1, accepted);
    OneStep(AnyNode, s1, broadcast);
    assert [write, broadcast][1..] == [broadcast];
  }

  /** Filling in the mined block of a record is one step, or none. */
  lemma FillIsARun(s: State, key: NonceSigner, currentBlock: int, recheckAfter: int, receipt: TxId -> Option<nat>,
                   block: nat -> ShortBlockInfo) returns (t: State)
    requires SafeInv(s) && s.pass.Idle? && key in s.db
    ensures Reaches(AnyNode, s, t) && key in t.db && t == s.(db := s.db[key := t.db[key]])
    ensures MinedAsReceipted(s.db[key], currentBlock, recheckAfter, receipt, block, t.db[key])
  {
    var mined, named := s.db[key].minedBlock, receipt(Hash(s.db[key].tx));
    if named.Some? && (mined.None? || (currentBlock - mined.value.number >= recheckAfter
                                       && named.value != mined.value.number))
    {
      t := DoFillMined(s, key, block(named.value));
      Goes(AnyNode, s, FillMined(key, block(named.value)));
    } else {
      t := s;
      Stays(AnyNode, s);
      assert s.db == s.db[key := s.db[key]];
    }
  }

  // ---------- after a restart a late poll can lose a nonce for good ----------

  const EXAMPLE_SIGNER: Address := 7

  function ExampleCall(): SendDetails
  {
    SendDetails(EXAMPLE_SIGNER, RELAY_CALL, 9, 0, [], Some(21000), Some(1), Some(1), ShortBlockInfo(0, 0))
  }

  function ExampleTerms(): GasTerms { GasTerms(1, 1, 21000) }

  function ExampleRecord(nonce: nat): StoredTransaction
  {
    FirstRecord(SignSend(FeeMarket, ExampleCall(), ExampleTerms(), nonce), ExampleCall())
  }

  function ExampleLaunch(): State
  {
    State(FeeMarket, map[EXAMPLE_SIGNER := 0], None, map[], map[], Idle,
          Chain(map[EXAMPLE_SIGNER := 0], map[EXAMPLE_SIGNER := 0], {}), History([], [], {}, {}, {}, {}, false))
  }

  /** The first process stores nonce 0 and stops before broadcasting it. */
  lemma StoredButNotBroadcast() returns (t: State)
    ensures Reaches(HonestUndisturbed, ExampleLaunch(), t) && SignersKnown(t)
    ensures t.kind.FeeMarket? && t.nonces == map[EXAMPLE_SIGNER := 0] && t.mutex.None? && t.tasks == map[]
    ensures t.pass.Idle? && t.chain == ExampleLaunch().chain
    ensures t.db == map[NonceSigner(0, EXAMPLE_SIGNER) := ExampleRecord(0)]
    ensures !t.history.missingNonce && t.history.pruned == {} && t.history.written == {NonceSigner(0, EXAMPLE_SIGNER)}
  {
    var s := ExampleLaunch();
    var s1 := EnterAndPoll(HonestUndisturbed, s, 0, ExampleCall(), ExampleTerms(), 0);
    var s2 := SignAndWrite(HonestUndisturbed, s1, 0);
    t := DoRestart(s2);
    Goes(HonestUndisturbed, s2, Restart);
    Onward(HonestUndisturbed, s, s1, s2);
    Onward(HonestUndisturbed, s, s2, t);
  }

  /** A pass takes up whatever the signer has stored from the mined count on. */
  lemma TakeUp(rules: Rules, s: State, signer: Address, pending: seq<StoredTransaction>)
    requires SignersKnown(s) && s.pass.Idle? && signer in s.nonces && signer in s.chain.mined
    requires RangeAnswer(s.db, signer, s.chain.mined[signer], None, pending)
    requires pending != [] && pending[0].tx.nonce == s.chain.mined[signer]
    ensures Reaches(rules, s, s.(pass := Boosting(pending)))
  {
    var s1 := s.(pass := Counted(signer, s.chain.mined[signer]));
    Goes(rules, s, BoostCount(signer, s.chain.mined[signer]));
    Goes(rules, s1, BoostRead(pending));
    Onward(rules, s, s1, s.(pass := Boosting(pending)));
  }

  /** A pass replaces and broadcasts the first record of its list, and the node accepts it. */
  lemma BoostFirst(rules: Rules, s: State) returns (t: State)
    requires SignersKnown(s) && s.pass.Boosting? && s.pass.todo != []
    ensures Reaches(rules, s, t) && SignersKnown(t)
    ensures t.kind == s.kind && t.nonces == s.nonces && t.mutex == s.mutex && t.tasks == s.tasks
    ensures t.pass == Boosting(s.pass.todo[1..]) && t.chain == Accept(s.chain, s.pass.todo[0].Key(), true)
    ensures t.db.Keys == s.db.Keys + {s.pass.todo[0].Key()}
    ensures t.history.missingNonce == s.history.missingNonce && t.history.pruned == s.history.pruned
  {
    var block := ShortBlockInfo(0, 0);
    var s1 := DoBoostWrite(s, block, 0, 0);
    t := DoBoostBroadcast(s1, true);
    Goes(rules, s, BoostWrite(block, 0, 0));
    Goes(rules, s1, BoostBroadcast(true));
    Onward(rules, s, s1, t);
  }

  /** The pass ends. */
  lemma EndPass(rules: Rules, s: State)
    requires SignersKnown(s)
    ensures Reaches(rules, s, s.(pass := Idle))
  {
    if s.pass.Idle? { Stays(rules, s); } else { Goes(rules, s, BoostEnd); }
  }

  /** A pass finds the one stored record at the mined count, and replaces and broadcasts it. */
  lemma Rebroadcast(s: State, record: StoredTransaction) returns (t: State)
    requires SignersKnown(s) && s.pass.Idle? && record.tx.from in s.nonces && record.tx.from in s.chain.mined
    requires s.db == map[record.Key() := record] && s.chain.mined[record.tx.from] == record.tx.nonce
    ensures Reaches(HonestNode, s, t) && SignersKnown(t)
    ensures t.nonces == s.nonces && t.mutex == s.mutex && t.tasks == s.tasks && t.pass.Idle? && t.kind == s.kind
    ensures t.db.Keys == s.db.Keys && t.chain == Accept(s.chain, record.Key(), true)
    ensures t.history.missingNonce == s.history.missingNonce && t.history.pruned == s.history.pruned
  {
    assert RangeAnswer(s.db, record.tx.from, record.tx.nonce, None, [record]);
    TakeUp(HonestNode, s, record.tx.from, [record]);
    var s1 := s.(pass := Boosting([record]));
    var s2 := BoostFirst(HonestNode, s1);
    t := s2.(pass := Idle);
    EndPass(HonestNode, s2);
    Onward(HonestNode, s, s1, s2);
    Onward(HonestNode, s, s2, t);
  }

  /** A raising poll outside the mutex, then the signature with the nonce polled before. */
  lemma RaiseThenSign(s: State, count: nat) returns (t: State)
    requires SignersKnown(s) && 1 in s.tasks && s.tasks[1] == Polled(ExampleCall(), ExampleTerms(), 0)
    requires EXAMPLE_SIGNER in s.nonces && s.nonces[EXAMPLE_SIGNER] < count
    requires PendingAnswer(s.chain, EXAMPLE_SIGNER, count)
    requires s.kind.FeeMarket? && NonceSigner(0, EXAMPLE_SIGNER) in s.db
    ensures Reaches(HonestNode, s, t) && SignersKnown(t)
    ensures t.nonces == s.nonces[EXAMPLE_SIGNER := count + 1] && t.mutex.None? && t.pass == s.pass && t.kind == s.kind
    ensures t.tasks == s.tasks[1 := Finished] && t.chain == s.chain && t.db == s.db
    ensures t.history.missingNonce == s.history.missingNonce && t.history.pruned == s.history.pruned
  {
    var s1 := DoOutsidePoll(s, EXAMPLE_SIGNER, count);
    Goes(HonestNode, s, OutsidePoll(EXAMPLE_SIGNER, count));
    t := SignAndWrite(HonestNode, s1, 1);
    Onward(HonestNode, s, s1, t);
  }

  /** The second process polls 0 while a pass rebroadcasts the stored 0. */
  lemma PolledAndRebroadcast() returns (t: State)
    ensures Reaches(HonestNode, ExampleLaunch(), t) && SignersKnown(t)
    ensures t.kind.FeeMarket? && t.nonces == map[EXAMPLE_SIGNER := 0] && t.pass.Idle?
    ensures t.tasks == map[1 := Polled(ExampleCall(), ExampleTerms(), 0)]
    ensures t.chain == Accept(ExampleLaunch().chain, NonceSigner(0, EXAMPLE_SIGNER), true)
    ensures t.db.Keys == {NonceSigner(0, EXAMPLE_SIGNER)} && !t.history.missingNonce && t.history.pruned == {}
  {
    var s := StoredButNotBroadcast();
    ReachesHonestly(HonestUndisturbed, ExampleLaunch(), s);
    var s1 := EnterAndPoll(HonestNode, s, 1, ExampleCall(), ExampleTerms(), 0);
    t := Rebroadcast(s1, ExampleRecord(0));
    Onward(HonestNode, ExampleLaunch(), s, s1);
    Onward(HonestNode, ExampleLaunch(), s1, t);
  }

  /** It hears 1 outside the mutex, then signs 0 again: the write is refused and nonce 1 is skipped. */
  lemma SkippedNonce() returns (t: State)
    ensures Reaches(HonestNode, ExampleLaunch(), t) && SignersKnown(t)
    ensures t.kind.FeeMarket? && t.nonces == map[EXAMPLE_SIGNER := 2] && t.mutex.None? && t.pass.Idle?
    ensures t.tasks.Keys == {1} && t.chain == Accept(ExampleLaunch().chain, NonceSigner(0, EXAMPLE_SIGNER), true)
    ensures t.db.Keys == {NonceSigner(0, EXAMPLE_SIGNER)} && !t.history.missingNonce && t.history.pruned == {}
  {
    var s := PolledAndRebroadcast();
    t := RaiseThenSign(s, 1);
    Onward(HonestNode, ExampleLaunch(), s, t);
  }

  /** The third send stores nonce 2. */
  lemma StoredPastTheGap() returns (t: State)
    ensures Reaches(HonestNode, ExampleLaunch(), t) && SignersKnown(t)
    ensures t.nonces == map[EXAMPLE_SIGNER := 3] && t.mutex.None? && t.pass.Idle? && t.history.pruned == {}
    ensures t.chain == Accept(ExampleLaunch().chain, NonceSigner(0, EXAMPLE_SIGNER), true)
    ensures t.db.Keys == {NonceSigner(0, EXAMPLE_SIGNER), NonceSigner(2, EXAMPLE_SIGNER)}
    ensures t.db[NonceSigner(2, EXAMPLE_SIGNER)] == ExampleRecord(2)
  {
    var s := SkippedNonce();
    var s1 := EnterAndPoll(HonestNode, s, 2, ExampleCall(), ExampleTerms(), 1);
    t := SignAndWrite(HonestNode, s1, 2);
    Onward(HonestNode, ExampleLaunch(), s, s1);
    Onward(HonestNode, ExampleLaunch(), s1, t);
  }

  /** The pass at mined count 1 finds nonce 2 first. */
  lemma PastTheGap(db: Db)
    requires db.Keys == {NonceSigner(0, EXAMPLE_SIGNER), NonceSigner(2, EXAMPLE_SIGNER)}
    requires db[NonceSigner(2, EXAMPLE_SIGNER)] == ExampleRecord(2)
    ensures RangeAnswer(db, EXAMPLE_SIGNER, 1, None, [ExampleRecord(2)])
  {
  }

  /** Once nonce 0 is mined, with nonce 1 nowhere, the pass reports nonce 1 missing. */
  lemma BoostAfterSkip(s: State) returns (t: State)
    requires SignersKnown(s) && s.pass.Idle? && EXAMPLE_SIGNER in s.nonces && s.chain.mined == map[EXAMPLE_SIGNER := 0]
    requires NonceSigner(0, EXAMPLE_SIGNER) in s.chain.accepted
    requires s.db.Keys == {NonceSigner(0, EXAMPLE_SIGNER), NonceSigner(2, EXAMPLE_SIGNER)}
    requires s.db[NonceSigner(2, EXAMPLE_SIGNER)] == ExampleRecord(2)
    ensures Reaches(HonestNode, s, t)
    ensures t == DoMine(s, EXAMPLE_SIGNER).(history := s.history.(missingNonce := true))
  {
    var s1 := DoMine(s, EXAMPLE_SIGNER);
    var s2 := s1.(pass := Counted(EXAMPLE_SIGNER, 1));
    PastTheGap(s.db);
    t := DoBoostRead(s2, [ExampleRecord(2)]);
    Goes(HonestNode, s, Mine(EXAMPLE_SIGNER));
    Goes(HonestNode, s1, BoostCount(EXAMPLE_SIGNER, 1));
    Goes(HonestNode, s2, BoostRead([ExampleRecord(2)]));
    Onward(HonestNode, s, s1, s2);
    Onward(HonestNode, s, s2, t);
  }

  /** Without the guard of CoverageAcrossRestarts both its conclusions fail on some honest run. */
  lemma LateRaiseLosesANonce() returns (s: State, events: seq<Event>, t: State)
    ensures FirstLaunch(s) && Run(HonestNode, s, events, t)
    ensures !Covered(t) && t.history.missingNonce
  {
    s := ExampleLaunch();
    var stored := StoredPastTheGap();
    t := BoostAfterSkip(stored);
    Onward(HonestNode, s, stored, t);
    events :| Run(HonestNode, s, events, t);
    var lost := NonceSigner(1, EXAMPLE_SIGNER);
    assert lost !in t.db && lost !in t.history.pruned && !InFlight(t, lost);
  }
}
