/** Server and client together: the answer of an honest server passes the client's check. */
module HonestServer {
  import opened Outcomes
  import opened TxStore
  import opened ObjectMaps
  import opened TransactionManager
  import opened NonceProtocol
  import opened NonceRuns
  import opened MaxNonce
  import opened RelayedTransactionValidator

  /** Every nonce of [lo, hi) is stored, and stored as a relay call to the client's hub. */
  ghost predicate StoredRelayCalls(c: ClientDeployment, db: Db, worker: Address, lo: nat, hi: nat)
  {
    forall n: nat :: lo <= n < hi ==>
      var k := NonceSigner(n, worker);
      k in db && c.relayHubAddress == Some(db[k].tx.to) && c.relayCallSelector <= db[k].tx.data
  }

  /** The answer's properties are enumerated in nonce order. */
  lemma GapValues(r: seq<StoredTransaction>)
    requires StrictlyAscending(r)
    ensures ObjectValues(ObjectMap(GapEntries(r))) == seq(|r|, i requires 0 <= i < |r| => r[i].tx)
  {
    RisingKeysEnumerateInOrder(GapEntries(r));
  }

  lemma StoredGapIsAccepted(c: ClientDeployment, request: RelayTransactionRequest, db: Db, nonce: nat,
                            r: seq<StoredTransaction>)
    requires ValidDb(db) && RangeAnswer(db, request.relayWorker, request.relayLastKnownNonce, Some(nonce - 1), r)
    requires request.relayLastKnownNonce <= nonce
               && StoredRelayCalls(c, db, request.relayWorker, request.relayLastKnownNonce, nonce)
    ensures GapAccepted(c, request, nonce, ObjectMap(GapEntries(r)))
  {
    var worker, lo := request.relayWorker, request.relayLastKnownNonce;
    GapValues(r);
    FullRangeAnswer(db, worker, lo, nonce, r);
    forall i | 0 <= i < |r| ensures RelayCallAt(c, request, r[i].tx, lo + i) {
      assert r[i] in r && db[NonceSigner(lo + i, worker)] == r[i];
    }
  }

  lemma AcceptedGapIsStored(c: ClientDeployment, request: RelayTransactionRequest, db: Db, nonce: nat,
                            r: seq<StoredTransaction>, n: nat)
    requires ValidDb(db) && RangeAnswer(db, request.relayWorker, request.relayLastKnownNonce, Some(nonce - 1), r)
    requires GapAccepted(c, request, nonce, ObjectMap(GapEntries(r))) && request.relayLastKnownNonce <= n < nonce
    ensures var k := NonceSigner(n, request.relayWorker);
            k in db && c.relayHubAddress == Some(db[k].tx.to) && c.relayCallSelector <= db[k].tx.data
  {
    GapValues(r);
    var t := r[n - request.relayLastKnownNonce];
    assert t in r;
    assert RelayCallAt(c, request, ObjectValues(ObjectMap(GapEntries(r)))[n - request.relayLastKnownNonce], n);
  }

  /** The client accepts the gap of an answer exactly when nothing in it is missing or foreign. */
  lemma GapAcceptedIff(c: ClientDeployment, request: RelayTransactionRequest, db: Db, nonce: nat,
                       r: seq<StoredTransaction>)
    requires ValidDb(db) && RangeAnswer(db, request.relayWorker, request.relayLastKnownNonce, Some(nonce - 1), r)
    ensures GapAccepted(c, request, nonce, ObjectMap(GapEntries(r))) <==>
              request.relayLastKnownNonce <= nonce
                  && StoredRelayCalls(c, db, request.relayWorker, request.relayLastKnownNonce, nonce)
  {
    if request.relayLastKnownNonce <= nonce && StoredRelayCalls(c, db, request.relayWorker,
        request.relayLastKnownNonce, nonce)
    {
      StoredGapIsAccepted(c, request, db, nonce, r);
    }
    if GapAccepted(c, request, nonce, ObjectMap(GapEntries(r))) {
      forall n: nat | request.relayLastKnownNonce <= n < nonce
        ensures var k := NonceSigner(n, request.relayWorker);
                k in db && c.relayHubAddress == Some(db[k].tx.to) && c.relayCallSelector <= db[k].tx.data
      {
        AcceptedGapIsStored(c, request, db, nonce, r, n);
      }
    }
  }

  /** Where the written range of a worker reaches past `nonce`, an unpruned stretch below it is all in the store. */
  lemma UnprunedIsStored(s: State, top: Tops, worker: Address, lo: nat, nonce: nat)
    requires CoverInv(s, top) && NonceSigner(nonce, worker) in s.history.written && s.chain.base[worker] <= lo
    requires forall n: nat :: lo <= n < nonce ==> NonceSigner(n, worker) !in s.history.pruned
    ensures forall n: nat :: lo <= n < nonce ==> NonceSigner(n, worker) in s.db
  {
    forall n: nat | lo <= n < nonce ensures NonceSigner(n, worker) in s.db {
      assert NonceSigner(n, worker) in s.history.written;
    }
  }

  /** Between the client's last known nonce, no older than the server, and `nonce` only relay calls were stored and
      nothing was pruned, and the answer is the range query's. */
  ghost predicate GapAnswered(c: ClientDeployment, request: RelayTransactionRequest, t: State, nonce: nat,
                              r: seq<StoredTransaction>)
  {
    var worker, lo := request.relayWorker, request.relayLastKnownNonce;
    && worker in t.chain.base && t.chain.base[worker] <= lo <= nonce
    && (forall n: nat :: lo <= n < nonce ==> NonceSigner(n, worker) !in t.history.pruned)
    && (forall k :: k in t.db && InRange(k, worker, lo, Some(nonce - 1)) ==>
          c.relayHubAddress == Some(t.db[k].tx.to) && c.relayCallSelector <= t.db[k].tx.data)
    && RangeAnswer(t.db, worker, lo, Some(nonce - 1), r)
  }

  /** Runs after which the written nonces of a signer are one stretch. */
  ghost predicate CoveringRun(s: State, events: seq<Event>, t: State)
  {
    Run(HonestUndisturbed, s, events, t) || (Run(HonestNode, s, events, t) && NoRestart(events))
  }

  /** Completeness of an honest server. After any run in which only this server signs for the worker, the answer
      for a send at `nonce` holds one transaction per nonce of the gap and is accepted. */
  lemma HonestServerCompleteness(
    c: ClientDeployment, request: RelayTransactionRequest, s: State, events: seq<Event>, t: State, nonce: nat,
    r: seq<StoredTransaction>)
    requires FirstLaunch(s) && CoveringRun(s, events, t)
    requires NonceSigner(nonce, request.relayWorker) in t.history.written && GapAnswered(c, request, t, nonce, r)
    ensures GapAccepted(c, request, nonce, ObjectMap(GapEntries(r)))
    ensures |r| == nonce - request.relayLastKnownNonce
    ensures forall i :: 0 <= i < |r| ==> r[i].tx.nonce == request.relayLastKnownNonce + i
  {
    var top := CoveredFromLaunch(s, events, t);
    UnprunedIsStored(t, top, request.relayWorker, request.relayLastKnownNonce, nonce);
    GapIsRelayCalls(c, t.db, request.relayWorker, request.relayLastKnownNonce, nonce);
    GapAcceptedIff(c, request, t.db, nonce, r);
    FullRangeAnswer(t.db, request.relayWorker, request.relayLastKnownNonce, nonce, r);
  }

  lemma GapIsRelayCalls(c: ClientDeployment, db: Db, worker: Address, lo: nat, nonce: nat)
    requires forall n: nat :: lo <= n < nonce ==> NonceSigner(n, worker) in db
    requires forall k :: k in db && InRange(k, worker, lo, Some(nonce - 1)) ==>
               c.relayHubAddress == Some(db[k].tx.to) && c.relayCallSelector <= db[k].tx.data
    ensures StoredRelayCalls(c, db, worker, lo, nonce)
  {
    forall n: nat | lo <= n < nonce
      ensures var k := NonceSigner(n, worker);
              k in db && c.relayHubAddress == Some(db[k].tx.to) && c.relayCallSelector <= db[k].tx.data
    {
      assert InRange(NonceSigner(n, worker), worker, lo, Some(nonce - 1));
    }
  }

  /** A send about to sign what the request asked for. */
  ghost predicate Serves(c: ClientDeployment, request: RelayTransactionRequest, task: Task)
  {
    && task.Polled? && task.d.signer == request.relayWorker
    && Some(task.d.destination) == c.relayHubAddress && task.d.data == request.encodedCall
    && task.terms.maxFee == request.maxFeePerGas && task.terms.maxPriorityFee == request.maxPriorityFeePerGas
  }

  lemma CheckedRun(s0: State, before: seq<Event>, s: State, worker: Address, count: nat, between: seq<Event>, t: State,
                   after: seq<Event>, u: State)
    requires Run(HonestNode, s0, before, s) && Allowed(HonestNode, s, OutsidePoll(worker, count))
    requires Run(Quiet(worker), DoOutsidePoll(s, worker, count), between, t) && Run(HonestNode, t, after, u)
    ensures Run(HonestNode, s0, before + [OutsidePoll(worker, count)] + between + after, u)
  {
    var check := OutsidePoll(worker, count);
    OneStep(HonestNode, s, check);
    Concatenate(HonestNode, s0, before, s, [check], Apply(s, check));
    Weaken(Quiet(worker), Apply(s, check), between, t);
    Concatenate(HonestNode, s0, before + [check], Apply(s, check), between, t);
    Concatenate(HonestNode, s0, before + [check] + between, t, after, u);
  }

  /** From request to acceptance. The server checks the maximum nonce, a send polls its nonce, and some time later its
      record is stored and the gap read: the client accepts what it is sent, if a nonce up to its maximum was left at
      the check (`RelayMaxNonceHolds`: always so in the first process), no other send of the worker signed before this
      one polled, and the gap can be answered. */
  lemma HonestResponseAccepted(
    c: ClientDeployment, request: RelayTransactionRequest, s0: State, before: seq<Event>, s: State, count: nat,
    between: seq<Event>, t: State, id: nat, after: seq<Event>, u: State, r: seq<StoredTransaction>)
    requires FirstLaunch(s0) && Run(HonestNode, s0, before, s)
    requires CheckPasses(s, request.relayWorker, count, request.relayMaxNonce)
    requires NonceLeft(s, request.relayWorker, request.relayMaxNonce)
    requires Run(Quiet(request.relayWorker), DoOutsidePoll(s, request.relayWorker, count), between, t)
    requires id in t.tasks && Serves(c, request, t.tasks[id]) && Run(HonestNode, t, after, u)
    requires var whole := before + [OutsidePoll(request.relayWorker, count)] + between + after;
             NoRestart(whole) || Run(HonestUndisturbed, s0, whole, u)
    requires Signed(t, id).Id() in u.history.recorded && GapAnswered(c, request, u, t.tasks[id].nonce, r)
    ensures Acceptable(c, request, Signed(t, id).tx, ObjectMap(GapEntries(r)))
  {
    var worker, nonce := request.relayWorker, t.tasks[id].nonce;
    var whole := before + [OutsidePoll(worker, count)] + between + after;
    RelayMaxNonceIff(s0, before, s, worker, count, request.relayMaxNonce);
    assert WithinMax(t, worker, request.relayMaxNonce);
    CheckedRun(s0, before, s, worker, count, between, t, after, u);
    RecordsFromLaunch(s0, whole, u);
    HonestServerCompleteness(c, request, s0, whole, u, nonce, r);
  }
}
