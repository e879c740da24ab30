/** The relay server's transaction store (packages/relay/src/TxStoreManager.ts). */
module TxStore {
  import opened Outcomes

  /** Addresses are compared without regard to case, so an address stands for its lower-case form. */
  type Address = nat

  datatype ServerAction =
    | REGISTER_SERVER | ADD_WORKER | RELAY_CALL | VALUE_TRANSFER
    | DEPOSIT_WITHDRAWAL | PENALIZATION | SET_OWNER | AUTHORIZE_HUB

  datatype ShortBlockInfo = ShortBlockInfo(number: nat, timestamp: nat)

  datatype TransactionType = Legacy | FeeMarket

  /** What a signature covers. A legacy transaction has one gas price, held in both fee fields. */
  datatype SignedTx = SignedTx(
    kind: TransactionType, from: Address, to: Address, value: nat, gas: nat, data: seq<Byte>,
    maxFeePerGas: nat, maxPriorityFeePerGas: nat, nonce: nat)

  /** Hashing is injective: a transaction id determines the signed transaction it names. */
  datatype TxId = Hash(tx: SignedTx)

  datatype NonceSigner = NonceSigner(nonce: nat, signer: Address)

  datatype StoredTransaction = StoredTransaction(
    tx: SignedTx, attempts: nat, serverAction: ServerAction,
    creationBlock: ShortBlockInfo, boostBlock: Option<ShortBlockInfo>, minedBlock: Option<ShortBlockInfo>)
  {
    function Key(): NonceSigner { NonceSigner(tx.nonce, tx.from) }
    function Id(): TxId { Hash(tx) }
  }

  /** The database, indexed by its unique `nonceSigner` field. */
  type Db = map<NonceSigner, StoredTransaction>

  ghost predicate ValidDb(db: Db)
  {
    forall k :: k in db ==> db[k].Key() == k
  }

  datatype StoreError = InvalidTx | UniqueConstraintViolated

  function Put(db: Db, t: StoredTransaction, updateExisting: bool): (r: Result<Db, StoreError>)
  {
    if t.attempts == 0 then Failure(InvalidTx)
    else if t.Key() in db && !updateExisting then Failure(UniqueConstraintViolated)
    else Success(db[t.Key() := t])
  }

  /** The second unique index, on the transaction id, can never be the one that rejects a write. */
  lemma TxIdsAreUnique(db: Db, t: StoredTransaction, k: NonceSigner)
    requires ValidDb(db) && k in db && db[k].Id() == t.Id()
    ensures k == t.Key()
  {
    assert db[k].Key() == k;
  }

  predicate Archived(t: StoredTransaction, upToBlock: int, upToTimestamp: int)
  {
    t.minedBlock.Some? && t.minedBlock.value.number <= upToBlock && t.minedBlock.value.timestamp <= upToTimestamp
  }

  function RemoveArchived(db: Db, upToBlock: int, upToTimestamp: int): (r: Db)
  {
    map k | k in db && !Archived(db[k], upToBlock, upToTimestamp) :: db[k]
  }

  predicate Matches(t: StoredTransaction, action: ServerAction, destination: Option<Address>)
  {
    t.serverAction == action && (destination.None? || t.tx.to == destination.value)
  }

  ghost predicate PendingOrRecent(
    t: StoredTransaction, action: ServerAction, currentBlock: int, recency: int, destination: Option<Address>)
  {
    && t.serverAction == action && (destination.Some? ==> destination == Some(t.tx.to))
    && (t.minedBlock.Some? ==> currentBlock - t.minedBlock.value.number <= recency)
  }

  function IsActionPendingOrRecentlyMined(
    db: Db, action: ServerAction, currentBlock: int, recency: int, destination: Option<Address>): (found: bool)
    ensures found <==> (exists k :: k in db && PendingOrRecent(db[k], action, currentBlock, recency, destination))
  {
    var matching := set k | k in db && Matches(db[k], action, destination);
    var pending := set k | k in matching && db[k].minedBlock.None?;
    var recent := set k | k in matching && db[k].minedBlock.Some? &&
                          currentBlock - db[k].minedBlock.value.number <= recency;
    assert forall k :: k in db && PendingOrRecent(db[k], action, currentBlock, recency, destination) <==>
        k in pending + recent;
    assert pending + recent != {} ==> exists k :: k in pending + recent;
    if pending != {} then true else recent != {}
  }

  // ---------- pruning ----------

  /** Whether pruning at block c leaves the answer to one question at block b as it was. */
  ghost predicate PruningKeepsAnswer(db: Db, c: int, pruneAfter: int, upToTimestamp: int,
                                     action: ServerAction, b: int, recency: int, destination: Option<Address>)
  {
    IsActionPendingOrRecentlyMined(RemoveArchived(db, c - pruneAfter, upToTimestamp), action, b, recency, destination)
    == IsActionPendingOrRecentlyMined(db, action, b, recency, destination)
  }

  /** Pruning at block c hides nothing from a question asked at block b >= c. */
  lemma PruningIsInvisible(db: Db, c: int, pruneAfter: int, upToTimestamp: int,
                           action: ServerAction, b: int, recency: int, destination: Option<Address>)
    requires pruneAfter > recency && b >= c
    ensures PruningKeepsAnswer(db, c, pruneAfter, upToTimestamp, action, b, recency, destination)
  {
    var pruned := RemoveArchived(db, c - pruneAfter, upToTimestamp);
    forall k | k in db && PendingOrRecent(db[k], action, b, recency, destination)
      ensures k in pruned && pruned[k] == db[k]
    {
    }
  }

  ghost predicate PruningInvisible(pruneAfter: int, recency: int)
  {
    forall db: Db, c: int, ts: int, action: ServerAction, b: int, destination: Option<Address> ::
      b >= c ==> PruningKeepsAnswer(db, c, pruneAfter, ts, action, b, recency, destination)
  }

  /** The configuration condition is exact: with a shorter memory some answer does change. */
  lemma PruningInvisibleIff(pruneAfter: nat, recency: nat)
    ensures PruningInvisible(pruneAfter, recency) <==> pruneAfter > recency
  {
    if pruneAfter > recency {
      forall db: Db, c: int, ts: int, action: ServerAction, b: int, destination: Option<Address> | b >= c
        ensures PruningKeepsAnswer(db, c, pruneAfter, ts, action, b, recency, destination)
      {
        PruningIsInvisible(db, c, pruneAfter, ts, action, b, recency, destination);
      }
    } else {
      var t := StoredTransaction(SignedTx(Legacy, 0, 0, 0, 0, [], 0, 0, 0), 1, REGISTER_SERVER,
                                 ShortBlockInfo(0, 0), None, Some(ShortBlockInfo(0, 0)));
      var db: Db := map[t.Key() := t];
      assert Archived(t, 0, 0);
      assert RemoveArchived(db, pruneAfter - pruneAfter, 0) == map[];
      assert t.Key() in db && PendingOrRecent(db[t.Key()], REGISTER_SERVER, pruneAfter, recency, None);
      assert !PruningKeepsAnswer(db, pruneAfter, pruneAfter, 0, REGISTER_SERVER, pruneAfter, recency, None);
    }
  }

  lemma PruningKeepsUnmined(db: Db, upToBlock: int, upToTimestamp: int, k: NonceSigner)
    requires ValidDb(db) && k in db
    ensures ValidDb(RemoveArchived(db, upToBlock, upToTimestamp))
    ensures db[k].minedBlock.None? ==>
              k in RemoveArchived(db, upToBlock, upToTimestamp)
                  && RemoveArchived(db, upToBlock, upToTimestamp)[k] == db[k]
    ensures k !in RemoveArchived(db, upToBlock, upToTimestamp) ==>
              && db[k].minedBlock.Some? && db[k].minedBlock.value.number <= upToBlock
              && db[k].minedBlock.value.timestamp <= upToTimestamp
  {
  }

  // ---------- range queries ----------

  predicate InRange(k: NonceSigner, signer: Address, fromNonce: int, toNonce: Option<int>)
  {
    k.signer == signer && fromNonce <= k.nonce && (toNonce.Some? ==> k.nonce <= toNonce.value)
  }

  ghost predicate AscendingNonces(r: seq<StoredTransaction>)
  {
    forall i, j :: 0 <= i < j < |r| ==> r[i].tx.nonce <= r[j].tx.nonce
  }

  ghost predicate StrictlyAscending(r: seq<StoredTransaction>)
  {
    forall i, j :: 0 <= i < j < |r| ==> r[i].tx.nonce < r[j].tx.nonce
  }

  /** The answer to a range query: exactly the matching records, by rising nonce. */
  ghost predicate RangeAnswer(db: Db, signer: Address, fromNonce: int, toNonce: Option<int>, r: seq<StoredTransaction>)
  {
    && StrictlyAscending(r)
    && (forall t :: t in r ==> t.Key() in db && db[t.Key()] == t && InRange(t.Key(), signer, fromNonce, toNonce))
    && (forall k :: k in db && InRange(k, signer, fromNonce, toNonce) ==> db[k] in r)
  }

  lemma {:induction false} NoncesRiseByPosition(r: seq<StoredTransaction>, lo: int, i: nat)
    requires StrictlyAscending(r) && i < |r| && lo <= r[0].tx.nonce
    ensures r[i].tx.nonce >= lo + i
  {
    if i > 0 { NoncesRiseByPosition(r, lo, i - 1); }
  }

  /** Where no nonce of [lo, hi) is missing, the answer is one record per nonce, in order. */
  lemma {:induction false} FullRangeAnswer(db: Db, signer: Address, lo: int, hi: int, r: seq<StoredTransaction>)
    requires 0 <= lo <= hi && ValidDb(db) && RangeAnswer(db, signer, lo, Some(hi - 1), r)
    requires forall n: nat :: lo <= n < hi ==> NonceSigner(n, signer) in db
    ensures |r| == hi - lo
    ensures forall i :: 0 <= i < |r| ==> r[i].tx.nonce == lo + i && r[i].Key() == NonceSigner(lo + i, signer)
  {
    forall i | 0 <= i < |r| ensures lo + i <= r[i].tx.nonce < hi && r[i].Key().signer == signer {
      assert r[0] in r && r[i] in r;
      NoncesRiseByPosition(r, lo, i);
    }
    var n := 0;
    while n < hi - lo
      invariant 0 <= n <= hi - lo && n <= |r|
      invariant forall j :: 0 <= j < n ==> r[j].tx.nonce == lo + j
    {
      var k := NonceSigner(lo + n, signer);
      assert InRange(k, signer, lo, Some(hi - 1)) && db[k] in r;
      var at :| 0 <= at < |r| && r[at] == db[k];
      assert at == n;
      n := n + 1;
    }
    assert |r| > 0 ==> lo + (|r| - 1) <= r[|r| - 1].tx.nonce < hi;
  }

  /** A query has only one answer, so callers may reason about any of them. */
  lemma {:induction false} RangeAnswerIsUnique(
    db: Db, signer: Address, fromNonce: int, toNonce: Option<int>, r: seq<StoredTransaction>, s: seq<StoredTransaction>)
    requires ValidDb(db)
    requires RangeAnswer(db, signer, fromNonce, toNonce, r) && RangeAnswer(db, signer, fromNonce, toNonce, s)
    ensures r == s
  {
    assert forall t :: t in r <==> t in s;
    SameElementsSameOrder(r, s);
  }

  lemma {:induction false} SameElementsSameOrder(r: seq<StoredTransaction>, s: seq<StoredTransaction>)
    requires StrictlyAscending(r) && StrictlyAscending(s)
    requires forall t :: t in r <==> t in s
    ensures r == s
  {
    assert r != [] ==> r[0] in r && r[0] in s;
    assert s != [] ==> s[0] in s && s[0] in r;
    if r != [] {
      assert r[0] == s[0];
      forall t ensures t in r[1..] <==> t in s[1..] {
        assert t in r[1..] <==> t in r && t != r[0];
        assert t in s[1..] <==> t in s && t != s[0];
      }
      SameElementsSameOrder(r[1..], s[1..]);
      assert r == [r[0]] + r[1..] && s == [s[0]] + s[1..];
    }
  }

  function InsertByNonce(t: StoredTransaction, s: seq<StoredTransaction>): (r: seq<StoredTransaction>)
    ensures forall x :: x in r <==> x == t || x in s
  {
    if s == [] then [t]
    else if t.tx.nonce <= s[0].tx.nonce then [t] + s
    else
      assert s == [s[0]] + s[1..];
      [s[0]] + InsertByNonce(t, s[1..])
  }

  lemma {:induction false} InsertKeepsOrder(t: StoredTransaction, s: seq<StoredTransaction>)
    requires AscendingNonces(s)
    ensures AscendingNonces(InsertByNonce(t, s))
  {
    if s != [] && t.tx.nonce > s[0].tx.nonce {
      InsertKeepsOrder(t, s[1..]);
      var rest := InsertByNonce(t, s[1..]);
      forall i | 0 <= i < |rest| ensures s[0].tx.nonce <= rest[i].tx.nonce {
        assert rest[i] in rest;
      }
    }
  }

  lemma {:induction false} InsertKeepsStrictOrder(t: StoredTransaction, s: seq<StoredTransaction>)
    requires StrictlyAscending(s) && forall x :: x in s ==> x.tx.nonce != t.tx.nonce
    ensures StrictlyAscending(InsertByNonce(t, s))
  {
    if s != [] {
      assert s[0] in s;
      if t.tx.nonce > s[0].tx.nonce {
        InsertKeepsStrictOrder(t, s[1..]);
        var rest := InsertByNonce(t, s[1..]);
        forall i | 0 <= i < |rest| ensures s[0].tx.nonce < rest[i].tx.nonce {
          assert rest[i] in rest;
        }
      }
    }
  }

  class TxStoreManager {
    var db: Db

    constructor ()
      ensures db == map[]
    {
      db := map[];
    }

    method PutTx(t: StoredTransaction, updateExisting: bool) returns (r: Result<(), StoreError>)
      modifies this
      ensures r == if t.attempts == 0 then Failure(InvalidTx)
                   else if NonceSigner(t.tx.nonce, t.tx.from) in old(db) && !updateExisting
                   then Failure(UniqueConstraintViolated)
                   else Success(())
      ensures db == if r.Success? then old(db)[NonceSigner(t.tx.nonce, t.tx.from) := t] else old(db)
      ensures r.Success? ==> Put(old(db), t, updateExisting) == Success(db)
      ensures r.Failure? ==> Put(old(db), t, updateExisting) == Failure(r.error)
    {
      if t.attempts == 0 {
        return Failure(InvalidTx);
      }
      var existing := t.Key() in db;
      if existing && updateExisting {
        db := db[t.Key() := t];
      } else {
        if existing {
          return Failure(UniqueConstraintViolated);
        }
        db := db[t.Key() := t];
      }
      r := Success(());
    }

    method GetTxsInNonceRange(signer: Address, fromNonce: int, toNonce: Option<int>) returns (r: seq<StoredTransaction>)
      requires ValidDb(db)
      ensures RangeAnswer(db, signer, fromNonce, toNonce, r)
      ensures forall t :: t in r <==>
                && t.Key() in db && db[t.Key()] == t && t.tx.from == signer && t.tx.nonce >= fromNonce
                && (toNonce.Some? ==> t.tx.nonce <= toNonce.value)
      ensures forall i, j :: 0 <= i < j < |r| ==> r[i].tx.nonce < r[j].tx.nonce
    {
      r := [];
      var found := set k | k in db && k.signer == signer && k.nonce >= fromNonce
                             && (toNonce.Some? ==> k.nonce <= toNonce.value);
      var left := found;
      while left != {}
        invariant left <= found
        invariant StrictlyAscending(r)
        invariant forall t :: t in r ==> t.Key() in found - left && db[t.Key()] == t
        invariant forall k :: k in found - left ==> db[k] in r
        decreases left
      {
        var k :| k in left;
        assert db[k].Key() == k;
        assert forall x :: x in r ==> x.Key() in found && x.Key() != k;
        InsertKeepsStrictOrder(db[k], r);
        r := InsertByNonce(db[k], r);
        left := left - {k};
      }
    }

    method GetAll() returns (r: seq<StoredTransaction>)
      requires ValidDb(db)
      ensures forall i, j :: 0 <= i < j < |r| ==> r[i].tx.nonce <= r[j].tx.nonce
      ensures forall t :: t in r <==> t.Key() in db && db[t.Key()] == t
    {
      r := [];
      var left := db.Keys;
      while left != {}
        invariant left <= db.Keys
        invariant AscendingNonces(r)
        invariant forall t :: t in r <==> t.Key() in db.Keys - left && db[t.Key()] == t
        decreases left
      {
        var k :| k in left;
        InsertKeepsOrder(db[k], r);
        r := InsertByNonce(db[k], r);
        left := left - {k};
      }
    }

    method RemoveArchivedTransactions(upToMinedBlockNumber: int, upToMinedTimestamp: int)
      modifies this
      ensures db == RemoveArchived(old(db), upToMinedBlockNumber, upToMinedTimestamp)
      ensures forall k :: k in old(db) ==>
                (k !in db <==>
                 && old(db)[k].minedBlock.Some? && old(db)[k].minedBlock.value.number <= upToMinedBlockNumber
                 && old(db)[k].minedBlock.value.timestamp <= upToMinedTimestamp)
      ensures forall k :: k in db ==> k in old(db) && db[k] == old(db)[k]
    {
      db := map k | k in db
                    && !(db[k].minedBlock.Some? && db[k].minedBlock.value.number <= upToMinedBlockNumber
                         && db[k].minedBlock.value.timestamp <= upToMinedTimestamp) :: db[k];
    }
  }
}
