/** Which transactions of its own the server issues, given what its pruned store remembers
    (packages/relay/src/TxStoreManager.ts:92-132, packages/relay/src/RegistrationManager.ts,
    packages/relay/src/RelayServer.ts:689-817). */
module ServerActions {
  import opened Outcomes
  import opened TxStore

  /** How long mined transactions are kept, and how long an action must not be repeated, in blocks. */
  datatype Memory = Memory(dbPruneTxAfterBlocks: nat, recentActionAvoidRepeatDistanceBlocks: nat)

  /** The store, the store had nothing ever been pruned, the block of the current pass, the actions asked about in
      this pass and found neither pending nor recent, and whether this process has called `setOwner`. */
  datatype World = World(db: Db, all: Db, block: nat, cleared: set<ServerAction>, setOwnerCalled: bool)

  datatype Event =
    | Ask(action: ServerAction)
    | Send(t: StoredTransaction)
    | Resend(t: StoredTransaction)
    | Fill(key: NonceSigner, minedBlock: ShortBlockInfo)
    | Prune(upToTimestamp: int)
    | NextPass(block: nat)
    | Restart

  /** Actions the server asks the store about before issuing. */
  predicate Guarded(action: ServerAction)
  {
    action == REGISTER_SERVER || action == ADD_WORKER || action == AUTHORIZE_HUB
  }

  predicate Pending(memory: Memory, db: Db, action: ServerAction, block: nat)
  {
    IsActionPendingOrRecentlyMined(db, action, block, memory.recentActionAvoidRepeatDistanceBlocks, None)
  }

  /** Guarded actions are sent only after asking, `setOwner` only once, under nonces not used before. Records are
      resent, filled in and pruned as they are; passes see rising blocks. */
  predicate Allowed(w: World, e: Event)
  {
    match e
    case Ask(_) => true
    case Send(t) =>
      && t.Key() !in w.all && t.minedBlock.None?
      && (Guarded(t.serverAction) ==> t.serverAction in w.cleared)
      && (t.serverAction == SET_OWNER ==> !w.setOwnerCalled)
    case Resend(t) => t.Key() in w.db && t.minedBlock == w.db[t.Key()].minedBlock
        && t.serverAction == w.db[t.Key()].serverAction
    case Fill(k, _) => k in w.db
    case Prune(_) => true
    case NextPass(b) => w.block <= b
    case Restart => true
  }

  function Put(w: World, t: StoredTransaction): World
  {
    w.(db := w.db[t.Key() := t], all := w.all[t.Key() := t])
  }

  function Step(memory: Memory, w: World, e: Event): World
    requires Allowed(w, e)
  {
    match e
    case Ask(a) => if Pending(memory, w.db, a, w.block) then w else w.(cleared := w.cleared + {a})
    case Send(t) => Put(w, t).(cleared := w.cleared - {t.serverAction},
        setOwnerCalled := w.setOwnerCalled || t.serverAction == SET_OWNER)
    case Resend(t) => Put(w, t)
    case Fill(k, m) => Put(w, w.db[k].(minedBlock := Some(m))).(cleared := {})
    case Prune(ts) => w.(db := RemoveArchived(w.db, w.block - memory.dbPruneTxAfterBlocks, ts), cleared := {})
    case NextPass(b) => w.(block := b, cleared := {})
    case Restart => w.(cleared := {}, setOwnerCalled := false)
  }

  ghost predicate Run(memory: Memory, w: World, events: seq<Event>, w': World)
    decreases |events|
  {
    if events == [] then w == w'
    else Allowed(w, events[0]) && Run(memory, Step(memory, w, events[0]), events[1..], w')
  }

  /** No transaction of this kind, remembered or not, is pending or was mined within the distance. */
  ghost predicate NoneLive(memory: Memory, all: Db, action: ServerAction, block: nat)
  {
    forall k :: k in all ==> !PendingOrRecent(all[k], action, block, memory.recentActionAvoidRepeatDistanceBlocks, None)
  }

  /** What the store has forgotten was mined long ago. */
  ghost predicate Forgotten(memory: Memory, t: StoredTransaction, block: nat)
  {
    t.minedBlock.Some? && t.minedBlock.value.number + memory.dbPruneTxAfterBlocks <= block
  }

  ghost predicate StoreInv(memory: Memory, w: World)
  {
    && ValidDb(w.db) && ValidDb(w.all)
    && (forall k :: k in w.db ==> k in w.all && w.db[k] == w.all[k])
    && (forall k :: k in w.all && k !in w.db ==> Forgotten(memory, w.all[k], w.block))
  }

  ghost predicate Inv(memory: Memory, w: World)
  {
    StoreInv(memory, w) && forall a :: a in w.cleared ==> NoneLive(memory, w.all, a, w.block)
  }

  /** Transactions are kept longer than they must not be repeated. */
  predicate KeepsLongEnough(memory: Memory)
  {
    memory.dbPruneTxAfterBlocks > memory.recentActionAvoidRepeatDistanceBlocks
  }

  lemma StepKeepsStore(memory: Memory, w: World, e: Event)
    requires StoreInv(memory, w) && Allowed(w, e)
    ensures StoreInv(memory, Step(memory, w, e))
  {
  }

  lemma {:induction false} RunKeepsStore(memory: Memory, w: World, events: seq<Event>, w': World)
    requires StoreInv(memory, w) && Run(memory, w, events, w')
    ensures StoreInv(memory, w')
    decreases |events|
  {
    if events != [] {
      StepKeepsStore(memory, w, events[0]);
      RunKeepsStore(memory, Step(memory, w, events[0]), events[1..], w');
    }
  }

  /** A negative answer of the pruned store is true of the full history. */
  lemma NegativeAnswersAreTrue(memory: Memory, w: World, action: ServerAction)
    requires Inv(memory, w) && KeepsLongEnough(memory)
    ensures Pending(memory, w.db, action, w.block) <==> !NoneLive(memory, w.all, action, w.block)
  {
    forall k | k in w.all && PendingOrRecent(w.all[k], action, w.block, memory.recentActionAvoidRepeatDistanceBlocks,
        None)
      ensures k in w.db && w.db[k] == w.all[k]
    {
      assert !Forgotten(memory, w.all[k], w.block);
    }
  }

  lemma SendKeepsInv(memory: Memory, w: World, t: StoredTransaction)
    requires Inv(memory, w) && Allowed(w, Send(t))
    ensures Inv(memory, Step(memory, w, Send(t)))
  {
    var w' := Step(memory, w, Send(t));
    forall a | a in w'.cleared ensures NoneLive(memory, w'.all, a, w'.block) {
      assert NoneLive(memory, w.all, a, w.block);
    }
  }

  lemma ResendKeepsInv(memory: Memory, w: World, t: StoredTransaction)
    requires Inv(memory, w) && Allowed(w, Resend(t))
    ensures Inv(memory, Step(memory, w, Resend(t)))
  {
    var w' := Step(memory, w, Resend(t));
    forall a | a in w'.cleared ensures NoneLive(memory, w'.all, a, w'.block) {
      assert NoneLive(memory, w.all, a, w.block);
      assert !PendingOrRecent(w.all[t.Key()], a, w.block, memory.recentActionAvoidRepeatDistanceBlocks, None);
    }
  }

  lemma PruneKeepsInv(memory: Memory, w: World, ts: int)
    requires Inv(memory, w)
    ensures Inv(memory, Step(memory, w, Prune(ts)))
  {
  }

  lemma StepKeepsInv(memory: Memory, w: World, e: Event)
    requires Inv(memory, w) && Allowed(w, e)
    requires KeepsLongEnough(memory)
    ensures Inv(memory, Step(memory, w, e))
  {
    match e
    case Ask(a) => NegativeAnswersAreTrue(memory, w, a);
    case Send(t) => SendKeepsInv(memory, w, t);
    case Resend(t) => ResendKeepsInv(memory, w, t);
    case Fill(k, m) =>
    case Prune(ts) => PruneKeepsInv(memory, w, ts);
    case NextPass(b) =>
    case Restart =>
  }

  /** No guarded action is sent while one of its kind is pending or recent, whatever was pruned meanwhile. */
  ghost predicate NeverRepeats(memory: Memory, w: World, events: seq<Event>)
    decreases |events|
  {
    events == [] ||
    (Allowed(w, events[0]) ==>
       && (events[0].Send? && Guarded(events[0].t.serverAction)
           ==> NoneLive(memory, w.all, events[0].t.serverAction, w.block))
       && NeverRepeats(memory, Step(memory, w, events[0]), events[1..]))
  }

  lemma {:induction false} NoActionIsRepeated(memory: Memory, w: World, events: seq<Event>, w': World)
    requires KeepsLongEnough(memory)
    requires Inv(memory, w) && Run(memory, w, events, w')
    ensures NeverRepeats(memory, w, events) && Inv(memory, w')
    decreases |events|
  {
    if events != [] {
      StepKeepsInv(memory, w, events[0]);
      NoActionIsRepeated(memory, Step(memory, w, events[0]), events[1..], w');
    }
  }

  /** Nothing stored, nothing cleared. */
  const EMPTY := World(map[], map[], 0, {}, false)

  ghost predicate Safe(memory: Memory)
  {
    forall events: seq<Event>, w: World :: Run(memory, EMPTY, events, w) ==> NeverRepeats(memory, EMPTY, events)
  }

  /** The condition on the configuration is exact. */
  lemma SafeIff(memory: Memory)
    ensures Safe(memory) <==> memory.dbPruneTxAfterBlocks > memory.recentActionAvoidRepeatDistanceBlocks
  {
    if memory.dbPruneTxAfterBlocks > memory.recentActionAvoidRepeatDistanceBlocks {
      forall events: seq<Event>, w: World | Run(memory, EMPTY, events, w) ensures NeverRepeats(memory, EMPTY, events) {
        NoActionIsRepeated(memory, EMPTY, events, w);
      }
    } else {
      ForgottenActionIsRepeated(memory);
    }
  }

  function Registration(nonce: nat): StoredTransaction
  {
    StoredTransaction(SignedTx(Legacy, 0, 0, 0, 0, [], 0, 0, nonce), 1, REGISTER_SERVER, ShortBlockInfo(0, 0), None,
        None)
  }

  /** Registered at block 0 and pruned as early as allowed, the server registers again within the distance. */
  lemma ForgottenActionIsRepeated(memory: Memory)
    requires memory.dbPruneTxAfterBlocks <= memory.recentActionAvoidRepeatDistanceBlocks
    ensures !Safe(memory)
  {
    var t, t2 := Registration(0), Registration(1);
    var mined := t.(minedBlock := Some(ShortBlockInfo(0, 0)));
    var tail2 := [Send(t2)];
    var w1 := EMPTY.(cleared := {REGISTER_SERVER});
    assert Step(memory, EMPTY, Ask(REGISTER_SERVER)) == w1;
    var w2 := World(map[t.Key() := t], map[t.Key() := t], 0, {}, false);
    assert Step(memory, w1, Send(t)) == w2;
    var w3 := World(map[t.Key() := mined], map[t.Key() := mined], 0, {}, false);
    assert Step(memory, w2, Fill(t.Key(), ShortBlockInfo(0, 0))) == w3;
    var w4 := w3.(block := memory.dbPruneTxAfterBlocks);
    assert Step(memory, w3, NextPass(memory.dbPruneTxAfterBlocks)) == w4;
    var w5 := w4.(db := map[]);
    assert Archived(mined, 0, 0);
    assert Step(memory, w4, Prune(0)) == w5;
    var w6 := w5.(cleared := {REGISTER_SERVER});
    assert Step(memory, w5, Ask(REGISTER_SERVER)) == w6;
    var w7 := Step(memory, w6, Send(t2));
    assert PendingOrRecent(w6.all[t.Key()], REGISTER_SERVER, w6.block, memory.recentActionAvoidRepeatDistanceBlocks,
        None);
    assert !NoneLive(memory, w6.all, REGISTER_SERVER, w6.block);
    var e6 := [Send(t2)];
    assert t2.Key() != t.Key() && Allowed(w6, Send(t2)) && e6[1..] == [];
    assert Run(memory, w6, e6, w7);
    assert e6[0] == Send(t2) && Guarded(e6[0].t.serverAction)
        && !NoneLive(memory, w6.all, e6[0].t.serverAction, w6.block);
    assert !NeverRepeats(memory, w6, e6);
    var e5 := Before(memory, w5, Ask(REGISTER_SERVER), e6, w7);
    var e4 := Before(memory, w4, Prune(0), e5, w7);
    var e3 := Before(memory, w3, NextPass(memory.dbPruneTxAfterBlocks), e4, w7);
    var e2 := Before(memory, w2, Fill(t.Key(), ShortBlockInfo(0, 0)), e3, w7);
    var e1 := Before(memory, w1, Send(t), e2, w7);
    var e0 := Before(memory, EMPTY, Ask(REGISTER_SERVER), e1, w7);
  }

  lemma Before(memory: Memory, w: World, e: Event, rest: seq<Event>, end: World) returns (events: seq<Event>)
    requires Allowed(w, e) && Run(memory, Step(memory, w, e), rest, end)
               && !NeverRepeats(memory, Step(memory, w, e), rest)
    ensures Run(memory, w, events, end) && !NeverRepeats(memory, w, events)
  {
    events := [e] + rest;
    assert events[0] == e && events[1..] == rest;
  }

  /** Sending one action changes no answer about another. */
  lemma OtherAnswersStand(memory: Memory, w: World, t: StoredTransaction, action: ServerAction)
    requires StoreInv(memory, w) && Allowed(w, Send(t)) && action != t.serverAction
    ensures Pending(memory, Step(memory, w, Send(t)).db, action, w.block) == Pending(memory, w.db, action, w.block)
  {
    var db, recency := Step(memory, w, Send(t)).db, memory.recentActionAvoidRepeatDistanceBlocks;
    assert t.Key() !in w.db;
    forall k | k in w.db && PendingOrRecent(w.db[k], action, w.block, recency, None)
      ensures k in db && db[k] == w.db[k]
    {
    }
    forall k | k in db && PendingOrRecent(db[k], action, w.block, recency, None) ensures k in w.db && db[k] == w.db[k] {
    }
  }

  // ---------- setOwner ----------

  function SetOwnerSends(events: seq<Event>): nat
  {
    if events == [] then 0
    else (if events[0].Send? && events[0].t.serverAction == SET_OWNER then 1 else 0) + SetOwnerSends(events[1..])
  }

  /** Between two starts of the process `setOwner` is sent at most once. */
  lemma {:induction false} SetOwnerAtMostOnce(memory: Memory, w: World, events: seq<Event>, w': World)
    requires Run(memory, w, events, w') && forall i :: 0 <= i < |events| ==> !events[i].Restart?
    ensures SetOwnerSends(events) <= 1 && (w.setOwnerCalled ==> SetOwnerSends(events) == 0)
    decreases |events|
  {
    if events != [] { SetOwnerAtMostOnce(memory, Step(memory, w, events[0]), events[1..], w'); }
  }

  /** A restart forgets it: the next process sends it again. */
  lemma SetOwnerAfterRestart(memory: Memory, w: World, t: StoredTransaction, t': StoredTransaction)
    requires !w.setOwnerCalled && t.Key() != t'.Key() && t.Key() !in w.all && t'.Key() !in w.all
    requires t.minedBlock == t'.minedBlock == None && t.serverAction == t'.serverAction == SET_OWNER
    ensures exists w' :: Run(memory, w, [Send(t), Restart, Send(t')], w')
    ensures SetOwnerSends([Send(t), Restart, Send(t')]) == 2
  {
    var w1 := Step(memory, w, Send(t));
    var w2 := Step(memory, w1, Restart);
    var w3 := Step(memory, w2, Send(t'));
    OneEvent(memory, w2, Send(t'));
    assert [Restart, Send(t')][1..] == [Send(t')] && [Send(t), Restart, Send(t')][1..] == [Restart, Send(t')];
    assert Run(memory, w1, [Restart, Send(t')], w3);
    assert Run(memory, w, [Send(t), Restart, Send(t')], w3);
    assert [Send(t')][1..] == [] && SetOwnerSends([Send(t')]) == 1;
    assert SetOwnerSends([Restart, Send(t')]) == 1;
  }

  // ---------- composing runs ----------

  lemma {:induction false} RunsCompose(memory: Memory, w: World, a: seq<Event>, w': World, b: seq<Event>, w'': World)
    requires Run(memory, w, a, w') && Run(memory, w', b, w'')
    ensures Run(memory, w, a + b, w'')
    decreases |a|
  {
    if a == [] {
      assert a + b == b;
    } else {
      RunsCompose(memory, Step(memory, w, a[0]), a[1..], w', b, w'');
      assert (a + b)[1..] == a[1..] + b;
    }
  }

  lemma OneEvent(memory: Memory, w: World, e: Event)
    requires Allowed(w, e)
    ensures Run(memory, w, [e], Step(memory, w, e))
  {
    assert [e][1..] == [];
  }
}
