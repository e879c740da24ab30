/** Paymaster reputation (packages/relay/src/ReputationManager.ts, packages/relay/src/ReputationStoreManager.ts). */
module Reputation {
  import opened Outcomes

  type Address = nat

  datatype Change = Change(blockNumber: int, change: int)

  datatype Entry = Entry(reputation: int, lastAcceptedRelayRequestTs: int, abuseStartedBlock: int, changes: seq<Change>)

  datatype Config = Config(
    initialReputation: int, maximumReputation: int, throttleReputation: int, throttleDelayMs: int, blockReputation: int,
    abuseReputationChange: int, abuseTimeWindowBlocks: int, abuseBlacklistDurationBlocks: int,
    abuseTimeoutReputation: int)

  const DEFAULT_CONFIG := Config(6, 100, 5, 60000, 0, 20, 240, 6000, 1)

  datatype PaymasterStatus = GOOD | THROTTLED | ABUSED | BLOCKED

  datatype StoreError = InvalidChangeExpiration | NoEntry

  /** The changes made after a block. */
  function After(changes: seq<Change>, limit: int): seq<Change>
  {
    if changes == [] then []
    else
      var front := After(changes[..|changes| - 1], limit);
      if changes[|changes| - 1].blockNumber > limit then front + [changes[|changes| - 1]] else front
  }

  function Sum(changes: seq<Change>): int
  {
    if changes == [] then 0 else Sum(changes[..|changes| - 1]) + changes[|changes| - 1].change
  }

  // ---------- the store ----------

  class ReputationStoreManager {
    var entries: map<Address, Entry>

    constructor ()
      ensures entries == map[]
    {
      entries := map[];
    }

    method CreateEntry(paymaster: Address, reputation: int) returns (entry: Entry)
      requires paymaster !in entries
      modifies this
      ensures entry == Entry(reputation, 0, 0, []) && entries == old(entries)[paymaster := entry]
    {
      entry := Entry(reputation, 0, 0, []);
      entries := entries[paymaster := entry];
    }

    method ClearAbuseFlag(paymaster: Address, reputation: int)
      requires paymaster in entries
      modifies this
      ensures entries == old(entries)[paymaster := old(entries)[paymaster].(reputation := reputation,
                abuseStartedBlock := 0)]
    {
      UpdateEntry(paymaster, entries[paymaster].(reputation := reputation, abuseStartedBlock := 0));
    }

    method SetAbuseFlag(paymaster: Address, eventBlockNumber: int)
      requires paymaster in entries
      modifies this
      ensures entries == old(entries)[paymaster := old(entries)[paymaster].(abuseStartedBlock := eventBlockNumber)]
    {
      UpdateEntry(paymaster, entries[paymaster].(abuseStartedBlock := eventBlockNumber));
    }

    method UpdateLastAcceptedTimestamp(paymaster: Address, now: int) returns (r: Result<(), StoreError>)
      modifies this
      ensures r == if paymaster in old(entries) then Success(()) else Failure(NoEntry)
      ensures entries == if r.Success?
                then old(entries)[paymaster := old(entries)[paymaster].(lastAcceptedRelayRequestTs := now)]
                    else old(entries)
    {
      if paymaster !in entries { return Failure(NoEntry); }
      UpdateEntry(paymaster, entries[paymaster].(lastAcceptedRelayRequestTs := now));
      r := Success(());
    }

    method UpdatePaymasterReputation(paymaster: Address, change: int, oldChangesExpirationBlock: int,
                                     eventBlockNumber: int)
      returns (r: Result<(), StoreError>)
      requires paymaster in entries
      modifies this
      ensures r == if eventBlockNumber > oldChangesExpirationBlock then Success(())
                   else Failure(InvalidChangeExpiration)
      ensures r.Failure? ==> entries == old(entries)
      ensures r.Success? ==> entries == old(entries)[paymaster :=
                Applied(old(entries)[paymaster], change, oldChangesExpirationBlock, eventBlockNumber)]
    {
      if eventBlockNumber <= oldChangesExpirationBlock { return Failure(InvalidChangeExpiration); }
      var existing := entries[paymaster];
      var reputation := existing.reputation + change;
      var changes := After(existing.changes + [Change(eventBlockNumber, change)], oldChangesExpirationBlock);
      UpdateEntry(paymaster, existing.(reputation := reputation, changes := changes));
      r := Success(());
    }

    method UpdateEntry(paymaster: Address, entry: Entry)
      modifies this
      ensures entries == old(entries)[paymaster := entry]
    {
      entries := entries[paymaster := entry];
    }
  }

  /** The change is added and the expired ones are dropped. */
  function Applied(e: Entry, change: int, oldChangesExpirationBlock: int, eventBlockNumber: int): Entry
  {
    e.(reputation := e.reputation + change, changes := After(e.changes + [Change(eventBlockNumber, change)],
        oldChangesExpirationBlock))
  }

  // ---------- the two operations on one entry ----------

  predicate InAbusePeriod(config: Config, e: Entry, currentBlockNumber: int)
  {
    e.abuseStartedBlock != 0 && currentBlockNumber - e.abuseStartedBlock <= config.abuseTimeWindowBlocks
  }

  predicate Throttled(config: Config, e: Entry, now: int)
  {
    e.reputation < config.throttleReputation && now - e.lastAcceptedRelayRequestTs <= config.throttleDelayMs
  }

  /** The throttling check looks at the entry as it was before an expired abuse flag is cleared. */
  function Status(config: Config, e: Entry, currentBlockNumber: int, now: int): PaymasterStatus
  {
    if e.reputation <= config.blockReputation then BLOCKED
    else if InAbusePeriod(config, e, currentBlockNumber) then ABUSED
    else if Throttled(config, e, now) then THROTTLED
    else GOOD
  }

  function AfterQuery(config: Config, e: Entry, currentBlockNumber: int): Entry
  {
    if e.reputation > config.blockReputation && e.abuseStartedBlock != 0
        && !InAbusePeriod(config, e, currentBlockNumber)
    then e.(reputation := config.abuseTimeoutReputation, abuseStartedBlock := 0)
    else e
  }

  function Delta(transactionSuccess: bool): int { if transactionSuccess then 1 else -1 }

  predicate AboveMaximum(config: Config, e: Entry, transactionSuccess: bool)
  {
    e.reputation + Delta(transactionSuccess) > config.maximumReputation
  }

  predicate Abuses(config: Config, changes: seq<Change>, eventBlockNumber: int)
  {
    LosesTooMuch(config, After(changes, eventBlockNumber - config.abuseTimeWindowBlocks))
  }

  predicate LosesTooMuch(config: Config, window: seq<Change>)
  {
    -Sum(window) >= config.abuseReputationChange
  }

  function AfterFlag(config: Config, e: Entry, eventBlockNumber: int): Entry
  {
    if Abuses(config, e.changes, eventBlockNumber) then e.(abuseStartedBlock := eventBlockNumber) else e
  }

  /** The update throws before it writes anything if the window is not positive. */
  function AfterChange(config: Config, e: Entry, transactionSuccess: bool, eventBlockNumber: int): Entry
  {
    if config.abuseTimeWindowBlocks <= 0 then e
    else Applied(e, Delta(transactionSuccess), eventBlockNumber - config.abuseTimeWindowBlocks, eventBlockNumber)
  }

  function AfterOutcome(config: Config, e: Entry, transactionSuccess: bool, eventBlockNumber: int): Entry
  {
    if AboveMaximum(config, e, transactionSuccess) then e
    else AfterChange(config, AfterFlag(config, e, eventBlockNumber), transactionSuccess, eventBlockNumber)
  }

  // ---------- what the two operations promise, from the entry they find and the configuration alone ----------

  /** The entry found, or a new one. */
  ghost function Found(config: Config, entries: map<Address, Entry>, paymaster: Address): Entry
  {
    if paymaster in entries then entries[paymaster] else Entry(config.initialReputation, 0, 0, [])
  }

  /** Blocked first, abused next while the flag is young enough, and throttled by the reputation found, even where an
      old flag has just been cleared. */
  ghost predicate StatusPromise(config: Config, e: Entry, currentBlockNumber: int, now: int, status: PaymasterStatus,
                                e': Entry)
  {
    var blocked, flagged := e.reputation <= config.blockReputation, e.abuseStartedBlock != 0;
    var young := e.abuseStartedBlock + config.abuseTimeWindowBlocks >= currentBlockNumber;
    && (status == BLOCKED <==> blocked) && (status == ABUSED <==> !blocked && flagged && young)
    && (status == THROTTLED <==>
          && !blocked && !(flagged && young) && e.reputation < config.throttleReputation
          && e.lastAcceptedRelayRequestTs + config.throttleDelayMs >= now)
    && e' == if !blocked && flagged && !young
             then Entry(config.abuseTimeoutReputation, e.lastAcceptedRelayRequestTs, 0, e.changes) else e
  }

  /** Nothing changes above the maximum. Otherwise an excess of losses in the window sets the flag, and then the change
      is applied and the window kept, unless the window is not positive. */
  ghost predicate OutcomePromise(config: Config, e: Entry, transactionSuccess: bool, eventBlockNumber: int,
                                 r: Result<(), StoreError>, e': Entry)
  {
    var change := if transactionSuccess then 1 else -1;
    var limit := eventBlockNumber - config.abuseTimeWindowBlocks;
    if e.reputation + change > config.maximumReputation then r == Success(()) && e' == e
    else
      && e'.abuseStartedBlock == (if Sum(After(e.changes, limit)) + config.abuseReputationChange <= 0
                                  then eventBlockNumber else e.abuseStartedBlock)
      && e'.lastAcceptedRelayRequestTs == e.lastAcceptedRelayRequestTs
      && if config.abuseTimeWindowBlocks <= 0
         then r == Failure(InvalidChangeExpiration) && e'.reputation == e.reputation && e'.changes == e.changes
         else r == Success(()) && e'.reputation == e.reputation + change
              && e'.changes == After(e.changes + [Change(eventBlockNumber, change)], limit)
  }

  /** The functions below say the same. */
  lemma StatusPromiseIff(config: Config, e: Entry, currentBlockNumber: int, now: int, status: PaymasterStatus,
                         e': Entry)
    ensures StatusPromise(config, e, currentBlockNumber, now, status, e') <==>
              && status == Status(config, e, currentBlockNumber, now)
              && e' == AfterQuery(config, e, currentBlockNumber)
  {
  }

  lemma OutcomePromiseIff(config: Config, e: Entry, transactionSuccess: bool, eventBlockNumber: int,
                          r: Result<(), StoreError>, e': Entry)
    ensures OutcomePromise(config, e, transactionSuccess, eventBlockNumber, r, e') <==>
              && e' == AfterOutcome(config, e, transactionSuccess, eventBlockNumber)
              && r == if AboveMaximum(config, e, transactionSuccess) || config.abuseTimeWindowBlocks > 0
                      then Success(()) else Failure(InvalidChangeExpiration)
  {
  }

  lemma PromiseFromSteps(config: Config, e: Entry, transactionSuccess: bool, eventBlockNumber: int, flagged: Entry,
                         r: Result<(), StoreError>, e': Entry)
    requires !AboveMaximum(config, e, transactionSuccess)
    requires flagged == AfterFlag(config, e, eventBlockNumber)
    requires var limit := eventBlockNumber - config.abuseTimeWindowBlocks;
             if eventBlockNumber > limit
             then r == Success(()) && e' == Applied(flagged, Delta(transactionSuccess), limit, eventBlockNumber)
             else r == Failure(InvalidChangeExpiration) && e' == flagged
    ensures OutcomePromise(config, e, transactionSuccess, eventBlockNumber, r, e')
  {
  }

  class ReputationManager {
    const config: Config
    const store: ReputationStoreManager

    constructor (config: Config, store: ReputationStoreManager)
      ensures this.config == config && this.store == store
    {
      this.config, this.store := config, store;
    }

    method GetOrCreate(paymaster: Address) returns (entry: Entry)
      modifies store
      ensures entry == Found(config, old(store.entries), paymaster)
      ensures store.entries == old(store.entries)[paymaster := entry]
    {
      if paymaster in store.entries {
        entry := store.entries[paymaster];
      } else {
        entry := store.CreateEntry(paymaster, config.initialReputation);
      }
    }

    method GetPaymasterStatus(paymaster: Address, currentBlockNumber: int, now: int) returns (status: PaymasterStatus)
      modifies store
      ensures paymaster in store.entries && store.entries == old(store.entries)[paymaster := store.entries[paymaster]]
      ensures StatusPromise(config, Found(config, old(store.entries), paymaster), currentBlockNumber, now, status,
                            store.entries[paymaster])
    {
      var entry := GetOrCreate(paymaster);
      if entry.reputation <= config.blockReputation { return BLOCKED; }
      if entry.abuseStartedBlock != 0 {
        if currentBlockNumber - entry.abuseStartedBlock <= config.abuseTimeWindowBlocks { return ABUSED; }
        store.ClearAbuseFlag(paymaster, config.abuseTimeoutReputation);
      }
      if entry.reputation < config.throttleReputation
          && now - entry.lastAcceptedRelayRequestTs <= config.throttleDelayMs
      {
        return THROTTLED;
      }
      return GOOD;
    }

    method OnRelayRequestAccepted(paymaster: Address, now: int) returns (r: Result<(), StoreError>)
      modifies store
      ensures r == if paymaster in old(store.entries) then Success(()) else Failure(NoEntry)
      ensures store.entries == if r.Success?
                then old(store.entries)[paymaster :=
                       old(store.entries)[paymaster].(lastAcceptedRelayRequestTs := now)]
                else old(store.entries)
    {
      r := store.UpdateLastAcceptedTimestamp(paymaster, now);
    }

    method UpdatePaymasterStatus(paymaster: Address, transactionSuccess: bool,
                                 eventBlockNumber: int) returns (r: Result<(), StoreError>)
      modifies store
      ensures paymaster in store.entries && store.entries == old(store.entries)[paymaster := store.entries[paymaster]]
      ensures OutcomePromise(config, Found(config, old(store.entries), paymaster), transactionSuccess,
                             eventBlockNumber, r, store.entries[paymaster])
    {
      var change := if transactionSuccess then 1 else -1;
      var entry := GetOrCreate(paymaster);
      if entry.reputation + change > config.maximumReputation { return Success(()); }
      var changeInAbuseWindow := Sum(After(entry.changes, eventBlockNumber - config.abuseTimeWindowBlocks));
      if -changeInAbuseWindow >= config.abuseReputationChange { store.SetAbuseFlag(paymaster, eventBlockNumber); }
      ghost var flagged := store.entries[paymaster];
      assert store.entries == old(store.entries)[paymaster := flagged];
      r := store.UpdatePaymasterReputation(paymaster, change, eventBlockNumber - config.abuseTimeWindowBlocks,
          eventBlockNumber);
      PromiseFromSteps(config, entry, transactionSuccess, eventBlockNumber, flagged, r, store.entries[paymaster]);
    }
  }

  function AfterAccepted(e: Entry, now: int): Entry { e.(lastAcceptedRelayRequestTs := now) }

  lemma SumOfOneMore(changes: seq<Change>, c: Change)
    ensures Sum(changes + [c]) == Sum(changes) + c.change
  {
    assert (changes + [c])[..|changes|] == changes;
  }

  // ---------- runs ----------

  datatype Event = Query(currentBlockNumber: int, now: int) | Accepted(now: int) | Outcome(transactionSuccess: bool,
                         eventBlockNumber: int)

  /** The entry, every change ever applied to it, and where its reputation started: at its creation or when an abuse
      flag was last cleared, with the number of changes applied by then. */
  datatype History = History(entry: Entry, applied: seq<Change>, start: int, startedAt: nat)

  function Created(config: Config): History
  {
    History(Entry(config.initialReputation, 0, 0, []), [], config.initialReputation, 0)
  }

  function Step(config: Config, h: History, e: Event): History
  {
    match e
    case Query(block, _) =>
      var entry := AfterQuery(config, h.entry, block);
      if entry == h.entry then h else h.(entry := entry, start := config.abuseTimeoutReputation,
          startedAt := |h.applied|)
    case Accepted(now) => h.(entry := AfterAccepted(h.entry, now))
    case Outcome(success, block) =>
      var entry := AfterOutcome(config, h.entry, success, block);
      if AboveMaximum(config, h.entry, success) then h
      else h.(entry := entry, applied := h.applied + [Change(block, Delta(success))])
  }

  function Run(config: Config, h: History, events: seq<Event>): History
  {
    if events == [] then h else Step(config, Run(config, h, events[..|events| - 1]), events[|events| - 1])
  }

  /** A history starts with a new entry, and each of its steps does to the entry what the operation does. */
  lemma StepIsTheOperation(config: Config, h: History, e: Event)
    ensures Created(config).entry == Found(config, map[], 0)
    ensures match e
            case Query(block, now) =>
              exists status :: StatusPromise(config, h.entry, block, now, status, Step(config, h, e).entry)
            case Accepted(now) => Step(config, h, e).entry == h.entry.(lastAcceptedRelayRequestTs := now)
            case Outcome(success, block) =>
              exists r :: OutcomePromise(config, h.entry, success, block, r, Step(config, h, e).entry)
  {
    match e
    case Query(block, now) =>
      StatusPromiseIff(config, h.entry, block, now, Status(config, h.entry, block, now), Step(config, h, e).entry);
    case Accepted(_) =>
    case Outcome(success, block) =>
      var r := if AboveMaximum(config, h.entry, success) || config.abuseTimeWindowBlocks > 0 then Success(())
               else Failure(InvalidChangeExpiration);
      OutcomePromiseIff(config, h.entry, success, block, r, Step(config, h, e).entry);
  }

  // ---------- what is left of the full history ----------

  lemma {:induction false} AfterAfter(changes: seq<Change>, limit: int, limit': int)
    ensures After(After(changes, limit), limit') == After(changes, if limit <= limit' then limit' else limit)
  {
    if changes != [] {
      var front, last := changes[..|changes| - 1], changes[|changes| - 1];
      AfterAfter(front, limit, limit');
      if last.blockNumber > limit {
        assert (After(front, limit) + [last])[..|After(front, limit)|] == After(front, limit);
      }
    }
  }

  lemma AfterOneMore(changes: seq<Change>, c: Change, limit: int)
    ensures After(changes + [c], limit) == After(changes, limit) + if c.blockNumber > limit then [c] else []
  {
    assert (changes + [c])[..|changes|] == changes;
  }

  /** No change falls between the two limits. */
  ghost predicate NoneBetween(changes: seq<Change>, limit: int, limit': int)
  {
    forall i :: 0 <= i < |changes| ==> !(limit < changes[i].blockNumber <= limit')
  }

  lemma {:induction false} AfterShrinks(changes: seq<Change>, limit: int, limit': int)
    requires limit <= limit'
    ensures |After(changes, limit')| <= |After(changes, limit)|
    ensures |After(changes, limit')| == |After(changes, limit)| <==> NoneBetween(changes, limit, limit')
    ensures NoneBetween(changes, limit, limit') <==> After(changes, limit') == After(changes, limit)
  {
    if changes != [] {
      var front := changes[..|changes| - 1];
      AfterShrinks(front, limit, limit');
      assert changes == front + [changes[|changes| - 1]];
      assert NoneBetween(changes, limit, limit') ==> NoneBetween(front, limit, limit');
    }
  }

  /** What is left when each change prunes those its own window no longer reaches. */
  function Kept(applied: seq<Change>, window: int): seq<Change>
  {
    if applied == [] then []
    else
      var last := applied[|applied| - 1];
      After(Kept(applied[..|applied| - 1], window) + [last], last.blockNumber - window)
  }

  lemma KeptOneMore(applied: seq<Change>, c: Change, window: int)
    ensures Kept(applied + [c], window) == After(Kept(applied, window) + [c], c.blockNumber - window)
  {
    assert (applied + [c])[..|applied|] == applied;
  }

  lemma AfterTwice(kept': seq<Change>, kept: seq<Change>, c: Change, pruned: int, limit: int)
    requires c.blockNumber > pruned && kept' == After(kept + [c], pruned)
    ensures After(kept', limit)
         == After(kept, if pruned <= limit then limit else pruned) + if c.blockNumber > limit then [c] else []
  {
    AfterAfter(kept + [c], pruned, limit);
    AfterOneMore(kept, c, if pruned <= limit then limit else pruned);
  }

  lemma {:induction false} AfterKept(applied: seq<Change>, c: Change, window: int, limit: int)
    requires window > 0
    ensures var pruned := c.blockNumber - window;
            After(Kept(applied + [c], window), limit)
            == After(Kept(applied, window), if pruned <= limit then limit else pruned)
               + if c.blockNumber > limit then [c] else []
  {
    KeptOneMore(applied, c, window);
    AfterTwice(Kept(applied + [c], window), Kept(applied, window), c, c.blockNumber - window, limit);
  }

  lemma {:induction false} KeptIsPart(applied: seq<Change>, window: int, limit: int)
    requires window > 0
    ensures |After(Kept(applied, window), limit)| <= |After(applied, limit)|
  {
    if applied != [] {
      var front, c := applied[..|applied| - 1], applied[|applied| - 1];
      var limit' := if c.blockNumber - window <= limit then limit else c.blockNumber - window;
      assert applied == front + [c];
      AfterKept(front, c, window, limit);
      KeptIsPart(front, window, limit');
      AfterShrinks(front, limit, limit');
      AfterOneMore(front, c, limit);
    }
  }

  /** No change above the limit is followed by one whose window does not reach back to it. */
  ghost predicate NoneForgotten(applied: seq<Change>, window: int, limit: int)
  {
    forall i, j :: 0 <= i < j < |applied| && applied[i].blockNumber > limit
        ==> applied[j].blockNumber - window < applied[i].blockNumber
  }

  lemma OneMoreForgets(applied: seq<Change>, c: Change, window: int, limit: int)
    ensures NoneForgotten(applied + [c], window, limit)
            <==> NoneForgotten(applied, window, limit) && NoneBetween(applied, limit, c.blockNumber - window)
  {
    var longer := applied + [c];
    if NoneForgotten(longer, window, limit) {
      forall i, j | 0 <= i < j < |applied| && applied[i].blockNumber > limit
        ensures applied[j].blockNumber - window < applied[i].blockNumber
      {
        assert longer[i] == applied[i] && longer[j] == applied[j];
      }
      forall i | 0 <= i < |applied| ensures !(limit < applied[i].blockNumber <= c.blockNumber - window) {
        assert longer[i] == applied[i] && longer[|applied|] == c;
      }
    }
  }

  /** A later limit asks less. */
  lemma SameForgotten(applied: seq<Change>, window: int, limit: int, limit': int)
    requires limit <= limit' && NoneBetween(applied, limit, limit')
    ensures NoneForgotten(applied, window, limit) <==> NoneForgotten(applied, window, limit')
  {
  }

  lemma {:induction false} KeptIff(applied: seq<Change>, window: int, limit: int)
    requires window > 0
    ensures After(Kept(applied, window), limit) == After(applied, limit) <==> NoneForgotten(applied, window, limit)
  {
    if applied != [] {
      var front, c := applied[..|applied| - 1], applied[|applied| - 1];
      assert applied == front + [c];
      KeptOneMoreIff(front, c, window, limit);
      OneMoreForgets(front, c, window, limit);
      var pruned := c.blockNumber - window;
      if pruned <= limit {
        KeptIff(front, window, limit);
      } else {
        KeptIff(front, window, pruned);
        if NoneBetween(front, limit, pruned) { SameForgotten(front, window, limit, pruned); }
      }
    }
  }

  /** One more change: what the others lose is what they had lost before and what this one prunes. */
  lemma KeptOneMoreIff(applied: seq<Change>, c: Change, window: int, limit: int)
    requires window > 0
    ensures var pruned := c.blockNumber - window;
            After(Kept(applied + [c], window), limit) == After(applied + [c], limit)
            <==> if pruned <= limit then After(Kept(applied, window), limit) == After(applied, limit)
                 else NoneBetween(applied, limit, pruned) &&
                      After(Kept(applied, window), pruned) == After(applied, pruned)
  {
    var pruned := c.blockNumber - window;
    var limit' := if pruned <= limit then limit else pruned;
    AfterKept(applied, c, window, limit);
    AfterOneMore(applied, c, limit);
    SameTail(After(Kept(applied, window), limit'), After(applied, limit), if c.blockNumber > limit then [c] else []);
    KeptIsPart(applied, window, limit');
    AfterShrinks(applied, limit, limit');
  }

  lemma SameTail(a: seq<Change>, b: seq<Change>, tail: seq<Change>)
    ensures a + tail == b + tail <==> a == b
  {
    if a + tail == b + tail { assert a == (a + tail)[..|a|] && b == (b + tail)[..|b|]; }
  }

  lemma OutcomeAdds(config: Config, h: History, success: bool, block: int)
    requires config.abuseTimeWindowBlocks > 0 && !AboveMaximum(config, h.entry, success)
    ensures var h' := Step(config, h, Outcome(success, block));
            && h'.applied == h.applied + [Change(block, Delta(success))]
            && h'.entry.changes == After(h.entry.changes + [Change(block, Delta(success))],
                block - config.abuseTimeWindowBlocks)
  {
  }

  lemma OutcomeKeeps(config: Config, h: History, h': History, c: Change)
    requires h.entry.changes == Kept(h.applied, config.abuseTimeWindowBlocks) && h'.applied == h.applied + [c]
    requires h'.entry.changes == After(h.entry.changes + [c], c.blockNumber - config.abuseTimeWindowBlocks)
    ensures h'.entry.changes == Kept(h'.applied, config.abuseTimeWindowBlocks)
  {
    KeptOneMore(h.applied, c, config.abuseTimeWindowBlocks);
  }

  lemma OthersKeep(config: Config, h: History, e: Event)
    requires e.Outcome? ==> AboveMaximum(config, h.entry, e.transactionSuccess)
    ensures Step(config, h, e).entry.changes == h.entry.changes && Step(config, h, e).applied == h.applied
  {
  }

  lemma StepKeeps(config: Config, h: History, e: Event)
    requires config.abuseTimeWindowBlocks > 0 && h.entry.changes == Kept(h.applied, config.abuseTimeWindowBlocks)
    ensures Step(config, h, e).entry.changes == Kept(Step(config, h, e).applied, config.abuseTimeWindowBlocks)
  {
    if e.Outcome? && !AboveMaximum(config, h.entry, e.transactionSuccess) {
      OutcomeAdds(config, h, e.transactionSuccess, e.eventBlockNumber);
      OutcomeKeeps(config, h, Step(config, h, e), Change(e.eventBlockNumber, Delta(e.transactionSuccess)));
    } else {
      OthersKeep(config, h, e);
    }
  }

  lemma {:induction false} ChangesAreKept(config: Config, events: seq<Event>)
    requires config.abuseTimeWindowBlocks > 0
    ensures var h := Run(config, Created(config), events);
            h.entry.changes == Kept(h.applied, config.abuseTimeWindowBlocks)
  {
    if events != [] {
      ChangesAreKept(config, events[..|events| - 1]);
      StepKeeps(config, Run(config, Created(config), events[..|events| - 1]), events[|events| - 1]);
    }
  }

  lemma {:induction false} ChangesOfHistory(config: Config, events: seq<Event>, h: History)
    requires config.abuseTimeWindowBlocks > 0 && h == Run(config, Created(config), events)
    ensures h.entry.changes == Kept(h.applied, config.abuseTimeWindowBlocks)
  {
    ChangesAreKept(config, events);
  }

  /** Whatever the order of the events: the window a decision looks at is the one of the full history exactly when no
      change in it was followed by one whose own window no longer reached it. */
  lemma WindowIsKeptIff(config: Config, events: seq<Event>, h: History, limit: int)
    requires config.abuseTimeWindowBlocks > 0 && h == Run(config, Created(config), events)
    ensures After(h.entry.changes, limit) == After(h.applied, limit) <==>
              NoneForgotten(h.applied, config.abuseTimeWindowBlocks, limit)
  {
    ChangesAreKept(config, events);
    KeptIff(h.applied, config.abuseTimeWindowBlocks, limit);
  }

  lemma SameDecision(config: Config, kept: seq<Change>, applied: seq<Change>, eventBlockNumber: int)
    requires After(kept, eventBlockNumber - config.abuseTimeWindowBlocks)
               == After(applied, eventBlockNumber - config.abuseTimeWindowBlocks)
    ensures Abuses(config, kept, eventBlockNumber) <==> Abuses(config, applied, eventBlockNumber)
  {
  }

  /** Then the abuse decision is the one the unpruned history would give. */
  lemma DecisionsAreThoseOfFullHistory(config: Config, events: seq<Event>, h: History, eventBlockNumber: int)
    requires config.abuseTimeWindowBlocks > 0 && h == Run(config, Created(config), events)
    requires NoneForgotten(h.applied, config.abuseTimeWindowBlocks, eventBlockNumber - config.abuseTimeWindowBlocks)
    ensures Abuses(config, h.entry.changes, eventBlockNumber) <==> Abuses(config, h.applied, eventBlockNumber)
  {
    WindowIsKeptIff(config, events, h, eventBlockNumber - config.abuseTimeWindowBlocks);
    SameDecision(config, h.entry.changes, h.applied, eventBlockNumber);
  }

  /** Event blocks so far do not fall, and the next one is not before them. */
  ghost predicate InOrder(applied: seq<Change>, eventBlockNumber: int)
  {
    && (forall i, j :: 0 <= i < j < |applied| ==> applied[i].blockNumber <= applied[j].blockNumber)
    && forall i :: 0 <= i < |applied| ==> applied[i].blockNumber <= eventBlockNumber
  }

  lemma InOrderForgetsNothing(applied: seq<Change>, window: int, eventBlockNumber: int)
    requires InOrder(applied, eventBlockNumber)
    ensures NoneForgotten(applied, window, eventBlockNumber - window)
  {
  }

  lemma {:induction false} KeptInOrder(applied: seq<Change>, changes: seq<Change>, window: int, eventBlockNumber: int)
    requires window > 0 && InOrder(applied, eventBlockNumber) && changes == Kept(applied, window)
    ensures After(changes, eventBlockNumber - window) == After(applied, eventBlockNumber - window)
  {
    InOrderForgetsNothing(applied, window, eventBlockNumber);
    KeptIff(applied, window, eventBlockNumber - window);
  }

  /** Events in order forget nothing. */
  lemma {:induction false} WindowIsKept(config: Config, events: seq<Event>, h: History, eventBlockNumber: int)
    requires config.abuseTimeWindowBlocks > 0 && h == Run(config, Created(config), events)
    requires InOrder(h.applied, eventBlockNumber)
    ensures NoneForgotten(h.applied, config.abuseTimeWindowBlocks, eventBlockNumber - config.abuseTimeWindowBlocks)
    ensures After(h.entry.changes, eventBlockNumber - config.abuseTimeWindowBlocks)
         == After(h.applied, eventBlockNumber - config.abuseTimeWindowBlocks)
  {
    var window := config.abuseTimeWindowBlocks;
    assert After(h.entry.changes, eventBlockNumber - window) == After(h.applied, eventBlockNumber - window) by {
      ChangesOfHistory(config, events, h);
      KeptInOrder(h.applied, h.entry.changes, window, eventBlockNumber);
    }
    InOrderForgetsNothing(h.applied, window, eventBlockNumber);
  }

  /** An example out of order: a later event prunes a failure that an earlier block's decision would have counted. */
  lemma LateEventsForget(h: History, config: Config)
    requires config.abuseReputationChange == 2 && config.abuseTimeWindowBlocks == 10 && config.maximumReputation >= 10
    requires h.entry.changes == h.applied == [] && h.entry.reputation == 6
    ensures var h' := Step(config, Step(config, h, Outcome(false, 100)), Outcome(false, 200));
            Abuses(config, h'.applied, 105) && !Abuses(config, h'.entry.changes, 105)
  {
    var a, b := Change(100, -1), Change(200, -1);
    var h1 := Step(config, h, Outcome(false, 100));
    OutcomeAdds(config, h, false, 100);
    OutcomeAdds(config, h1, false, 200);
    OneChange(a, 90);
    OneChange(a, 190);
    OneChange(b, 95);
    OneChange(a, 95);
    AfterOneMore([a], b, 190);
    AfterOneMore([a], b, 95);
    SumOfOneMore([a], b);
    assert [] + [a] == [a] && [] + [b] == [b];
  }

  lemma OneChange(c: Change, limit: int)
    ensures After([c], limit) == (if c.blockNumber > limit then [c] else []) && Sum([c]) == c.change
  {
    assert [c][..0] == [];
  }

  // ---------- accounting ----------

  ghost predicate AccountingInv(config: Config, h: History)
  {
    && h.startedAt <= |h.applied|
    && h.entry.reputation == h.start + Sum(h.applied[h.startedAt..])
    && (h.start <= config.maximumReputation ==> h.entry.reputation <= config.maximumReputation)
    && (h.start > config.maximumReputation ==> h.entry.reputation <= h.start)
    && (h.start == config.initialReputation || h.start == config.abuseTimeoutReputation)
  }

  lemma QueryAccounts(config: Config, h: History, block: int, now: int)
    requires AccountingInv(config, h)
    ensures AccountingInv(config, Step(config, h, Query(block, now)))
  {
    assert h.applied[|h.applied|..] == [];
  }

  lemma ChangeAccounts(config: Config, h: History, h': History, c: Change)
    requires AccountingInv(config, h) && h'.applied == h.applied + [c]
    requires h'.start == h.start && h'.startedAt == h.startedAt
    requires h'.entry.reputation == h.entry.reputation + c.change <= config.maximumReputation
    ensures AccountingInv(config, h')
  {
    assert (h.applied + [c])[h.startedAt..] == h.applied[h.startedAt..] + [c];
    SumOfOneMore(h.applied[h.startedAt..], c);
  }

  lemma OutcomeAccounts(config: Config, h: History, success: bool, block: int)
    requires config.abuseTimeWindowBlocks > 0 && AccountingInv(config, h)
    ensures AccountingInv(config, Step(config, h, Outcome(success, block)))
  {
    if !AboveMaximum(config, h.entry, success) {
      ChangeAccounts(config, h, Step(config, h, Outcome(success, block)), Change(block, Delta(success)));
    }
  }

  lemma StepAccounts(config: Config, h: History, e: Event)
    requires config.abuseTimeWindowBlocks > 0 && AccountingInv(config, h)
    ensures AccountingInv(config, Step(config, h, e))
  {
    match e
    case Query(block, now) => QueryAccounts(config, h, block, now);
    case Accepted(_) =>
    case Outcome(success, block) => OutcomeAccounts(config, h, success, block);
  }

  /** Reputation is its last starting value plus the changes applied since, and never above both that start and the
      maximum. */
  lemma {:induction false} ReputationAccounting(config: Config, events: seq<Event>)
    requires config.abuseTimeWindowBlocks > 0
    ensures AccountingInv(config, Run(config, Created(config), events))
  {
    if events != [] {
      ReputationAccounting(config, events[..|events| - 1]);
      StepAccounts(config, Run(config, Created(config), events[..|events| - 1]), events[|events| - 1]);
    }
  }

  /** With a timeout reputation within the maximum, reputation never exceeds the larger of the first value and the
      maximum. */
  lemma ReputationIsBounded(config: Config, events: seq<Event>)
    requires config.abuseTimeWindowBlocks > 0 && config.abuseTimeoutReputation <= config.maximumReputation
    ensures var r := Run(config, Created(config), events).entry.reputation;
            r <= config.maximumReputation || r <= config.initialReputation
  {
    ReputationAccounting(config, events);
  }

  // ---------- abuse ----------

  function Count(changes: seq<Change>, change: int): (n: nat)
    ensures n <= |changes|
  {
    if changes == [] then 0 else Count(changes[..|changes| - 1], change) + if changes[|changes| - 1].change == change
        then 1 else 0
  }

  predicate Units(changes: seq<Change>)
  {
    forall c :: c in changes ==> c.change == 1 || c.change == -1
  }

  lemma {:induction false} SumIsSuccessesMinusFailures(changes: seq<Change>)
    requires Units(changes)
    ensures Sum(changes) == Count(changes, 1) - Count(changes, -1)
  {
    if changes != [] { SumIsSuccessesMinusFailures(changes[..|changes| - 1]); }
  }

  lemma {:induction false} AfterAreUnits(changes: seq<Change>, limit: int)
    requires Units(changes)
    ensures Units(After(changes, limit))
  {
    if changes != [] { AfterAreUnits(changes[..|changes| - 1], limit); }
  }

  lemma {:induction false} AppliedAreUnits(config: Config, events: seq<Event>)
    ensures Units(Run(config, Created(config), events).applied)
  {
    if events != [] {
      AppliedAreUnits(config, events[..|events| - 1]);
      var h := Run(config, Created(config), events[..|events| - 1]);
      assert Run(config, Created(config), events) == Step(config, h, events[|events| - 1]);
    }
  }

  lemma AbusesIffFailures(config: Config, applied: seq<Change>, block: int)
    requires Units(applied)
    ensures var window := After(applied, block - config.abuseTimeWindowBlocks);
            Abuses(config, applied, block) <==> Count(window, -1) - Count(window, 1) >= config.abuseReputationChange
  {
    AfterAreUnits(applied, block - config.abuseTimeWindowBlocks);
    SumIsSuccessesMinusFailures(After(applied, block - config.abuseTimeWindowBlocks));
  }

  lemma FlagIffAbuses(config: Config, h: History, success: bool, block: int)
    requires config.abuseTimeWindowBlocks > 0 && !AboveMaximum(config, h.entry, success)
    ensures Step(config, h, Outcome(success, block)).entry.abuseStartedBlock
         == if Abuses(config, h.entry.changes, block) then block else h.entry.abuseStartedBlock
  {
  }

  /** The flag is set to the event's block exactly when, over the whole history, the failures of the last window
      exceed its successes by the configured change. */
  lemma FlagMeansFailures(config: Config, events: seq<Event>, h: History, success: bool, block: int)
    requires config.abuseTimeWindowBlocks > 0 && h == Run(config, Created(config), events)
               && !AboveMaximum(config, h.entry, success)
    requires NoneForgotten(h.applied, config.abuseTimeWindowBlocks, block - config.abuseTimeWindowBlocks)
    ensures var window := After(h.applied, block - config.abuseTimeWindowBlocks);
            Step(config, h, Outcome(success, block)).entry.abuseStartedBlock
            == if Count(window, -1) - Count(window, 1) >= config.abuseReputationChange then block
                else h.entry.abuseStartedBlock
  {
    FlagIffAbuses(config, h, success, block);
    DecisionsAreThoseOfFullHistory(config, events, h, block);
    AppliedAreUnits(config, events);
    AbusesIffFailures(config, h.applied, block);
  }

  /** The abuse period is `abuseTimeWindowBlocks` long, whatever `abuseBlacklistDurationBlocks` says. */
  lemma AbusePeriodIsTheWindow(config: Config, e: Entry, currentBlockNumber: int, now: int, duration: int)
    requires e.reputation > config.blockReputation && e.abuseStartedBlock != 0
    ensures Status(config, e, currentBlockNumber, now) == ABUSED <==>
              currentBlockNumber <= e.abuseStartedBlock + config.abuseTimeWindowBlocks
    ensures Status(config.(abuseBlacklistDurationBlocks := duration), e, currentBlockNumber, now)
              == Status(config, e, currentBlockNumber, now)
    ensures AfterQuery(config.(abuseBlacklistDurationBlocks := duration), e, currentBlockNumber)
              == AfterQuery(config, e, currentBlockNumber)
  {
  }

  /** Under the default configuration a flagged paymaster is no longer ABUSED 241 blocks later, though 6000 are
      documented. */
  lemma AbuseEndsEarly(e: Entry, now: int)
    requires e.reputation > 0 && e.abuseStartedBlock > 0
    ensures Status(DEFAULT_CONFIG, e, e.abuseStartedBlock + 241, now) != ABUSED
              && 241 < DEFAULT_CONFIG.abuseBlacklistDurationBlocks
    ensures AfterQuery(DEFAULT_CONFIG, e, e.abuseStartedBlock + 241).reputation == DEFAULT_CONFIG.abuseTimeoutReputation
  {
  }

  /** Clearing an expired flag and the throttling decision use different reputations: asking again may answer otherwise,
      exactly when the old and the reset reputation lie on different sides of the throttling bound. */
  lemma ThrottlingUsesTheOldReputation(config: Config, e: Entry, currentBlockNumber: int, now: int)
    requires e.reputation > config.blockReputation && e.abuseStartedBlock != 0
               && !InAbusePeriod(config, e, currentBlockNumber)
    requires config.abuseTimeoutReputation > config.blockReputation
    ensures var again := AfterQuery(config, e, currentBlockNumber);
            Status(config, e, currentBlockNumber, now) != Status(config, again, currentBlockNumber, now)
            <==> now - e.lastAcceptedRelayRequestTs <= config.throttleDelayMs
                 && (e.reputation < config.throttleReputation)
                    != (config.abuseTimeoutReputation < config.throttleReputation)
  {
  }

  // ---------- blocking ----------

  /** Without a successful relay a BLOCKED paymaster stays BLOCKED, whatever is asked, accepted or fails. */
  lemma {:induction false} OnlySuccessLiftsBlocked(config: Config, h: History, events: seq<Event>)
    requires h.entry.reputation <= config.blockReputation
    requires forall i :: 0 <= i < |events| ==> !(events[i].Outcome? && events[i].transactionSuccess)
    ensures Run(config, h, events).entry.reputation <= config.blockReputation
    ensures forall block, now :: Status(config, Run(config, h, events).entry, block, now) == BLOCKED
  {
    if events != [] {
      OnlySuccessLiftsBlocked(config, h, events[..|events| - 1]);
      assert !(events[|events| - 1].Outcome? && events[|events| - 1].transactionSuccess);
    }
  }
}
