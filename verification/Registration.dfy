/** The registration pass of a server (packages/relay/src/RegistrationManager.ts:151-411,
    packages/relay/src/RelayServer.ts:795-817). */
module Registration {
  import opened Outcomes
  import opened TxStore
  import opened ServerActions

  const ZERO_ADDRESS: Address := 0

  datatype Config = Config(
    managerAddress: Address, workerAddress: Address, hubAddress: Address, stakeManagerAddress: Address,
    registrarAddress: Address,
    ownerAddress: Address, url: nat, managerMinBalance: nat, minimumStake: nat, memory: Memory)

  datatype StakeEvent =
    | HubAuthorized(relayHub: Address) | HubUnauthorized(relayHub: Address, removalTime: nat)
    | OwnerSet | StakeAdded | StakeUnlocked | StakeWithdrawn

  datatype HubStatus = Staked | HubNotAuthorized | NotStaked

  /** What the chain answers when the stake is refreshed. */
  datatype StakeInfo = StakeInfo(stake: nat, withdrawTime: nat, owner: Address, onHub: HubStatus)

  /** Which balances pay for their own withdrawal. */
  datatype Funds = Funds(hubBalance: bool, workerBalance: bool, managerBalance: bool)

  datatype Flags = Flags(
    isOwnerSetOnStakeManager: bool, isHubAuthorized: bool, isStakeLocked: bool, ownerAddress: Option<Address>,
    stake: nat)

  // ---------- flags ----------

  /** The flags after a refresh, and whether it went through: a foreign owner is an error. */
  function AfterRefresh(config: Config, f: Flags, info: StakeInfo): (Flags, bool)
  {
    AfterOwnerAndStake(config, f.(isHubAuthorized := f.isHubAuthorized || info.onHub.Staked?), info)
  }

  function AfterOwnerAndStake(config: Config, f: Flags, info: StakeInfo): (Flags, bool)
  {
    var f1 := f.(isOwnerSetOnStakeManager := info.owner != ZERO_ADDRESS);
    if info.owner != ZERO_ADDRESS && info.owner != config.ownerAddress then (f1, false)
    else if info.stake == 0 then (f1, true)
    else (f1.(isStakeLocked := info.withdrawTime == 0, stake := info.stake,
              ownerAddress := if f.ownerAddress.None? then Some(info.owner) else f.ownerAddress), true)
  }

  function AfterStakeEvent(config: Config, f: Flags, e: StakeEvent, info: StakeInfo): (Flags, bool)
  {
    match e
    case HubAuthorized(hub) => (f.(isHubAuthorized := f.isHubAuthorized || hub == config.hubAddress), true)
    case HubUnauthorized(hub, _) => (f.(isHubAuthorized := f.isHubAuthorized && hub != config.hubAddress), true)
    case OwnerSet => AfterRefresh(config, f, info)
    case StakeAdded => AfterRefresh(config, f, info)
    case StakeUnlocked => AfterRefresh(config, f, info)
    case StakeWithdrawn =>
      var (f', ok) := AfterRefresh(config, f, info);
      (f', ok && f'.ownerAddress.Some?)
  }

  /** The first k events, up to the first that fails; `infos(i)` is what the chain answers at the i-th. */
  function AfterStakeEvents(config: Config, f: Flags, es: seq<StakeEvent>, infos: nat -> StakeInfo,
                            k: nat): (Flags, bool)
    requires k <= |es|
  {
    if k == 0 then (f, true)
    else
      var (f', ok) := AfterStakeEvents(config, f, es, infos, k - 1);
      if ok then AfterStakeEvent(config, f', es[k - 1], infos(k - 1)) else (f', false)
  }

  /** A refresh: a foreign owner is an error; without a stake nothing but the owner is noted; the first owner seen
      stays; an authorised hub is not forgotten. */
  lemma RefreshedFlags(config: Config, f: Flags, info: StakeInfo, after: Flags, ok: bool)
    requires AfterRefresh(config, f, info) == (after, ok)
    ensures ok <==> info.owner == 0 || info.owner == config.ownerAddress
    ensures after.isOwnerSetOnStakeManager == (info.owner != 0)
    ensures after.isHubAuthorized == (f.isHubAuthorized || info.onHub == Staked)
    ensures if ok && info.stake > 0
            then && after.isStakeLocked == (info.withdrawTime == 0) && after.stake == info.stake
                 && after.ownerAddress == (if f.ownerAddress == None then Some(info.owner) else f.ownerAddress)
            else && after.isStakeLocked == f.isStakeLocked && after.stake == f.stake
                 && after.ownerAddress == f.ownerAddress
  {
  }

  /** The hub is authorised after an event that says so, or a refresh that finds it staked, and no longer after its
      removal; a withdrawn stake needs an owner to send the funds to. */
  lemma FlagsAfterStakeEvent(config: Config, f: Flags, e: StakeEvent, info: StakeInfo, after: Flags, ok: bool)
    requires AfterStakeEvent(config, f, e, info) == (after, ok)
    ensures match e
            case HubAuthorized(hub) =>
              ok && after == f.(isHubAuthorized := hub == config.hubAddress || f.isHubAuthorized)
            case HubUnauthorized(hub, _) =>
              ok && after == f.(isHubAuthorized := hub != config.hubAddress && f.isHubAuthorized)
            case StakeWithdrawn =>
              && after.isHubAuthorized == (f.isHubAuthorized || info.onHub == Staked)
              && (ok <==> (info.owner == 0 || info.owner == config.ownerAddress) && after.ownerAddress != None)
            case _ => (after, ok) == AfterRefresh(config, f, info)
    ensures e.StakeWithdrawn? ==> after == AfterRefresh(config, f, info).0
  {
  }

  // ---------- delayed events ----------

  function Unauthorized(config: Config, es: seq<StakeEvent>): (times: seq<nat>)
  {
    if es == [] then []
    else
      var last := es[|es| - 1];
      Unauthorized(config, es[..|es| - 1])
      + if last.HubUnauthorized? && last.relayHub == config.hubAddress then [last.removalTime] else []
  }

  function Due(delayed: seq<nat>, now: nat): seq<nat>
  {
    if delayed == [] then [] else (if delayed[0] <= now then [delayed[0]] else []) + Due(delayed[1..], now)
  }

  function NotDue(delayed: seq<nat>, now: nat): seq<nat>
  {
    if delayed == [] then [] else (if delayed[0] > now then [delayed[0]] else []) + NotDue(delayed[1..], now)
  }

  /** Every delayed event is taken out once, when due, and none is lost. */
  lemma {:induction false} DuePartitions(delayed: seq<nat>, now: nat)
    ensures multiset(Due(delayed, now)) + multiset(NotDue(delayed, now)) == multiset(delayed)
    ensures (forall t :: t in Due(delayed, now) ==> t <= now) && forall t :: t in NotDue(delayed, now) ==> t > now
  {
    if delayed != [] {
      DuePartitions(delayed[1..], now);
      assert delayed == [delayed[0]] + delayed[1..];
    }
  }

  /** Both parts keep the order of the delayed events: one that comes last stays last. */
  lemma {:induction false} DueInOrder(delayed: seq<nat>, t: nat, now: nat)
    ensures Due(delayed + [t], now) == if t <= now then Due(delayed, now) + [t] else Due(delayed, now)
  {
    if delayed != [] {
      var first, rest := if delayed[0] <= now then [delayed[0]] else [], Due(delayed[1..], now);
      DueInOrder(delayed[1..], t, now);
      assert (delayed + [t])[0] == delayed[0] && (delayed + [t])[1..] == delayed[1..] + [t];
      assert first + (rest + [t]) == first + rest + [t];
    }
  }

  lemma {:induction false} NotDueInOrder(delayed: seq<nat>, t: nat, now: nat)
    ensures NotDue(delayed + [t], now) == if t <= now then NotDue(delayed, now) else NotDue(delayed, now) + [t]
  {
    if delayed != [] {
      var first, rest := if delayed[0] > now then [delayed[0]] else [], NotDue(delayed[1..], now);
      NotDueInOrder(delayed[1..], t, now);
      assert (delayed + [t])[0] == delayed[0] && (delayed + [t])[1..] == delayed[1..] + [t];
      assert first + (rest + [t]) == first + rest + [t];
    }
  }

  // ---------- traces ----------

  function Sends(events: seq<Event>, action: ServerAction): nat
  {
    if events == [] then 0
    else Sends(events[..|events| - 1], action)
         + if events[|events| - 1].Send? && events[|events| - 1].t.serverAction == action then 1 else 0
  }

  lemma {:induction false} SendsConcat(a: seq<Event>, b: seq<Event>, action: ServerAction)
    ensures Sends(a + b, action) == Sends(a, action) + Sends(b, action)
  {
    if b == [] {
      assert a + b == a;
    } else {
      SendsConcat(a, b[..|b| - 1], action);
      assert (a + b)[..|a + b| - 1] == a + b[..|b| - 1];
    }
  }

  /** With a store that keeps transactions long enough, no guarded action was repeated so far. */
  ghost predicate NothingRepeated(memory: Memory, atStart: World, trace: seq<Event>, world: World)
  {
    KeepsLongEnough(memory) ==> Inv(memory, atStart) && Inv(memory, world) && NeverRepeats(memory, atStart, trace)
  }

  lemma MoreOfARun(memory: Memory, atStart: World, trace: seq<Event>, world: World, events: seq<Event>, world': World)
    requires StoreInv(memory, world) && Run(memory, atStart, trace, world) && Run(memory, world, events, world')
    requires NothingRepeated(memory, atStart, trace, world)
    ensures StoreInv(memory, world') && Run(memory, atStart, trace + events, world')
    ensures NothingRepeated(memory, atStart, trace + events, world')
  {
    RunKeepsStore(memory, world, events, world');
    RunsCompose(memory, atStart, trace, world, events, world');
    if KeepsLongEnough(memory) {
      NoActionIsRepeated(memory, world, events, world');
      NoActionIsRepeated(memory, atStart, trace + events, world');
    }
  }

  class RegistrationManager {
    const config: Config
    var flags: Flags
    var balance: nat
    var delayedEvents: seq<nat>
    var currentRelayInfo: Option<nat>
    var world: World
    var nonce: nat
    /** What this pass has asked of the store and sent. */
    ghost var trace: seq<Event>
    ghost var atStart: World

    ghost predicate Valid()
      reads this`world, this`nonce, this`trace, this`atStart
    {
      && StoreInv(config.memory, world) && (forall k :: k in world.all ==> k.nonce < nonce)
      && Run(config.memory, atStart, trace, world) && NothingRepeated(config.memory, atStart, trace, world)
    }

    constructor (config: Config, balance: nat, world: World, nonce: nat)
      requires StoreInv(config.memory, world) && world.cleared == {}
      requires forall k :: k in world.all ==> k.nonce < nonce
      ensures Valid() && this.config == config && this.world == world && trace == [] && delayedEvents == []
      ensures flags == Flags(false, false, false, None, 0)
    {
      this.config, this.balance, this.world, this.nonce := config, balance, world, nonce;
      flags := Flags(false, false, false, None, 0);
      delayedEvents, currentRelayInfo, trace, atStart := [], None, [], world;
    }

    /** One question to the store or one transaction. */
    method Do(e: Event)
      requires Valid() && Allowed(world, e) && (e.Ask? || (e.Send? && e.t.Key().nonce == nonce))
      modifies this`world, this`nonce, this`trace
      ensures Valid() && world == Step(config.memory, old(world), e) && trace == old(trace) + [e]
      ensures forall a :: Sends(trace, a) == Sends(old(trace), a) + if e.Send? && e.t.serverAction == a then 1 else 0
    {
      assert (trace + [e])[..|trace|] == trace;
      OneEvent(config.memory, world, e);
      MoreOfARun(config.memory, atStart, trace, world, [e], Step(config.memory, world, e));
      world := Step(config.memory, world, e);
      if e.Send? { nonce := nonce + 1; }
      trace := trace + [e];
    }

    /** What the rest of the server does between passes: relaying, resending, filling in, pruning, waiting for the
        next block. */
    method Meanwhile(events: seq<Event>, world': World, nonce': nat)
      requires Valid() && Run(config.memory, world, events, world') && forall k :: k in world'.all ==> k.nonce < nonce'
      modifies this`world, this`nonce, this`trace
      ensures Valid() && world == world' && nonce == nonce' && trace == old(trace) + events
    {
      MoreOfARun(config.memory, atStart, trace, world, events, world');
      world, nonce := world', nonce';
      trace := trace + events;
    }

    method IsActionPendingOrRecentlyMined(action: ServerAction) returns (pending: bool)
      requires Valid()
      modifies this`world, this`nonce, this`trace
      ensures Valid() && pending == IsPending(old(world), action) && OnlyAdds(old(trace), trace, multiset{})
      ensures world == Step(config.memory, old(world), Ask(action)) && trace == old(trace) + [Ask(action)]
    {
      pending := IsPending(world, action);
      Do(Ask(action));
    }

    function IsPending(w: World, action: ServerAction): bool
    {
      Pending(config.memory, w.db, action, w.block)
    }

    /** The registration answer stands, and so does the permission to register. */
    twostate predicate KeepsRegistration()
      reads this`world
    {
      && world.block == old(world).block
      && IsPending(world, REGISTER_SERVER) == IsPending(old(world), REGISTER_SERVER)
      && (REGISTER_SERVER in old(world).cleared ==> REGISTER_SERVER in world.cleared)
    }

    /** Who signs a transaction of this manager, and where it goes. */
    ghost predicate Addressed(action: ServerAction, signer: Address, destination: Address)
      reads this`flags
    {
      match action
      case REGISTER_SERVER => signer == config.managerAddress && destination == config.registrarAddress
      case AUTHORIZE_HUB => signer == config.managerAddress && destination == config.stakeManagerAddress
      case SET_OWNER => signer == config.managerAddress && destination == config.stakeManagerAddress
      case ADD_WORKER => signer == config.managerAddress && destination == config.hubAddress
      case DEPOSIT_WITHDRAWAL => signer == config.managerAddress && destination == config.hubAddress
      case VALUE_TRANSFER =>
        (signer == config.managerAddress || signer == config.workerAddress) && flags.ownerAddress == Some(destination)
      case _ => false
    }

    method SendTransaction(action: ServerAction, signer: Address, destination: Address)
      requires Addressed(action, signer, destination)
      requires Valid() && (Guarded(action) ==> action in world.cleared)
                 && (action == SET_OWNER ==> !world.setOwnerCalled)
      modifies this`world, this`nonce, this`trace
      ensures Valid() && OnlyAdds(old(trace), trace, multiset{action})
      ensures action != REGISTER_SERVER ==> KeepsRegistration()
      ensures world.block == old(world).block
      ensures trace != [] && trace[..|trace| - 1] == old(trace)
      ensures var e := trace[|trace| - 1];
              && e.Send? && e.t.serverAction == action && e.t.tx.from == signer && e.t.tx.to == destination
              && e.t.creationBlock.number == old(world).block && e.t.attempts == 1
      ensures world.cleared == old(world).cleared - {action}
      ensures world.setOwnerCalled == (old(world).setOwnerCalled || action == SET_OWNER)
    {
      var block := ShortBlockInfo(world.block, 0);
      var t := StoredTransaction(SignedTx(FeeMarket, signer, destination, 0, 0, [], 0, 0, nonce), 1, action, block,
          None, None);
      assert t.Key() !in world.all;
      if action != REGISTER_SERVER { OtherAnswersStand(config.memory, world, t, REGISTER_SERVER); }
      Do(Send(t));
    }

    /** The hub is authorised only if that is not pending already. */
    method AuthorizeHub()
      requires Valid()
      modifies this`world, this`nonce, this`trace
      ensures Valid() && KeepsRegistration() && world.setOwnerCalled == old(world).setOwnerCalled
      ensures OnlyAdds(old(trace), trace, if IsPending(old(world), AUTHORIZE_HUB) then multiset{}
                else multiset{AUTHORIZE_HUB})
    {
      var isAuthorizePending := IsActionPendingOrRecentlyMined(AUTHORIZE_HUB);
      if !isAuthorizePending { SendTransaction(AUTHORIZE_HUB, config.managerAddress, config.stakeManagerAddress); }
    }

    method RefreshStake(info: StakeInfo) returns (ok: bool)
      requires Valid()
      modifies this`flags, this`world, this`nonce, this`trace
      ensures Valid() && KeepsRegistration() && (flags, ok) == AfterRefresh(config, old(flags), info)
      ensures world.setOwnerCalled == old(world).setOwnerCalled
      ensures OnlyAdds(old(trace), trace, if info.onHub.HubNotAuthorized? && !IsPending(old(world), AUTHORIZE_HUB)
                then multiset{AUTHORIZE_HUB} else multiset{})
    {
      if info.onHub.Staked? {
        flags := flags.(isHubAuthorized := true);
      } else if info.onHub.HubNotAuthorized? {
        AuthorizeHub();
      }
      ok := RefreshOwnerAndStake(info);
    }

    method RefreshOwnerAndStake(info: StakeInfo) returns (ok: bool)
      modifies this`flags
      ensures (flags, ok) == AfterOwnerAndStake(config, old(flags), info)
    {
      flags := flags.(isOwnerSetOnStakeManager := info.owner != ZERO_ADDRESS);
      if flags.isOwnerSetOnStakeManager && info.owner != config.ownerAddress { return false; }
      if info.stake == 0 { return true; }
      flags := flags.(isStakeLocked := info.withdrawTime == 0, stake := info.stake);
      if flags.ownerAddress.None? { flags := flags.(ownerAddress := Some(info.owner)); }
      return true;
    }

    /** Everything that pays for its own transfer goes to the owner. */
    method WithdrawAllFunds(withdrawManager: bool, funds: Funds) returns (ok: bool)
      requires Valid()
      modifies this`world, this`nonce, this`trace
      ensures Valid() && KeepsRegistration() && ok == flags.ownerAddress.Some?
      ensures world.setOwnerCalled == old(world).setOwnerCalled
      ensures OnlyAdds(old(trace), trace, if ok then Withdrawals(withdrawManager, funds) else multiset{})
    {
      if flags.ownerAddress.None? { return false; }
      ghost var t0 := trace;
      SendBalance(funds.hubBalance, DEPOSIT_WITHDRAWAL, config.managerAddress, config.hubAddress);
      ghost var t1 := trace;
      SendBalance(funds.workerBalance, VALUE_TRANSFER, config.workerAddress, flags.ownerAddress.value);
      AddsUp(t0, t1, trace, Withdrawal(funds.hubBalance, DEPOSIT_WITHDRAWAL),
          Withdrawal(funds.workerBalance, VALUE_TRANSFER));
      ghost var t2 := trace;
      SendBalance(withdrawManager && funds.managerBalance, VALUE_TRANSFER, config.managerAddress,
          flags.ownerAddress.value);
      AddsUp(t0, t2, trace, Withdrawal(funds.hubBalance, DEPOSIT_WITHDRAWAL)
          + Withdrawal(funds.workerBalance, VALUE_TRANSFER),
             Withdrawal(withdrawManager && funds.managerBalance, VALUE_TRANSFER));
      return true;
    }

    method SendBalance(paysForItself: bool, action: ServerAction, signer: Address, destination: Address)
      requires Valid() && (action == DEPOSIT_WITHDRAWAL || action == VALUE_TRANSFER)
      requires Addressed(action, signer, destination)
      modifies this`world, this`nonce, this`trace
      ensures Valid() && KeepsRegistration() && world.setOwnerCalled == old(world).setOwnerCalled
      ensures OnlyAdds(old(trace), trace, Withdrawal(paysForItself, action))
    {
      if paysForItself { SendTransaction(action, signer, destination); }
    }

    method AddWorkerIfNeeded(workersAdded: bool)
      requires Valid()
      modifies this`world, this`nonce, this`trace
      ensures Valid() && KeepsRegistration() && world.setOwnerCalled == old(world).setOwnerCalled
      ensures OnlyAdds(old(trace), trace,
                if workersAdded || IsPending(old(world), ADD_WORKER) then multiset{} else multiset{ADD_WORKER})
    {
      var addWorkersPending := IsActionPendingOrRecentlyMined(ADD_WORKER);
      if !(workersAdded || addWorkersPending) { SendTransaction(ADD_WORKER, config.managerAddress, config.hubAddress); }
    }

    /** What the chain answers while registering: staked on the hub, worker already added, and a further refresh. */
    method AttemptRegistration(isStaked: bool, workersAdded: bool, info: StakeInfo,
                               newBalance: nat) returns (registered: bool, ok: bool)
      requires Valid() && REGISTER_SERVER in world.cleared
      modifies this`flags, this`balance, this`world, this`nonce, this`trace
      ensures Valid() && world.setOwnerCalled == old(world).setOwnerCalled && world.block == old(world).block
      ensures registered <==>
                && old(flags).isHubAuthorized && old(flags).isStakeLocked && isStaked
                && old(flags).stake >= config.minimumStake && old(balance) >= config.managerMinBalance
      ensures Sends(trace, REGISTER_SERVER) == Sends(old(trace), REGISTER_SERVER) + if registered then 1 else 0
      ensures Sends(trace, SET_OWNER) == Sends(old(trace), SET_OWNER)
      ensures registered ==> ok && OnlyAdds(old(trace), trace,
                multiset{REGISTER_SERVER} + if workersAdded || IsPending(old(world), ADD_WORKER) then multiset{}
                    else multiset{ADD_WORKER})
      ensures if registered then flags == old(flags) else (flags, ok) == AfterRefresh(config, old(flags), info)
      ensures balance == if registered || !ok then old(balance) else newBalance
      ensures !registered ==> OnlyAdds(old(trace), trace,
                if info.onHub.HubNotAuthorized? && !IsPending(old(world), AUTHORIZE_HUB) then multiset{AUTHORIZE_HUB}
                    else multiset{})
    {
      var stakeIsEnough := flags.stake >= config.minimumStake;
      var balanceIsEnough := balance >= config.managerMinBalance;
      if !(flags.isHubAuthorized && flags.isStakeLocked && stakeIsEnough && balanceIsEnough && isStaked) {
        ok := RefreshStake(info);
        if ok { balance := newBalance; }
        return false, ok;
      }
      AddWorkerIfNeeded(workersAdded);
      SendTransaction(REGISTER_SERVER, config.managerAddress, config.registrarAddress);
      return true, true;
    }

    /** Registration has expired and none is under way. */
    method ShouldRegisterAgain(lastSeenTimestamp: nat, maxAge: nat, currentBlockTimestamp: nat) returns (again: bool)
      requires Valid()
      modifies this`world, this`nonce, this`trace
      ensures Valid() && KeepsRegistration()
      ensures again == (currentBlockTimestamp - lastSeenTimestamp >= maxAge && !IsPending(old(world), REGISTER_SERVER))
      ensures again ==> REGISTER_SERVER in world.cleared
      ensures OnlyAdds(old(trace), trace, multiset{})
    {
      var isPendingRegistration := IsActionPendingOrRecentlyMined(REGISTER_SERVER);
      again := currentBlockTimestamp - lastSeenTimestamp >= maxAge && !isPendingRegistration;
    }

    method ExtractDuePendingEvents(now: nat) returns (due: seq<nat>)
      modifies this`delayedEvents
      ensures due == Due(old(delayedEvents), now) && delayedEvents == NotDue(old(delayedEvents), now)
    {
      due := Due(delayedEvents, now);
      delayedEvents := NotDue(delayedEvents, now);
    }

    method SetOwnerIfNeeded()
      requires Valid()
      modifies this`world, this`nonce, this`trace
      ensures Valid() && KeepsRegistration()
      ensures OnlyAdds(old(trace), trace,
                if !old(flags).isOwnerSetOnStakeManager && old(balance) >= config.managerMinBalance
                   && !old(world).setOwnerCalled
                then multiset{SET_OWNER} else multiset{})
      ensures world.setOwnerCalled ==
                (old(world).setOwnerCalled
                 || (!old(flags).isOwnerSetOnStakeManager && old(balance) >= config.managerMinBalance))
    {
      if !flags.isOwnerSetOnStakeManager && balance >= config.managerMinBalance && !world.setOwnerCalled {
        SendTransaction(SET_OWNER, config.managerAddress, config.stakeManagerAddress);
      }
    }

    method HandleStakeEvent(e: StakeEvent, info: StakeInfo, funds: Funds) returns (ok: bool)
      requires Valid()
      modifies this`flags, this`delayedEvents, this`world, this`nonce, this`trace
      ensures Valid() && KeepsRegistration() && SameSends(old(trace), trace)
      ensures (flags, ok) == AfterStakeEvent(config, old(flags), e, info)
      ensures delayedEvents == old(delayedEvents) + if e.HubUnauthorized? && e.relayHub == config.hubAddress
                then [e.removalTime] else []
    {
      match e
      case HubAuthorized(hub) =>
        if hub == config.hubAddress { flags := flags.(isHubAuthorized := true); }
        ok := true;
      case HubUnauthorized(hub, removalTime) =>
        HandleHubUnauthorized(hub, removalTime);
        ok := true;
      case OwnerSet => ok := HandleStakeChange(info);
      case StakeAdded => ok := HandleStakeChange(info);
      case StakeUnlocked => ok := HandleStakeChange(info);
      case StakeWithdrawn => ok := HandleStakeWithdrawn(info, funds);
    }

    method HandleStakeWithdrawn(info: StakeInfo, funds: Funds) returns (ok: bool)
      requires Valid()
      modifies this`flags, this`world, this`nonce, this`trace
      ensures Valid() && KeepsRegistration() && SameSends(old(trace), trace)
      ensures (flags, ok) == AfterStakeEvent(config, old(flags), StakeWithdrawn, info)
      // the manager's balance goes too
      ensures OnlyAdds(old(trace), trace, HubSends(old(world), info)
                + if ok then Withdrawals(true, funds) else multiset{})
    {
      var refreshed := HandleStakeChange(info);
      ghost var before := trace;
      ok := refreshed;
      if refreshed { ok := WithdrawToOwner(true, funds); }
      AddsUp(old(trace), before, trace, HubSends(old(world), info),
          if ok then Withdrawals(true, funds) else multiset{});
    }

    /** A refresh authorises the hub where it is not and nothing is pending. */
    function HubSends(w: World, info: StakeInfo): multiset<ServerAction>
    {
      if info.onHub.HubNotAuthorized? && !IsPending(w, AUTHORIZE_HUB) then multiset{AUTHORIZE_HUB} else multiset{}
    }

    /** Withdrawals are no registration, worker or owner transactions. */
    method WithdrawToOwner(withdrawManager: bool, funds: Funds) returns (ok: bool)
      requires Valid()
      modifies this`world, this`nonce, this`trace
      ensures Valid() && KeepsRegistration() && SameSends(old(trace), trace) && ok == flags.ownerAddress.Some?
      ensures OnlyAdds(old(trace), trace, if ok then Withdrawals(withdrawManager, funds) else multiset{})
    {
      ok := WithdrawAllFunds(withdrawManager, funds);
      NoneOfThese(old(trace), trace, if ok then Withdrawals(withdrawManager, funds) else multiset{});
    }

    method HandleHubUnauthorized(hub: Address, removalTime: nat)
      modifies this`flags, this`delayedEvents
      ensures flags == old(flags).(isHubAuthorized := old(flags).isHubAuthorized && hub != config.hubAddress)
      ensures delayedEvents == old(delayedEvents) + if hub == config.hubAddress then [removalTime] else []
    {
      if hub == config.hubAddress {
        flags := flags.(isHubAuthorized := false);
        delayedEvents := delayedEvents + [removalTime];
      }
    }

    method HandleStakeChange(info: StakeInfo) returns (ok: bool)
      requires Valid()
      modifies this`flags, this`world, this`nonce, this`trace
      ensures Valid() && KeepsRegistration() && SameSends(old(trace), trace)
      ensures (flags, ok) == AfterRefresh(config, old(flags), info)
      ensures OnlyAdds(old(trace), trace, HubSends(old(world), info))
    {
      ok := RefreshStake(info);
      NoneOfThese(old(trace), trace, HubSends(old(world), info));
    }

    method HandleStakeEvents(a: Answers) returns (ok: bool)
      requires Valid()
      modifies this`flags, this`delayedEvents, this`world, this`nonce, this`trace
      ensures Valid() && KeepsRegistration() && SameSends(old(trace), trace)
      ensures (flags, ok) == AfterStakeEvents(config, old(flags), a.stakeEvents, a.infos, |a.stakeEvents|)
      ensures ok ==> delayedEvents == old(delayedEvents) + Unauthorized(config, a.stakeEvents)
    {
      ok := true;
      for i := 0 to |a.stakeEvents|
        invariant Valid() && KeepsRegistration() && SameSends(old(trace), trace) && ok
        invariant (flags, true) == AfterStakeEvents(config, old(flags), a.stakeEvents, a.infos, i)
        invariant delayedEvents == old(delayedEvents) + Unauthorized(config, a.stakeEvents[..i])
      {
        assert a.stakeEvents[..i + 1][..i] == a.stakeEvents[..i];
        ok := HandleStakeEvent(a.stakeEvents[i], a.infos(i), a.funds(i));
        if !ok {
          StopsAtFailure(config, old(flags), a.stakeEvents, a.infos, i + 1, |a.stakeEvents|);
          return;
        }
      }
      assert a.stakeEvents[..|a.stakeEvents|] == a.stakeEvents;
    }

    method HandleDueEvents(due: seq<nat>, a: Answers) returns (ok: bool)
      requires Valid()
      modifies this`world, this`nonce, this`trace
      ensures Valid() && KeepsRegistration() && SameSends(old(trace), trace)
      ensures ok == (due == [] || flags.ownerAddress.Some?)
      // the manager's balance stays
      ensures ok ==>
                && Sends(trace, VALUE_TRANSFER)
                     == Sends(old(trace), VALUE_TRANSFER) + WorkerTransfers(a.dueFunds, |due|)
                && Sends(trace, DEPOSIT_WITHDRAWAL)
                     == Sends(old(trace), DEPOSIT_WITHDRAWAL) + DepositWithdrawals(a.dueFunds, |due|)
    {
      for i := 0 to |due|
        invariant Valid() && KeepsRegistration() && SameSends(old(trace), trace)
        invariant i > 0 ==> flags.ownerAddress.Some?
        invariant Sends(trace, VALUE_TRANSFER) == Sends(old(trace), VALUE_TRANSFER) + WorkerTransfers(a.dueFunds, i)
        invariant Sends(trace, DEPOSIT_WITHDRAWAL)
                    == Sends(old(trace), DEPOSIT_WITHDRAWAL) + DepositWithdrawals(a.dueFunds, i)
      {
        ghost var before := trace;
        ok := WithdrawToOwner(false, a.dueFunds(i));
        if !ok { return; }
        WithdrawalsCount(before, trace, a.dueFunds(i));
      }
      ok := true;
    }

    /** The stake manager's events in order, then the hub removals that are due. */
    method HandleEvents(a: Answers) returns (ok: bool)
      requires Valid()
      modifies this`flags, this`delayedEvents, this`world, this`nonce, this`trace
      ensures Valid() && KeepsRegistration() && SameSends(old(trace), trace)
      ensures var (f, handled) := AfterStakeEvents(config, old(flags), a.stakeEvents, a.infos, |a.stakeEvents|);
              var all := old(delayedEvents) + Unauthorized(config, a.stakeEvents);
              && flags == f && (handled ==> delayedEvents == NotDue(all, a.timestamp))
              && ok == (handled && (Due(all, a.timestamp) == [] || f.ownerAddress.Some?))
    {
      ok := HandleStakeEvents(a);
      if !ok { return; }
      var due := ExtractDuePendingEvents(a.timestamp);
      ok := HandleDueEvents(due, a);
    }

    method RegisterIfNeeded(forceRegistration: bool, a: Answers) returns (ok: bool)
      requires Valid() && (forceRegistration ==> REGISTER_SERVER in world.cleared)
      modifies this`flags, this`balance, this`currentRelayInfo, this`world, this`nonce, this`trace
      ensures Valid() && currentRelayInfo == a.relayInfo && world.setOwnerCalled == old(world).setOwnerCalled
      ensures Sends(trace, SET_OWNER) == Sends(old(trace), SET_OWNER)
      // only the refresh made instead of a registration can fail
      ensures !ok <==>
                && (forceRegistration || (!IsPending(old(world), REGISTER_SERVER) && a.relayInfo != Some(config.url)))
                && !PrerequisitesOk(config, old(flags), old(balance), a.isStaked)
                && !AfterRefresh(config, old(flags), a.lastInfo).1
      ensures Sends(trace, REGISTER_SERVER) == Sends(old(trace), REGISTER_SERVER) +
                if (forceRegistration || (!IsPending(old(world), REGISTER_SERVER) && a.relayInfo != Some(config.url)))
                   && PrerequisitesOk(config, old(flags), old(balance), a.isStaked) then 1 else 0
    {
      currentRelayInfo := a.relayInfo;
      var isRegistrationCorrect := currentRelayInfo == Some(config.url);
      var isRegistrationPending := IsActionPendingOrRecentlyMined(REGISTER_SERVER);
      ok := true;
      if !(isRegistrationPending || isRegistrationCorrect) || forceRegistration {
        var registered;
        registered, ok := AttemptRegistration(a.isStaked, a.workersAdded, a.lastInfo, a.lastBalance);
      }
    }

    /** One pass over the stake manager's events: the owner first, then every event in order, then the hub removals
        that are due, then registration. A failure ends the pass where it happens. */
    method HandlePastEvents(forceRegistration: bool, a: Answers) returns (ok: bool)
      requires Valid() && (forceRegistration ==> REGISTER_SERVER in world.cleared)
      modifies this`flags, this`balance, this`delayedEvents, this`currentRelayInfo, this`world, this`nonce, this`trace
      ensures Valid()
      ensures Sends(trace, SET_OWNER) == Sends(old(trace), SET_OWNER)
                + if !old(flags).isOwnerSetOnStakeManager && old(balance) >= config.managerMinBalance
                     && !old(world).setOwnerCalled then 1 else 0
      ensures var (f, handled) := AfterStakeEvents(config, old(flags), a.stakeEvents, a.infos, |a.stakeEvents|);
              var all := old(delayedEvents) + Unauthorized(config, a.stakeEvents);
              && (handled ==> delayedEvents == NotDue(all, a.timestamp))
              && Sends(trace, REGISTER_SERVER) == Sends(old(trace), REGISTER_SERVER) +
                   if handled && (Due(all, a.timestamp) == [] || f.ownerAddress.Some?)
                      && (forceRegistration
                          || (!IsPending(old(world), REGISTER_SERVER) && a.relayInfo != Some(config.url)))
                      && PrerequisitesOk(config, f, old(balance), a.isStaked) then 1 else 0
    {
      SetOwnerIfNeeded();
      ok := HandleEvents(a);
      if ok { ok := RegisterIfNeeded(forceRegistration, a); }
    }

    /** A pass of the worker: registration is forced when it expired and none is under way. */
    method HandleChanges(lastSeenTimestamp: nat, maxAge: nat, a: Answers) returns (ok: bool)
      requires Valid()
      modifies this
      ensures Valid()
      ensures var (f, handled) := AfterStakeEvents(config, old(flags), a.stakeEvents, a.infos, |a.stakeEvents|);
              var all := old(delayedEvents) + Unauthorized(config, a.stakeEvents);
              Sends(trace, REGISTER_SERVER) == Sends(old(trace), REGISTER_SERVER) +
                if handled && (Due(all, a.timestamp) == [] || f.ownerAddress.Some?)
                   && !IsPending(old(world), REGISTER_SERVER)
                   && (a.timestamp - lastSeenTimestamp >= maxAge || a.relayInfo != Some(config.url))
                   && PrerequisitesOk(config, f, old(balance), a.isStaked) then 1 else 0
      ensures IsPending(old(world), REGISTER_SERVER) ==>
                Sends(trace, REGISTER_SERVER) == Sends(old(trace), REGISTER_SERVER)
    {
      var again := ShouldRegisterAgain(lastSeenTimestamp, maxAge, a.timestamp);
      ok := HandlePastEvents(again, a);
    }
  }

  /** What the chain answers in one pass. */
  datatype Answers = Answers(
    stakeEvents: seq<StakeEvent>, infos: nat -> StakeInfo, funds: nat -> Funds, dueFunds: nat -> Funds, timestamp: nat,
    relayInfo: Option<nat>, isStaked: bool, workersAdded: bool, lastInfo: StakeInfo, lastBalance: nat)

  predicate PrerequisitesOk(config: Config, f: Flags, balance: nat, isStaked: bool)
  {
    f.isHubAuthorized && f.isStakeLocked && f.stake >= config.minimumStake && balance >= config.managerMinBalance
        && isStaked
  }

  function Withdrawal(paysForItself: bool, action: ServerAction): multiset<ServerAction>
  {
    if paysForItself then multiset{action} else multiset{}
  }

  function Withdrawals(withdrawManager: bool, funds: Funds): multiset<ServerAction>
  {
    Withdrawal(funds.hubBalance, DEPOSIT_WITHDRAWAL) + Withdrawal(funds.workerBalance, VALUE_TRANSFER)
    + Withdrawal(withdrawManager && funds.managerBalance, VALUE_TRANSFER)
  }

  /** For how many of the first n hub removals the worker's balance, or the hub deposit, pays for its transfer. */
  function WorkerTransfers(funds: nat -> Funds, n: nat): nat
  {
    if n == 0 then 0 else WorkerTransfers(funds, n - 1) + if funds(n - 1).workerBalance then 1 else 0
  }

  function DepositWithdrawals(funds: nat -> Funds, n: nat): nat
  {
    if n == 0 then 0 else DepositWithdrawals(funds, n - 1) + if funds(n - 1).hubBalance then 1 else 0
  }

  lemma WithdrawalsCount(before: seq<Event>, after: seq<Event>, funds: Funds)
    requires OnlyAdds(before, after, Withdrawals(false, funds))
    ensures Sends(after, VALUE_TRANSFER) == Sends(before, VALUE_TRANSFER) + if funds.workerBalance then 1 else 0
    ensures Sends(after, DEPOSIT_WITHDRAWAL) == Sends(before, DEPOSIT_WITHDRAWAL) + if funds.hubBalance then 1 else 0
  {
    WithdrawalsSent(false, funds, VALUE_TRANSFER);
    WithdrawalsSent(false, funds, DEPOSIT_WITHDRAWAL);
  }

  /** The deposit, the worker's balance and, if asked for, the manager's: each at most once, and nothing else. */
  lemma WithdrawalsSent(withdrawManager: bool, funds: Funds, action: ServerAction)
    ensures Withdrawals(withdrawManager, funds)[action] ==
              match action
              case DEPOSIT_WITHDRAWAL => if funds.hubBalance then 1 else 0
              case VALUE_TRANSFER =>
                (if funds.workerBalance then 1 else 0) + if withdrawManager && funds.managerBalance then 1 else 0
              case _ => 0
  {
  }

  lemma NoneOfThese(before: seq<Event>, after: seq<Event>, sent: multiset<ServerAction>)
    requires OnlyAdds(before, after, sent) && sent[REGISTER_SERVER] == sent[ADD_WORKER] == sent[SET_OWNER] == 0
    ensures SameSends(before, after)
  {
  }

  lemma AddsUp(a: seq<Event>, b: seq<Event>, c: seq<Event>, m: multiset<ServerAction>, m': multiset<ServerAction>)
    requires OnlyAdds(a, b, m) && OnlyAdds(b, c, m')
    ensures OnlyAdds(a, c, m + m')
  {
    forall x ensures Sends(c, x) == Sends(a, x) + (m + m')[x] { assert Sends(b, x) == Sends(a, x) + m[x]; }
  }

  /** Neither registration nor worker nor owner transactions were sent since. */
  ghost predicate SameSends(before: seq<Event>, after: seq<Event>)
  {
    forall a :: a == REGISTER_SERVER || a == ADD_WORKER || a == SET_OWNER ==> Sends(after, a) == Sends(before, a)
  }

  lemma {:induction false} StopsAtFailure(config: Config, f: Flags, es: seq<StakeEvent>, infos: nat -> StakeInfo,
                                          j: nat, k: nat)
    requires j <= k <= |es| && !AfterStakeEvents(config, f, es, infos, j).1
    ensures AfterStakeEvents(config, f, es, infos, k) == AfterStakeEvents(config, f, es, infos, j)
    decreases k
  {
    if j < k { StopsAtFailure(config, f, es, infos, j, k - 1); }
  }

  /** The transactions sent since are these. */
  ghost predicate OnlyAdds(before: seq<Event>, after: seq<Event>, counts: multiset<ServerAction>)
  {
    forall a :: Sends(after, a) == Sends(before, a) + counts[a]
  }
}
