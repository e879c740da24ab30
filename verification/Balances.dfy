/** Refilling the worker and sweeping the hub deposit (packages/relay/src/RelayServer.ts:604-653, :873-894,
    packages/relay/src/ServerConfigParams.ts:582-600). Gas is not counted. */
module Balances {
  import opened Outcomes

  datatype Config = Config(
    managerMinBalance: nat, managerTargetBalance: nat, workerMinBalance: nat, workerTargetBalance: nat,
    withdrawToOwnerOnBalance: Option<nat>)

  datatype ConfigError = ManagerTargetBelowMin | WorkerTargetBelowMin | WithdrawBelowTargets

  function ValidateBalanceParams(c: Config): (e: Option<ConfigError>)
    ensures e.None? <==> c.managerMinBalance <= c.managerTargetBalance && c.workerMinBalance <= c.workerTargetBalance
                         && (c.withdrawToOwnerOnBalance.Some? ==>
                               c.managerTargetBalance + c.workerTargetBalance < c.withdrawToOwnerOnBalance.value)
    ensures e == Some(ManagerTargetBelowMin) ==> c.managerTargetBalance < c.managerMinBalance
    ensures e == Some(WorkerTargetBelowMin) ==> c.workerTargetBalance < c.workerMinBalance
    ensures e == Some(WithdrawBelowTargets) ==>
              c.withdrawToOwnerOnBalance.Some?
              && c.managerTargetBalance + c.workerTargetBalance >= c.withdrawToOwnerOnBalance.value
  {
    if c.managerTargetBalance < c.managerMinBalance then Some(ManagerTargetBelowMin)
    else if c.workerTargetBalance < c.workerMinBalance then Some(WorkerTargetBelowMin)
    else if c.withdrawToOwnerOnBalance.Some?
            && c.managerTargetBalance + c.workerTargetBalance >= c.withdrawToOwnerOnBalance.value
      then Some(WithdrawBelowTargets)
    else None
  }

  /** The manager's and worker's own balances, the manager's deposit in the hub, and what the owner received. */
  datatype Funds = Funds(manager: nat, worker: nat, hub: nat, owner: nat)

  function WithdrawDeposit(f: Funds): Funds { f.(manager := f.manager + f.hub, hub := 0) }

  function Refill(c: Config, f: Funds): int { c.workerTargetBalance - f.worker }

  function Surplus(c: Config, f: Funds): int { f.manager - c.managerMinBalance }

  predicate MustReplenishWorker(c: Config, f: Funds, replenishPending: bool)
  {
    f.worker < c.workerMinBalance && !replenishPending
  }

  /** Whether a pass refills the worker, with withdrawals mined at once. */
  predicate Refills(c: Config, f: Funds)
  {
    Surplus(c, f) + f.hub > Refill(c, f) && Surplus(c, f) != Refill(c, f)
  }

  /** Whether a pass withdraws the whole hub deposit. */
  predicate Withdraws(c: Config, f: Funds, replenishPending: bool, withdrawalPending: bool)
  {
    || (f.manager < c.managerMinBalance && !withdrawalPending && f.manager + f.hub >= c.managerTargetBalance)
    || (MustReplenishWorker(c, f, replenishPending) && Surplus(c, f) < Refill(c, f) <= Surplus(c, f) + f.hub)
  }

  /** The funds after a pass. */
  function AfterReplenish(c: Config, f: Funds, replenishPending: bool, withdrawalPending: bool): Funds
    requires ValidateBalanceParams(c).None?
  {
    var f1 := if Withdraws(c, f, replenishPending, withdrawalPending) then WithdrawDeposit(f) else f;
    if MustReplenishWorker(c, f, replenishPending) && Refills(c, f)
    then f1.(manager := f1.manager - Refill(c, f), worker := c.workerTargetBalance)
    else f1
  }

  class RelayServer {
    const config: Config
    var funds: Funds

    constructor (config: Config, funds: Funds)
      ensures this.config == config && this.funds == funds
    {
      this.config, this.funds := config, funds;
    }

    /** A refill leaves the worker at its target and the manager above its minimum; it is sent exactly when `Refills`
        says so. */
    method ReplenishServer(isReplenishPendingForWorker: bool, isWithdrawalPending: bool) returns (withdrew: bool,
                           refilled: bool)
      requires ValidateBalanceParams(config).None?
      modifies this
      ensures funds == AfterReplenish(config, old(funds), isReplenishPendingForWorker, isWithdrawalPending)
      ensures withdrew == Withdraws(config, old(funds), isReplenishPendingForWorker, isWithdrawalPending)
      ensures refilled == (MustReplenishWorker(config, old(funds), isReplenishPendingForWorker)
                && Refills(config, old(funds)))
      // in terms of the balances found: who is short, what the worker needs and what the manager can spare
      ensures var managerShort := old(funds).manager < config.managerMinBalance && !isWithdrawalPending;
              var workerShort := old(funds).worker < config.workerMinBalance && !isReplenishPendingForWorker;
              var need := config.workerTargetBalance - old(funds).worker;
              var spare := old(funds).manager - config.managerMinBalance;
              && (withdrew <==>
                    || (managerShort && old(funds).manager + old(funds).hub >= config.managerTargetBalance)
                    || (workerShort && spare < need <= spare + old(funds).hub))
              && (refilled <==> workerShort && spare + (if withdrew then old(funds).hub else 0) > need)
              && funds == Funds(
                   old(funds).manager + (if withdrew then old(funds).hub else 0) - (if refilled then need else 0),
                   if refilled then config.workerTargetBalance else old(funds).worker,
                   if withdrew then 0 else old(funds).hub, old(funds).owner)
      ensures refilled ==> funds.worker == config.workerTargetBalance && funds.manager > config.managerMinBalance
      ensures funds.manager + funds.worker + funds.hub == old(funds).manager + old(funds).worker + old(funds).hub
    {
      withdrew, refilled := false, false;
      var managerEthBalance := funds.manager;
      var managerHubBalance := funds.hub;
      var mustReplenishWorker := !(funds.worker >= config.workerMinBalance) && !isReplenishPendingForWorker;
      var mustReplenishManager := config.managerMinBalance > managerEthBalance && !isWithdrawalPending;
      if !mustReplenishManager && !mustReplenishWorker { return; }
      var workerReplenishAmount := config.workerTargetBalance - funds.worker;
      var managerReplenishAmount := config.managerTargetBalance - managerEthBalance;
      var canReplenishManager := managerHubBalance >= managerReplenishAmount;
      var cantReplenishWorkerFromBalance := managerEthBalance - config.managerMinBalance < workerReplenishAmount;
      var canReplenishWorkerFromHubAndBalance :=
          managerHubBalance + managerEthBalance - config.managerMinBalance >= workerReplenishAmount;
      var mustWithdrawHubDeposit :=
        (mustReplenishManager && canReplenishManager) ||
        (mustReplenishWorker && cantReplenishWorkerFromBalance && canReplenishWorkerFromHubAndBalance);
      if mustWithdrawHubDeposit {
        withdrew := true;
        funds := WithdrawDeposit(funds);
        managerEthBalance := funds.manager;
      }
      if mustReplenishWorker && workerReplenishAmount < managerEthBalance - config.managerMinBalance {
        refilled := true;
        funds := funds.(manager := funds.manager - workerReplenishAmount,
            worker := funds.worker + workerReplenishAmount);
      }
    }

    /** A sweep leaves exactly the two targets in the hub, and happens exactly from the configured balance above them
        on. */
    method WithdrawToOwnerIfNeeded(ready: bool) returns (swept: bool)
      modifies this
      ensures swept <==>
                ready && config.withdrawToOwnerOnBalance.Some?
                && old(funds).hub >= config.withdrawToOwnerOnBalance.value + config.managerTargetBalance
                                     + config.workerTargetBalance
      ensures swept ==> funds.hub == config.managerTargetBalance + config.workerTargetBalance
      ensures funds.manager == old(funds).manager && funds.worker == old(funds).worker
      ensures funds.hub + funds.owner == old(funds).hub + old(funds).owner
      ensures !swept ==> funds == old(funds)
    {
      if !ready || config.withdrawToOwnerOnBalance.None? { return false; }
      var reserveBalance := config.managerTargetBalance + config.workerTargetBalance;
      var effectiveWithdrawOnBalance := config.withdrawToOwnerOnBalance.value + reserveBalance;
      var managerHubBalance := funds.hub;
      if managerHubBalance < effectiveWithdrawOnBalance { return false; }
      var withdrawalAmount := managerHubBalance - reserveBalance;
      funds := funds.(hub := funds.hub - withdrawalAmount, owner := funds.owner + withdrawalAmount);
      return true;
    }
  }

  /** After a sweep a worker below its minimum can be refilled unless manager and worker are empty and the manager's
      target is its minimum, or its surplus happens to equal the refill, so that no withdrawal is triggered. */
  lemma AfterSweepCanRefill(c: Config, f: Funds)
    requires ValidateBalanceParams(c).None? && f.hub == c.managerTargetBalance + c.workerTargetBalance
    ensures Refills(c, f) <==>
              f.manager + f.worker + (c.managerTargetBalance - c.managerMinBalance) > 0 && Surplus(c, f) != Refill(c, f)
  {
  }

  /** A manager below its minimum that can reach its target from the deposit does, unless the worker's refill takes
      it. */
  lemma ManagerReachesTarget(c: Config, f: Funds, replenishPending: bool)
    requires ValidateBalanceParams(c).None? && f.manager < c.managerMinBalance
               && f.manager + f.hub >= c.managerTargetBalance
    ensures var after := AfterReplenish(c, f, replenishPending, false);
            after.hub == 0 && (after.manager >= c.managerTargetBalance
                || (after.worker == c.workerTargetBalance && after.manager > c.managerMinBalance))
  {
  }

  /** A worker that needs a refill the funds allow is left starving, pass after pass, exactly when the manager's
      surplus equals the refill, or the hub deposit makes it equal; otherwise one pass puts it at its target. */
  lemma StarvesIff(c: Config, f: Funds)
    requires ValidateBalanceParams(c).None? && MustReplenishWorker(c, f, false)
    requires Surplus(c, f) + f.hub >= Refill(c, f)
    ensures AfterReplenish(c, f, false, false).worker < c.workerMinBalance <==>
            Surplus(c, f) == Refill(c, f) || Surplus(c, f) + f.hub == Refill(c, f)
    ensures AfterReplenish(c, f, false, false).worker < c.workerMinBalance ==>
              AfterReplenish(c, AfterReplenish(c, f, false, false), false, false)
                  == AfterReplenish(c, f, false, false)
    ensures AfterReplenish(c, f, false, false).worker >= c.workerMinBalance ==>
              AfterReplenish(c, f, false, false).worker == c.workerTargetBalance
  {
  }
}
