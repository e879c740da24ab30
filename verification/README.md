# OpenGSN relay: a Dafny model

This project models the part of OpenGSN that has to get its bookkeeping right: the relay server's engine for its own
outgoing transactions, the client protocol that must agree with it, and the algorithms around them. The theorems are
about all inputs, all orders of events or all reachable states of the model. Where the code does not do what one expects, a
single example shows it, next to the theorem that says exactly when it does: the examples are
`NonceRuns.LateRaiseLosesANonce`, `MaxNonce.RestartPassesTheMax`, `MaxNonce.AnotherSendPassesTheMax`,
`PagedLogs.ResplitRepeatsLogs`, `Reputation.LateEventsForget`, `Reputation.AbuseEndsEarly` and
`PenalizerPasses.OverlappingPassesLoseOne`. `dafny verify dfyconfig.toml` checks the whole project.

## What is modelled

- `TxStore`, `TransactionManager`: the transaction store with its unique index, sending, re-sending, boosting, filling in
  mined blocks, archiving and the nonce-gap answer, as classes that change their state step by step. Node answers are
  parameters.
- `NonceProtocol`, `NonceRuns`, `MaxNonce`: the same engine as a concurrent protocol. A step runs from one `await` to the
  next: request, acquire the mutex, poll, sign and increment, write, release, broadcast, next to polls outside the mutex,
  boosting, mining, pruning and process restarts, in any order. `SendIsARun` ties the class method to the protocol.
  `MaxNonce` follows the server's check of `relayMaxNonce` to the send behind it.
- `ObjectMaps`, `RelayedTransactionValidator`, `HonestServer`: JavaScript's property order, the client's check of an answer,
  and the theorem that an honest server passes it.
- `Calldata`, `HeadTailCounts`, `AbiDecoding`: the ABI head/tail encoding of a relay call, decoded field by field, and the
  client's upper bound on its cost.
- `PagedLogs`: log queries split into pages, with retries and re-splits.
- `Race`, `RelaySelection`, `KnownRelays`: the ping race over any order of callbacks, the choice of the next relay, the
  client's retry loop, the tiers and their shuffle, failure bookkeeping and auditors.
- `Reputation`: paymaster status over full event histories.
- `ServerActions`, `Registration`: which transactions the server issues for itself over whole runs, given a store that forgets.
- `Balances`: refilling the worker and sweeping the hub deposit. `RegistrarUrl`: relay URLs in three words.
  `Penalizer`, `PenalizerPasses`: the commit/reveal schedule, and the timer's passes over it, interleaved in any way.

## Where the code departs from its documentation or from what one expects

The model follows the code. These lemmas pin the departures down:

- After a re-split, pages collected before are returned again (`PagedLogs.ResplitRepeatsLogs`); exactly when that
  matters is `PagedLogs.PaginatedIsUnpaginatedIff`.
- The ABUSED period lasts `abuseTimeWindowBlocks`; `abuseBlacklistDurationBlocks` is never read
  (`Reputation.AbusePeriodIsTheWindow`, `Reputation.AbuseEndsEarly`). Clearing an expired flag decides throttling on the
  reputation it has just replaced (`Reputation.ThrottlingUsesTheOldReputation`).
- A relay whose failures have all expired still counts as failing (`KnownRelays.FailuresAreNeverForgotten`).
- The check of `relayMaxNonce` is made outside the send mutex. In the first process it binds the worker's next signature
  (`MaxNonce.RelayMaxNonceHolds`). After a restart it does so exactly if some nonce up to the maximum was neither stored nor
  being stored (`MaxNonce.RelayMaxNonceIff`), that is, where no nonce was ever skipped, if every stored nonce was below the
  maximum (`MaxNonce.RelayMaxNonceIffStored`); otherwise the send can be told a nonce above it
  (`MaxNonce.RestartPassesTheMax`). Another send of the worker in between takes the guarantee away in any process
  (`MaxNonce.AnotherSendPassesTheMax`).
- After a restart, a poll outside the mutex that raises the counter between a send's own poll and its increment can make the
  server skip a nonce for good, and boosting then fails with 'missing nonce' (`NonceRuns.LateRaiseLosesANonce`). It does so
  exactly when the counter stands at a nonce that was never written (`NonceProtocol.SignCoversIff`,
  `NonceProtocol.CoverageAcrossRestarts`); without a restart it cannot happen (`NonceProtocol.Coverage`).
- A worker refill is skipped for ever when the manager's surplus equals it (`Balances.StarvesIff`).
- The penalizer's timer starts a pass whether or not the one before is over. Two that overlap can attempt one penalization
  twice and drop another that nobody attempted (`PenalizerPasses.OverlappingPassesLoseOne`); exactly when is
  `PenalizerPasses.HarmlessIff`.
- A reputation change that arrives late, from a repeated log page say, can prune changes that a later decision about an
  earlier block still needs (`Reputation.LateEventsForget`); exactly when is `Reputation.WindowIsKeptIff`.
- Waiting for a race over no relays at all never ends (`Race.ResolvesWhenAllSettle`).

## Model

| member | source | states |
|---|---|---|
| `TxStore.TxStoreManager.PutTx` | packages/relay/src/TxStoreManager.ts:32-53 | a record without attempts, or a second one for a nonce and signer unless updating, is refused and the store unchanged; otherwise exactly that record is written |
| `TxStore.TxIdsAreUnique` | packages/relay/src/TxStoreManager.ts:15-30 | two records never share a transaction id, so the second unique index never refuses what the first admits |
| `TxStore.TxStoreManager.GetTxsInNonceRange` | packages/relay/src/TxStoreManager.ts:79-87 | exactly the signer's records of the range, strictly by rising nonce |
| `TxStore.RangeAnswerIsUnique` | packages/relay/src/TxStoreManager.ts:79-87 | that description determines the answer |
| `TxStore.FullRangeAnswer` | packages/relay/src/TransactionManager.ts:154-161 | where no nonce of the range is missing the answer has one record per nonce, in order |
| `TxStore.TxStoreManager.GetAll` | packages/relay/src/TxStoreManager.ts:104-108 | every record, by rising nonce |
| `TxStore.TxStoreManager.RemoveArchivedTransactions` | packages/relay/src/TxStoreManager.ts:92-98 | exactly the records mined up to both bounds disappear |
| `TxStore.IsActionPendingOrRecentlyMined` | packages/relay/src/TxStoreManager.ts:115-132 | true exactly when some record of the action is unmined or mined within the distance |
| `TxStore.PruningIsInvisible` | packages/relay/src/TransactionManager.ts:340-345 | with a pruning distance above the recency distance, pruning changes no answer about any action, destination or later block |
| `TxStore.PruningInvisibleIff` | packages/relay/src/ServerConfigParams.ts:362-376 | that condition on the configuration is exact |
| `TxStore.PruningKeepsUnmined` | packages/relay/src/TxStoreManager.ts:92-98 | pruning removes only records mined long enough ago |
| `TransactionManager.TransactionManager.PollNonce` | packages/relay/src/TransactionManager.ts:331-338 | the counter is raised to the node's pending count, never lowered, and returned |
| `TransactionManager.TransactionManager.SendTransaction` | packages/relay/src/TransactionManager.ts:163-233 | a record is stored exactly when fee, gas limit, balance and pending count are known, the balance covers fee times gas, the destination is not the zero address, the fees can be signed and the nonce is free; it holds the action, destination, value, data and creation block asked for, the limit and fees asked for or their defaults, attempts 1, no boost and no mined block, at the higher of counter and pending count; the signature uses the nonce up even where the write is refused; a success returns that record's transaction; every failure has its guard and nothing else changes |
| `TransactionManager.SendKeepsItsPromise` | packages/relay/src/TransactionManager.ts:163-233 | the effect the protocol is compared with keeps that same promise |
| `TransactionManager.ResolveNewGasPrice` | packages/relay/src/TransactionManager.ts:305-329 | both old fees are scaled by the retry factor and rounded to the nearest, halves up, then raised to their minima; the fee is held to the cap and the priority fee to the fee; the cap is reported exactly when it was passed; neither fee drops for a factor of at least one and an old pair within the bounds |
| `TransactionManager.TransactionManager.ResendTransaction` | packages/relay/src/TransactionManager.ts:258-303 | where the balance covers the new fee and the fees can be signed, the record is replaced under its key before the broadcast by the same call at the same nonce with the new fees, one attempt more and the current block as boost block; otherwise nothing changes; each result has its guard |
| `TransactionManager.TurnMakesProgress` | packages/relay/src/TransactionManager.ts:427-445 | one turn of the boost loop handles its transaction and undoes no earlier turn |
| `TransactionManager.TransactionManager.BoostUnderpricedPendingTransactions` | packages/relay/src/TransactionManager.ts:385-446 | a completed pass prices the oldest pending transaction anew, gives every underpriced one the new fees, sends every other one again as it is where that is possible, leaves none under the new pair, and answers exactly the underpriced ones with what replaced them; it completes exactly when the node takes every replacement; no key appears or goes and every call keeps its payload; each other outcome happens exactly under its guard, and 'awaiting confirmations' never |
| `TransactionManager.TransactionManager.FillMinedBlockDetailsForTransactions` | packages/relay/src/TransactionManager.ts:347-379 | a transaction never mined, or mined long enough ago, takes the block its receipt names if that is another one; nothing else changes |
| `TransactionManager.TransactionManager.RemoveArchivedTransactions` | packages/relay/src/TransactionManager.ts:340-345 | exactly the records mined at least the configured number of blocks and seconds ago disappear |
| `TransactionManager.TransactionManager.GetNonceGapFilled` | packages/relay/src/TransactionManager.ts:154-161 | the object's entries are the range answer, keyed by nonce, in creation order |
| `ObjectMaps.RisingKeysEnumerateInOrder` | packages/provider/src/RelayedTransactionValidator.ts:184-197 | properties created by rising key are enumerated in that order, on either side of the array index limit |
| `ObjectMaps.EveryEntryEnumerated` | packages/provider/src/RelayedTransactionValidator.ts:82-113 | enumeration loses no property |
| `ObjectMaps.TwoProperties` | packages/provider/src/RelayedTransactionValidator.ts:184-197 | of two properties the later one is enumerated first exactly when it is an array index, below 2^32 - 1, and smaller |
| `ObjectMaps.AssignInPlace` | packages/relay/src/TransactionManager.ts:154-161 | assigning an existing property changes its value alone |
| `NonceProtocol.NonceSafety` | packages/relay/src/TransactionManager.ts:184-232 | for any interleaving of sends, outside polls, boosts, prunes and restarts, against any node: at most one send in its section, nonces strictly rising per signer in mutex order and in the store, every claimed nonce granted, every record about to be broadcast stored, every broadcast hash recorded first |
| `NonceProtocol.StepIsSafe` | packages/relay/src/TransactionManager.ts:163-233 | the invariant behind it, over each single step |
| `NonceProtocol.Coverage` | packages/relay/src/TransactionManager.ts:391-408 | with no other signer, no reorganisation and an honest node, however late its answers arrive, every nonce from the first polled to the counter is stored, in flight or was pruned after mining, so 'missing nonce' is unreachable in the process |
| `NonceProtocol.SignCoversIff` | packages/relay/src/TransactionManager.ts:186-227 | a signature leaves every nonce below the counter stored, in flight or pruned after mining exactly when the counter stands as the send polled it, or at a nonce written before |
| `NonceProtocol.CoverageAcrossRestarts` | packages/relay/src/TransactionManager.ts:331-338 | over any honest run with restarts, coverage holds in every state exactly when each signature meets that condition, and then 'missing nonce' is unreachable |
| `NonceProtocol.StepCovers` | packages/relay/src/TransactionManager.ts:226-227 | each step, a signature under the condition of `SignCoversIff`, keeps the written nonces of a signer one stretch without holes |
| `NonceProtocol.BoostReadFindsTheOldest` | packages/relay/src/TransactionManager.ts:391-408 | the oldest pending record a pass reads is the one at the mined count |
| `NonceRuns.SendIsARun` | packages/relay/src/TransactionManager.ts:163-233 | an undisturbed send, whatever the node answers, is a run of the protocol ending in the same counters and store |
| `NonceRuns.ResendIsARun` | packages/relay/src/TransactionManager.ts:258-303 | a resend of the boost loop is a run of the protocol: the step that replaces the record by the same call with the new fees, one attempt later, and the one that broadcasts it |
| `NonceRuns.FillIsARun` | packages/relay/src/TransactionManager.ts:355-378 | filling in the mined block of a record is one step of the protocol, or none |
| `NonceRuns.LateRaiseLosesANonce` | packages/relay/src/TransactionManager.ts:186-227 | an example: an honest run with a restart and a late raising poll that loses a nonce and reaches 'missing nonce' |
| `MaxNonce.StepRecords` | packages/relay/src/TransactionManager.ts:163-233 | every honest step, restarts and disturbed sends included, keeps accepted nonces written, and written records stored or mined and pruned |
| `MaxNonce.RelayMaxNonceIff` | packages/relay/src/RelayServer.ts:257-263 | after any honest run with restarts, once the check passed, every run until the worker's next signature keeps its sends within relayMaxNonce exactly when some nonce up to it was neither stored nor being stored |
| `MaxNonce.RelayMaxNonceIffStored` | packages/relay/src/RelayServer.ts:257-263 | where no signature skipped a nonce, exactly when every nonce ever stored for the worker is below relayMaxNonce |
| `MaxNonce.RelayMaxNonceHolds` | packages/relay/src/RelayServer.ts:421-453 | in the first process the check always binds the worker's next signature |
| `MaxNonce.RestartPassesTheMax` | packages/relay/src/RelayServer.ts:257-263 | an example: after a restart over a nonce stored and never broadcast, the send behind a passed check is told a nonce above the maximum |
| `MaxNonce.AnotherSendPassesTheMax` | packages/relay/src/RelayServer.ts:421-453 | an example: in one process, another send of the worker between check and send has the same effect |
| `RelayedTransactionValidator.ValidateGasPrice` | packages/provider/src/RelayedTransactionValidator.ts:159-182 | valid exactly when the fee, and for fee-market transactions the priority fee, reach what was requested |
| `RelayedTransactionValidator.ValidateNonceGapFilled` | packages/provider/src/RelayedTransactionValidator.ts:184-197 | all results are valid exactly when the values are consecutive relay calls of the worker to the client's hub from the last known nonce; their gas prices are not looked at |
| `RelayedTransactionValidator.ValidateRelayResponse` | packages/provider/src/RelayedTransactionValidator.ts:82-113 | the verdict is valid exactly when the fees are reached, the transaction goes from the worker to the client's hub with the client's call and a nonce up to its maximum, and the gap has the size the nonce calls for and holds consecutive relay calls of the worker to that hub |
| `HonestServer.GapAcceptedIff` | packages/provider/src/RelayedTransactionValidator.ts:90-104 | the gap of a server's answer is accepted exactly when every nonce of it is stored as a relay call to the hub |
| `HonestServer.HonestServerCompleteness` | packages/relay/src/RelayServer.ts:452-457 | after any run in which only this server signs for the worker and skips no nonce, with nothing pruned from the client's last known nonce on and relay calls only in the gap, the gap has exactly one transaction per nonce and is accepted |
| `HonestServer.HonestResponseAccepted` | packages/relay/src/RelayServer.ts:421-457 | from the check of relayMaxNonce over the send's poll to the reading of the gap, with anything else in between: the signed transaction and the range answer pass the client's whole check, given a nonce left at the check and a gap that can be answered |
| `Calldata.CalculateCalldataBytesZeroNonzero` | packages/common/src/Utils.ts:159-170 | counts exactly the nonzero bytes, and the others as zero |
| `Calldata.CalculateCalldataCost` | packages/common/src/ContractInteractor.ts:901-905 | the two products are the price of every byte added up |
| `AbiDecoding.WordHolds` | packages/common/src/ContractInteractor.ts:617-621 | a word holds its number, most significant byte first |
| `AbiDecoding.BytesDecode` | packages/common/src/ContractInteractor.ts:617-621 | a variable field holds its length, its bytes and less than a word of zeros |
| `AbiDecoding.StaticDecodes` | packages/common/src/ContractInteractor.ts:617-621 | a number of a tuple can be read from its word of the head |
| `AbiDecoding.DynamicDecodes` | packages/common/src/ContractInteractor.ts:617-621 | a variable field of a tuple can be read where its word of the head points |
| `AbiDecoding.CallDecodes` | packages/common/src/ContractInteractor.ts:617-621 | a call is its selector and then the tuple of its five arguments |
| `Calldata.BytesFit` | packages/common/src/ContractInteractor.ts:886-890 | the encoding of a variable field within its maximum is whole words shorter than the full one, and lacks the nonzero bytes these held |
| `HeadTailCounts.DisplacedCount` | packages/common/src/ContractInteractor.ts:891-898 | offsets smaller than estimated cost at most four nonzero bytes each |
| `HeadTailCounts.LightCountFits` | packages/common/src/ContractInteractor.ts:891-898 | a tuple with one lighter tail has as many nonzero bytes less, up to four for each offset behind it |
| `Calldata.TupleFits` | packages/common/src/ContractInteractor.ts:891-898 | the same for the head/tail encoding itself |
| `Calldata.OneWordShorter` | packages/common/src/ContractInteractor.ts:891-898 | a call whose request is one word shorter has at most three more nonzero bytes, for its two displaced offsets do not both borrow |
| `Calldata.FinalCall` | packages/relay/src/RelayServer.ts:297-304 | the final call is no longer than estimated, and has more nonzero bytes only if its paymaster data saves exactly one word, and then at most three |
| `Calldata.CheaperByAWord` | packages/common/src/ContractInteractor.ts:901-905 | no more bytes with no more nonzero ones are never dearer, and a word saved pays for three nonzero bytes at up to 11 2/3 times the price of a zero one |
| `Calldata.RefusesForCalldataCost` | packages/relay/src/RelayServer.ts:297-312 | the server refuses exactly where the prices of the call's bytes add up to more than the client signed |
| `Calldata.ServerNeverRefusesCalldataCost` | packages/relay/src/RelayServer.ts:304-312 | for data within the configured maxima below 131072 bytes, a 65-byte signature, and budget and estimate below 2^40, the server never counts more than the client signed: at any prices, unless the paymaster data takes exactly one word less than its maximum; then at prices whose ratio is at most 11 2/3 |
| `PagedLogs.SplitRange` | packages/common/src/ContractInteractor.ts:667-684 | returns the split that `SplitTiles` describes |
| `PagedLogs.CeilIsDivision` | packages/common/src/ContractInteractor.ts:657-678 | the number of steps is the quotient rounded up |
| `PagedLogs.SplitTiles` | packages/common/src/ContractInteractor.ts:667-684 | consecutive, disjoint, non-empty pages from the first to the last block, at most as many as asked for |
| `PagedLogs.PagesRespectMaxPageSize` | packages/common/src/ContractInteractor.ts:640-684 | with the number of pages computed for the range, or a multiple of it, no page exceeds the configured size |
| `PagedLogs.GetPageWithRetries` | packages/common/src/ContractInteractor.ts:724-751 | asks until the first delivery or the hundredth failure, and reports that last failure |
| `PagedLogs.FetchRound` | packages/common/src/ContractInteractor.ts:719-753 | a round adds the logs of the pages before the first that fails |
| `PagedLogs.GetPastEventsPaginated` | packages/common/src/ContractInteractor.ts:690-769 | refuses a range that runs backwards, 'latest' as the first of limited pages, and a range whose least number of pages exceeds the limit; otherwise a success is at most three proper prefixes of the range followed by all of it, block after block: from the first block asked for, or block 1, to the last one asked for, or to the head of the chain, or, where pages are limited, to the current block and not before the first; a node that delivers every page gives exactly that range |
| `PagedLogs.QueryKeepsItsPromise` | packages/common/src/ContractInteractor.ts:690-769 | the rounds of a query, as a function, keep that same promise |
| `PagedLogs.LogsBetweenAreBlockLogs` | packages/common/src/ContractInteractor.ts:771-781 | the logs of a page are those of its blocks, one block after the other |
| `PagedLogs.RoundsOfRange` | packages/common/src/ContractInteractor.ts:717-767 | at most three re-splits; each abandoned round holds the logs of a proper prefix, the last one those of the whole range |
| `PagedLogs.RefusedThroughout` | packages/common/src/ContractInteractor.ts:754-763 | a query refused in every round grows its page number fourfold while that is at most 16, and then fails with it |
| `PagedLogs.PaginatedAnswer` | packages/common/src/ContractInteractor.ts:690-769 | on success: at most three abandoned rounds, each with the logs of a proper prefix of the range asked for, then the logs of that range |
| `PagedLogs.PaginatedIsUnpaginatedIff` | packages/common/src/ContractInteractor.ts:754-769 | the answer is the range asked for and nothing else exactly when no abandoned round had collected a log |
| `PagedLogs.ResplitRepeatsLogs` | packages/common/src/ContractInteractor.ts:717-767 | two blocks, one per page, the second refused: the first block's logs are returned twice |
| `Race.CheckErrorKeys` | packages/common/src/Utils.ts:444-452 | refuses exactly a wrong number of keys or a repeated key |
| `Race.StepKeepsInv` | packages/common/src/Utils.ts:453-482 | what every callback keeps |
| `Race.OutcomeIsLegal` | packages/common/src/Utils.ts:439-484 | for every order of callbacks, at the first resolve and after: the winner is a result, results and errors are of different promises and at most n, and there is no winner exactly when all n rejected |
| `Race.ResultsAreOfPromises` | packages/common/src/Utils.ts:453-482 | at any time the winner is a result, results are of different promises that fulfil and errors of promises that reject |
| `Race.ResolvesWhenAllSettle` | packages/common/src/Utils.ts:466-482 | when all callbacks have run the race has resolved, unless the list is empty |
| `Race.CanStillResolve` | packages/common/src/Utils.ts:453-482 | waiting never gets stuck: after any callbacks the others can still run, and then a race of at least one promise has resolved |
| `Race.GraceIsWaitedFor` | packages/common/src/Utils.ts:457-482 | over any order of callbacks a race is resolved only after every promise has settled or the timer has fired, and the timer runs exactly from the first success on |
| `Race.WaitForSuccess.OnSettle` | packages/common/src/Utils.ts:467-476 | a success joins the results, the first one starting the timer; a failure is noted under its key; nothing else changes |
| `Race.WaitForSuccess.OnFinallyOf` | packages/common/src/Utils.ts:477-481 | the race resolves once as many have answered as there are promises, with a random result as winner if there is one |
| `Race.WaitForSuccess.OnTimeout` | packages/common/src/Utils.ts:459-464 | the grace timer resolves the race with a random result as winner |
| `RelaySelection.RunsAreLegal` | packages/provider/src/RelaySelectionManager.ts:133-148 | races that settle as runs of `waitForSuccess` are the legal ones selection relies on |
| `RelaySelection.AsMapUrls` | packages/provider/src/RelaySelectionManager.ts:134-138 | going through a Map leaves each URL of the slice once |
| `RelaySelection.AsMapIsOncePerUrl` | packages/provider/src/RelaySelectionManager.ts:134-138 | it leaves the last relay of each URL, in the order in which the URLs first appear |
| `RelaySelection.RelaySelectionManager.GetNextSlice` | packages/provider/src/RelaySelectionManager.ts:100-111 | the first relays of the first tier that is not empty |
| `RelaySelection.RelaySelectionManager.HandleWaitForSuccessResults` | packages/provider/src/RelaySelectionManager.ts:150-158 | errors are added, the winner and every failed URL leave all tiers, nothing else does |
| `RelaySelection.PruneTakesOut` | packages/provider/src/RelaySelectionManager.ts:150-158 | every tier keeps every relay at another URL, as often as before and in order, and none of those taken out |
| `RelaySelection.RelaySelectionManager.NextRelayInternal` | packages/provider/src/RelaySelectionManager.ts:60-86 | races the last relay of each URL of the slice; the failures are noted, the failed and the winner leave every tier, which otherwise stay; an event relay is returned with its own manager, a preferred one under its own URL with the manager it answered with, if some registered entry has that manager, and otherwise nothing is returned |
| `RelaySelection.RoundKeepsItsPromise` | packages/provider/src/RelaySelectionManager.ts:60-86 | a round, as a function, keeps that same promise |
| `RelaySelection.RoundSettles` | packages/provider/src/RelaySelectionManager.ts:60-86 | a round removes at least one relay and returns only an untried URL that did not fail |
| `RelaySelection.RelaysLeaveForAReason` | packages/provider/src/RelaySelectionManager.ts:60-86 | a relay leaves only because it failed, is returned, or is a preferred one that answered with a manager no registered entry has |
| `RelaySelection.SelectReturnsKnownRelays` | packages/provider/src/RelaySelectionManager.ts:46-58 | over all rounds of a call relays leave for the same reasons, and what is returned is an event relay with its own manager or a preferred one with the registered manager it answered with |
| `RelaySelection.RelaySelectionManager.SelectNextRelay` | packages/provider/src/RelaySelectionManager.ts:46-58 | terminates; what it returns was left to try and carries the right manager, and relays leave for those reasons only |
| `RelaySelection.SelectReturnsUntried` | packages/provider/src/RelaySelectionManager.ts:42-58 | nothing is returned only when no relay is left (or slices are empty by configuration); what is returned is untried and did not fail |
| `RelaySelection.NoUrlTwice` | packages/provider/src/RelaySelectionManager.ts:42-58 | over any run of calls what one returns was left to try from the start, is not left after it, does not fail before or after, and is returned by no later call |
| `RelaySelection.SliceIsOfFirstTier` | packages/provider/src/RelaySelectionManager.ts:100-111 | only relays of the first tier that is not empty are pinged |
| `RelaySelection.TiersAreTriedInOrder` | packages/provider/src/RelaySelectionManager.ts:150-158 | rounds never go back to an earlier tier |
| `RelaySelection.RelayTransaction` | packages/provider/src/RelayClient.ts:283-312 | the retry loop terminates with the attempts of `Attempts` |
| `RelaySelection.OneAttemptPerUrl` | packages/provider/src/RelayClient.ts:283-312 | at most one attempt for each distinct URL |
| `RelaySelection.AttemptsAreConsistent` | packages/provider/src/RelayClient.ts:290-311 | every attempt but the last failed with a relay error, the errors are those of the failed attempts, a transaction is returned exactly when the last one relayed |
| `KnownRelays.Shuffle` | packages/common/src/Utils.ts:400-416 | in place, the array becomes the shuffle of its old contents by these draws |
| `KnownRelays.ShuffledPermutes` | packages/common/src/Utils.ts:400-416 | a shuffle is a permutation |
| `KnownRelays.ShuffleReachesEveryOrder` | packages/common/src/Utils.ts:400-416 | every order is reached by some draws |
| `KnownRelays.KnownRelaysManager.GetRelaysShuffledForTransaction` | packages/provider/src/KnownRelaysManager.ts:78-97 | preferred relays in order, then exactly the registered ones that never failed, then exactly those that did, each as often as registered and only with valid URLs |
| `KnownRelays.FailuresAreNeverForgotten` | packages/provider/src/KnownRelaysManager.ts:67-82 | a relay counts as failing exactly when a failure was ever saved, however often failures expired |
| `KnownRelays.KnownRelaysManager.RefreshFailures` | packages/provider/src/KnownRelaysManager.ts:67-76 | every relay keeps exactly its failures younger than the grace, and no relay goes |
| `KnownRelays.FilterInOrder` | packages/provider/src/KnownRelaysManager.ts:70-97 | what a filter keeps keeps its order |
| `KnownRelays.KnownRelaysManager.SaveRelayFailure` | packages/provider/src/KnownRelaysManager.ts:129-141 | the failure is appended under its URL |
| `KnownRelays.KnownRelaysManager.GetAuditors` | packages/provider/src/KnownRelaysManager.ts:99-127 | with fair draws the loop ends with as many distinct relays as configured or available, none excluded |
| `Reputation.ReputationManager.GetPaymasterStatus` | packages/relay/src/ReputationManager.ts:67-92 | blocked at or below its bound, abused exactly while the flag is within the window, throttled exactly under its bound within the delay by the reputation found; an expired flag is cleared with the timeout reputation; an unknown paymaster gets a new entry |
| `Reputation.StatusPromiseIff` | packages/relay/src/ReputationManager.ts:67-92 | status and entry used for whole histories are determined by that |
| `Reputation.ReputationManager.UpdatePaymasterStatus` | packages/relay/src/ReputationManager.ts:98-117 | nothing changes above the maximum; otherwise a loss of the configured size within the window sets the flag, the reputation moves by one and the changes of the window stay, unless the window is not positive, which is refused |
| `Reputation.OutcomePromiseIff` | packages/relay/src/ReputationManager.ts:98-117 | the entry used for whole histories is determined by that |
| `Reputation.StepIsTheOperation` | packages/relay/src/ReputationManager.ts:67-117 | each step of a history does to the entry what the operation promises |
| `Reputation.ReputationStoreManager.UpdatePaymasterReputation` | packages/relay/src/ReputationStoreManager.ts:62-81 | the change is applied and appended, expired changes dropped, a bad expiration refused |
| `Reputation.WindowIsKeptIff` | packages/relay/src/ReputationStoreManager.ts:66-77 | for any order of events the changes a decision looks at are those of the full history exactly when none in its window was followed by a change whose own window no longer reached it |
| `Reputation.WindowIsKept` | packages/relay/src/ReputationStoreManager.ts:66-77 | so it is for event blocks that do not fall |
| `Reputation.DecisionsAreThoseOfFullHistory` | packages/relay/src/ReputationManager.ts:109-116 | then the abuse decision equals the one on the unpruned history |
| `Reputation.LateEventsForget` | packages/relay/src/ReputationStoreManager.ts:72-74 | an example: two failures out of order, where it does not |
| `Reputation.ReputationAccounting` | packages/relay/src/ReputationStoreManager.ts:37-43 | reputation is its last starting value plus the changes applied since, never above both that start and the maximum |
| `Reputation.ReputationIsBounded` | packages/relay/src/ReputationManager.ts:106-108 | with a timeout reputation within the maximum it never exceeds both the initial value and the maximum |
| `Reputation.FlagMeansFailures` | packages/relay/src/ReputationManager.ts:109-114 | the flag is set exactly when failures exceed successes in the window by the configured change |
| `Reputation.OnlySuccessLiftsBlocked` | packages/relay/src/ReputationManager.ts:73-75 | without a successful relay a blocked paymaster stays blocked, whatever else happens |
| `Reputation.AbusePeriodIsTheWindow` | packages/relay/src/ReputationManager.ts:76-82 | ABUSED exactly for the abuse window; the documented duration changes nothing |
| `Reputation.AbuseEndsEarly` | packages/relay/src/ReputationManager.ts:28-38 | under the defaults it is over after 241 blocks |
| `Reputation.ThrottlingUsesTheOldReputation` | packages/relay/src/ReputationManager.ts:80-88 | asking again right after a flag expired answers otherwise exactly when the old and the reset reputation straddle the throttling bound within the delay |
| `ServerActions.NegativeAnswersAreTrue` | packages/relay/src/TxStoreManager.ts:115-132 | the pruned store's answer equals the one of the full history |
| `ServerActions.NoActionIsRepeated` | packages/relay/src/RegistrationManager.ts:209-214 | over any run with resends, refills, pruning and restarts, registering, adding a worker and authorising the hub are never sent while one of the kind is pending or recent |
| `ServerActions.SafeIff` | packages/relay/src/ServerConfigParams.ts:362-376 | that holds for all runs exactly when transactions are kept longer than the recency distance |
| `ServerActions.SetOwnerAtMostOnce` | packages/relay/src/RegistrationManager.ts:151-157 | between two starts of the process the owner is set at most once |
| `ServerActions.SetOwnerAfterRestart` | packages/relay/src/RegistrationManager.ts:151-157 | and after a restart it can be set again |
| `Registration.RegistrationManager.RefreshStake` | packages/relay/src/RegistrationManager.ts:292-338 | the flags after a refresh, a foreign owner refused, and the hub authorised exactly when it is not and nothing is pending |
| `Registration.RefreshedFlags` | packages/relay/src/RegistrationManager.ts:292-338 | a foreign owner is an error; without a stake nothing but the owner is noted; the first owner seen stays; an authorised hub is not forgotten |
| `Registration.FlagsAfterStakeEvent` | packages/relay/src/RegistrationManager.ts:176-197 | authorisation follows the events of this hub, every other event refreshes the stake, and a withdrawn stake needs an owner |
| `Registration.RegistrationManager.SendTransaction` | packages/relay/src/RegistrationManager.ts:303-411 | each action is sent by the manager, or the worker for its balance, to the contract it is for; nothing else is sent |
| `Registration.WithdrawalsSent` | packages/relay/src/RegistrationManager.ts:275-285 | everything that pays for its own transfer goes to the owner, once |
| `Registration.RegistrationManager.AttemptRegistration` | packages/relay/src/RegistrationManager.ts:358-411 | registers exactly when hub authorised, stake locked and large enough, balance large enough and staked on the hub, adding the worker exactly when neither added nor pending |
| `Registration.RegistrationManager.HandleStakeEvents` | packages/relay/src/RegistrationManager.ts:166-197 | the event loop folds the events into the flags and delayed removals, stopping at the first failure, and registers nothing |
| `Registration.RegistrationManager.ExtractDuePendingEvents` | packages/relay/src/RegistrationManager.ts:218-223 | splits the delayed events into due ones and the rest |
| `Registration.DuePartitions` | packages/relay/src/RegistrationManager.ts:218-223 | every delayed event is taken out once, when due, and none is lost |
| `Registration.DueInOrder` | packages/relay/src/RegistrationManager.ts:218-223 | the due ones keep their order |
| `Registration.NotDueInOrder` | packages/relay/src/RegistrationManager.ts:218-223 | and so do the others |
| `Registration.RegistrationManager.HandlePastEvents` | packages/relay/src/RegistrationManager.ts:133-216 | the owner is set exactly when due; registration is sent exactly once or not at all, exactly under the forced or missing-registration guard and the prerequisites after the events |
| `Registration.RegistrationManager.ShouldRegisterAgain` | packages/relay/src/RelayServer.ts:795-817 | registration is forced exactly when expired with none pending |
| `Registration.RegistrationManager.HandleChanges` | packages/relay/src/RelayServer.ts:756-767 | a worker pass registers exactly when no registration is pending, the last one is too old or not the configured one, the events and due removals go through, and the prerequisites hold after them; and, where transactions are kept longer than the recency distance, all passes together repeat no guarded action |
| `Registration.RegistrationManager.Meanwhile` | packages/relay/src/RelayServer.ts:765-767 | anything else the server does between passes keeps that |
| `Balances.ValidateBalanceParams` | packages/relay/src/ServerConfigParams.ts:582-600 | accepts exactly ordered targets and a sweep bound above them |
| `Balances.RelayServer.ReplenishServer` | packages/relay/src/RelayServer.ts:604-653 | the deposit is withdrawn exactly when the manager is short and can reach its target with it, or the worker is short and needs it; the worker is refilled to its target exactly when it is short and what the manager can spare, with the deposit if withdrawn, exceeds the need; balances after it follow, nothing is lost |
| `Balances.RelayServer.WithdrawToOwnerIfNeeded` | packages/relay/src/RelayServer.ts:873-894 | a sweep leaves exactly the two targets in the hub |
| `Balances.AfterSweepCanRefill` | packages/relay/src/RelayServer.ts:604-653 | after a sweep a refill is possible exactly unless all is empty and target is minimum, or the surplus equals the refill |
| `Balances.StarvesIff` | packages/relay/src/RelayServer.ts:620-651 | a worker whose refill the funds allow stays unfilled, pass after pass, exactly when the surplus, alone or with the deposit, equals the refill |
| `Balances.ManagerReachesTarget` | packages/relay/src/RelayServer.ts:617-640 | a manager that can reach its target from the deposit does, unless the worker's refill takes it |
| `RegistrarUrl.SplitRelayUrlForRegistrar` | packages/common/src/Utils.ts:333-344 | refuses exactly a URL of more than 32 characters for each part; otherwise returns as many words of 32 bytes as parts |
| `RegistrarUrl.StripRemovesWholeBytes` | packages/common/src/Utils.ts:346-351 | the zeros stripped are those of whole NUL bytes at the end |
| `RegistrarUrl.PackedSplit` | packages/common/src/Utils.ts:333-351 | packing a split gives the bytes of the words without trailing NULs |
| `RegistrarUrl.RoundTripIff` | packages/common/src/Utils.ts:333-351 | for an ASCII URL of at most 96 characters the split is three words of 32 bytes and packing returns the URL, exactly when it holds no line end and no NUL at its end |
| `Penalizer.TakeOutRemoves` | packages/relay/src/penalizer/PenalizerService.ts:236-238 | splicing at the index of an element that is there removes it alone, the rest keeping its order |
| `Penalizer.TakeOutOfNothing` | packages/relay/src/penalizer/PenalizerService.ts:236-238 | splicing at the index of an element that is not there drops the last one |
| `Penalizer.FoundIsFirst` | packages/relay/src/penalizer/PenalizerService.ts:261-262 | the commitment found is the first of its hash, and none is found only if there is none |
| `Penalizer.ReadyAreReady` | packages/relay/src/penalizer/PenalizerService.ts:229-231 | the ready penalizations are exactly those with a ready block that is not in the future |
| `Penalizer.ReadyInOrder` | packages/relay/src/penalizer/PenalizerService.ts:229-231 | in the order they were scheduled |
| `Penalizer.StopsAtFirstFailure` | packages/relay/src/penalizer/PenalizerService.ts:234-243 | the broadcast that fails is the last of its pass |
| `PenalizerPasses.HarmlessIff` | packages/relay/src/penalizer/PenalizerService.ts:227-244 | over any interleaving of passes, arrivals and ready blocks, nothing is lost or attempted twice exactly when no pass goes on to a penalization that is no longer scheduled; then list and attempts together are what was scheduled |
| `PenalizerPasses.ApartIsHarmless` | packages/relay/src/penalizer/PenalizerService.ts:229-233 | so it is while no penalization is ahead of two passes at once |
| `PenalizerPasses.OneAtATimeIsHarmless` | packages/relay/src/penalizer/PenalizerService.ts:122-128 | so it would be with a timer that waits for the pass before |
| `PenalizerPasses.PassCanFinish` | packages/relay/src/penalizer/PenalizerService.ts:227-244 | a pass under way can always be finished: it attempts what it has ahead, in order, and ends |
| `PenalizerPasses.OverlappingPassesLoseOne` | packages/relay/src/penalizer/PenalizerService.ts:227-244 | an example: two passes over three penalizations, one attempted twice and one lost unattempted |
| `PenalizerPasses.FilteredInOrder` | packages/relay/src/penalizer/PenalizerService.ts:229-231 | the same of the list a pass goes through |
| `Penalizer.PenalizerService.QueryReadyBlocksForMinedCommitments` | packages/relay/src/penalizer/PenalizerService.ts:249-267 | a ready block once known stays; otherwise it becomes that of the first commitment of the hash, if there is one, in place |
| `Penalizer.PenalizerService.ExecuteReadyPenalizations` | packages/relay/src/penalizer/PenalizerService.ts:227-244 | the ready ones in order, each attempted once; scheduled plus attempted grows by what arrives; the first failure ends the pass |
| `Penalizer.PenalizerService.IntervalHandler` | packages/relay/src/penalizer/PenalizerService.ts:216-225 | a pass that runs alone first sets the ready blocks of mined commitments and then attempts exactly the ready penalizations in order, up to the first broadcast that fails; nothing is attempted before its ready block, nothing twice, and nothing is lost |
| `Penalizer.PenalizerService.CommitAndScheduleReveal` | packages/relay/src/penalizer/PenalizerService.ts:300-304 | a new penalization is scheduled behind the others |

## Left out

- RPC, HTTP, files, timers, loggers and random numbers: their answers are parameters, arbitrary unless a contract says otherwise.
- Signing, hashing and RLP: a transaction id is an injective function of what is signed.
- Solidity contracts: hub, stake manager, registrar and penalizer answers are inputs.
- Number ranges: `Number.MAX_SAFE_INTEGER` is an unbounded default, JavaScript floats are exact integers, the retry factor is a fraction rounded as `Math.round` does.
- Addresses and URLs: compared as identities, an address standing for its lower-case form.
- NonceProtocol.Coverage: assumes an honest node, no other signer of the key and no reorganisation, as the code's own sanity check does; another wallet using the key does reach 'missing nonce'.
- HonestServer.HonestServerCompleteness: the gap must hold relay calls only, because the client demands that of every transaction in it and a worker's withdrawal would be refused. The last known nonce is taken to be no older than the server's first use of the key and no newer than the nonce of the send.
- Calldata.ServerNeverRefusesCalldataCost: says nothing where the paymaster data saves exactly one word and a nonzero byte costs more than 11 2/3 zero ones; every environment in packages/common/src/Environments.ts has a ratio of 4. The server's other limits on gas and data are not modelled.
- RegistrarUrl.RoundTripIff: ASCII URLs only; other characters take several bytes in UTF-8 and may not fit their word.
- KnownRelays.KnownRelaysManager.GetAuditors: termination needs draws in which every index comes up again.
- PagedLogs.GetPastEventsPaginated: block numbers are naturals and the chain does not change during a query.
- Balances.RelayServer.ReplenishServer: a withdrawal is taken to be mined when the balance is refreshed, and gas is not counted.
- Registration.RegistrationManager.HandlePastEvents: the pass runs alone; relay sends that interleave with it are covered by the event runs of `ServerActions`, not by the class. A send that throws ends the pass, which is a shorter run of the same events.
- Concurrent updates of one reputation entry: `updatePaymasterStatus` takes no mutex in the code; the model runs the operations one after the other.
- Penalizer: validation of a request and the choice of penalization; only the schedule is modelled.
- Etherscan cache, statistics, command line, deployment, paymaster providers, configuration parsing and JSON-RPC dispatch: plumbing around the modelled parts.
