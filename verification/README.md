# A model of Durian's transactional execution

Durian runs one smart-contract transaction against a blockchain it only knows through a provider.
This project models that engine and proves what it promises.

- `Types.dfy`, `Numbers.dfy`: fixed-width values, decimal and byte representations.
- `Chain.dfy`: the example blockchain as provider. Accounts sit under an alias and are found by
  scanning for an address; the class `Blockchain` and the ledger calls it serves.
- `Cache.dfy`, `State.dfy`: the write-back cache with dirty bits on accounts and slots, as values and
  as the class `State` whose `UpdateState` flushes it in a nested loop over two hash maps.
- `Metering.dfy`: the gas schedule and the 3/8 conversion between nominal and wasm gas.
- `Machine.dfy`, `HostEffects.dfy`, `Runtime.dfy`: the host calls, as steps of a machine and as the
  class `Runtime`. A machine keeps the contract's storage either behind the cache or in a snapshot.
- `Refinement.dfy`, `Runs.dfy`: what every step keeps, and whole runs. A contract is any function
  from the replies received so far to the next move; each move that calls the host also carries the
  linear memory, so the contract may change memory arbitrarily between calls.
- `Execute.dfy`: executing a transaction, as a method over the objects and as a function, and a
  reference that runs the contract against its true balance and publishes a snapshot at the end.
- `Theorems.dfy`, `History.dfy`: the results about chain, funds, gas, success, panics and termination,
  for one transaction and for histories of transactions, nonce increments and block commits.
- `Realizable.dfy`: what gas injection and the import resolver guarantee of every module: whole pages of
  memory, at most sixteen, and memory, host calls and the instructions that make them paid beforehand.
- `Witnesses.dfy`, `Findings.dfy`: small realizable contracts, and concrete inputs that contradict the
  documentation.
- `Ether.dfy`, `Preimages.dfy`: printing wei as ether, and the byte strings that are hashed into
  contract addresses and transaction hashes.

The methods of the cache, the runtime and the engine are each proved equal to a function on values,
and the lemmas are about those functions; the account scan, the flush and the ether printer have
contracts that state their result directly. Panics (`unwrap`, arithmetic overflow as in a build with
overflow checks) are the error `HostPanic`. The hash function, the code loader, the block hash and the
clock are parameters. The loader stands for parsing, gas injection and linking.

## Where the code differs from what is said about it

- `AccountInfo::new` takes nonce then balance, and the cache passes balance then nonce.
  - A create that commits over an existing address therefore exchanges that account's balance and
    nonce, and because such an account takes the update path its code is not replaced
    (`RedeployExchangesFunds`). `Conservation` and `ExecuteRefinesReference` give the exact condition
    for one run; `FundsKeptExactly` and `ChainsAgreeExactly` give the one a caller can check beforehand.
  - `ccall` compares the value with the account's nonce, or with 1 when there is no account, instead of
    the balance. A new contract that tries to transfer one unit fails, where it should be told -1
    (`TransferComparesNonce`). Every realizable contract gets the right answers exactly if the target
    exists with its nonce equal to its balance, or the gas does not pay for one page of memory and the
    eight instructions of a `ccall`, or no contract runs (`ResultsAgreeExactly`).
- The repository's README says that a successful execution updates the blockchain and that anything
  else fails with an error.
  - A contract that ends without a result, or returns an empty one, is reported as a success while its
    writes are dropped (`SuccessLosesWrite`, exact condition in `WritesPublishedExactly`).
  - A trap raised by the virtual machine itself, if there is gas to reach it, is reported as a success
    (`TrapIsSuccess`), and so is
    code that exports no `call` at all (`MissingCallIsSuccess`). `SucceedsExactly` lists what counts.
- A contract can panic its host: with `block_hash` of a block that does not exist
  (`UnknownBlockPanics`), and with `dcall` or `scall`, which can be imported but have no handler
  (`UnhandledCallsPanic`). `PanicsExactly` lists every way in which executing panics.
- The timestamp a contract reads is the block number (`StateCache.State.Timestamp`).
- A transaction's hash preimage does not record whether it is a call or a create, nor where the code
  of a create ends; it separates two transactions by content only within one such shape
  (`PreimageSeparates`).
- The log charge multiplies the price of a data byte by itself, not by the data length, so it does
  not depend on how much is logged.

## Model

| member | source | states |
|---|---|---|
| Chain.ApplyKeepsWellFormed | examples/blockchain/src/blockchain.rs:187-208 | one provider call, with creates only on free addresses, keeps addresses distinct and future aliases free, and does by alias exactly what it says by address; a create panics if and only if the counter is used up |
| Chain.AddressesStayDistinct | examples/blockchain/src/blockchain.rs:137-193 | over any run of calls no alias is reused or account lost, and addresses stay distinct if and only if each create met a free address |
| Chain.CallsAliases | examples/blockchain/src/blockchain.rs:187-193 | any run of calls adds exactly the aliases it uses up the numbers of |
| Chain.WrittenKeeps | examples/blockchain/src/blockchain.rs:137-193 | whatever guarded calls do, addresses stay distinct, future aliases free, and every account keeps its alias and address |
| Chain.PlacedExactly | examples/blockchain/src/blockchain.rs:187-208 | if guarded calls add at most one address, the stored accounts follow from the view by address: the new one under the next alias, the others where they were |
| Chain.ContractAliasForm | examples/blockchain/src/blockchain.rs:188-191 | the alias is `contract_` and the number in decimal, without leading zeros |
| Chain.ContractAliasInjective | examples/blockchain/src/blockchain.rs:188-191 | two counters never give one alias |
| Chain.Blockchain.constructor | examples/blockchain/src/blockchain.rs:54-86 | the five genesis accounts under their names, each with its address, balance 1000000, nonce 0 and nothing else, on one block; the chain is well formed if and only if their addresses differ |
| Chain.Blockchain.Scan | examples/blockchain/src/blockchain.rs:137-155 | the scan finds an account if and only if one has the address, and with distinct addresses always the same one, in any iteration order |
| Chain.Blockchain.GetAccount | examples/blockchain/src/blockchain.rs:178-185 | the account at an address, or the invalid-address error |
| Chain.Blockchain.Exist | examples/blockchain/src/blockchain.rs:240-242 | whether any account has the address |
| Chain.Blockchain.StorageAt | examples/blockchain/src/blockchain.rs:195-201 | the slot's value, or which of account and key is missing |
| Chain.Blockchain.AddContract | examples/blockchain/src/blockchain.rs:187-193 | inserts under a fresh alias, or panics when 2^31 − 1 contracts have been numbered; the chain stays valid if and only if the address was free |
| Chain.Blockchain.PutStorage | examples/blockchain/src/blockchain.rs:203-208 | overwrites one slot of one account, under its alias and by address, or panics when there is none |
| Chain.Blockchain.PutAccount | examples/blockchain/src/blockchain.rs:244-249 | overwrites balance and nonce of one account, under its alias and by address, or panics when there is none |
| Chain.Blockchain.IncreaseNonce | examples/blockchain/src/blockchain.rs:132-135 | adds one to one nonce; panics if and only if there is no such alias or the nonce is the greatest 256-bit number |
| Chain.Blockchain.Commit | examples/blockchain/src/blockchain.rs:88-96 | appends a block that links to the previous one |
| Chain.Blockchain.BlockHash | examples/blockchain/src/blockchain.rs:210-212 | the hash of a block there is; any other number panics |
| Chain.Blockchain.BlockNumber | examples/blockchain/src/blockchain.rs:224-226 | the number of the last block, which the links make the block count less one |
| Cache.LookupReadsView | durian/src/state.rs:80-94 | a lookup followed by a read yields the cached value, else the provider's, else zero |
| Cache.CacheCoherence | durian/src/state.rs:80-170 | over any operations a read returns the last value written, else the provider's, else zero; dirty is exactly what was written; clean equals the provider's |
| Cache.CodeAfter | durian/src/state.rs:113-117 | an account is dirty exactly when code was set, and holds the code set last |
| Cache.FlushPublishesView | durian/src/state.rs:119-138 | a flush overrides the provider's storage by exactly the dirty slots, and every slot then reads through the provider as it did through the cache |
| Cache.FlushOrderIndependent | durian/src/state.rs:119-138 | every iteration order of the two hash maps ends in the same accounts by address (the aliases of several new ones depend on the order); the flush fails if and only if a dirty slot belongs to an address that neither exists nor is created |
| StateCache.State.FetchAccount | durian/src/state.rs:140-154 | caches the account as the code does, an unknown address as an empty one |
| StateCache.State.FetchStorage | durian/src/state.rs:156-170 | caches the slot clean if the provider has it |
| StateCache.State.StorageAt | durian/src/state.rs:80-94 | returns what the cache shows and caches only clean data |
| StateCache.State.Balance | durian/src/state.rs:46-49 | the balance of the cached entry, which for a freshly cached account is the provider's nonce, or 1 if there is no account |
| StateCache.State.PutSlot | durian/src/state.rs:96-99 | one slot becomes the value, dirty |
| StateCache.State.InitCode | durian/src/state.rs:113-117 | sets the code and marks the account dirty |
| StateCache.State.Timestamp | durian/src/state.rs:56-58 | the number of the last block |
| StateCache.State.FlushStorage | durian/src/state.rs:130-134 | the inner loop writes all dirty slots in any order, or stops at one whose account is missing, having done exactly the slots before it |
| StateCache.State.UpdateState | durian/src/state.rs:119-138 | the nested loop reaches the flushed chain for any order and gives each new account one number, by guarded provider calls alone; it fails exactly when some entry is not flushable or the numbers do not suffice, and then leaves the visits made so far, the last perhaps in part |
| Metering.TotalBounds | durian/src/runtime.rs:98-105 | each scaled charge loses less than one unit |
| Metering.MeteringError | durian/src/execute.rs:76-140 | gas used is the nominal price up to rounding, for any order of charges, and the refund never exceeds the supply |
| HostMachine.RefusedExactly | durian/src/runtime.rs:71-82 | a charge is refused exactly when the exact sum would exceed the limit |
| HostMachine.StepLedger | durian/src/runtime.rs:71-138 | every host call keeps the counter the exact sum of the granted charges, within the limit |
| HostMachine.StepResultOnlyByRet | durian/src/runtime.rs:188-197 | a call stops the run with a result if and only if it is a `ret` of readable memory, whose bytes the result then is |
| HostMachine.StepPanicsExactly | durian/src/runtime.rs:706-740 | a host call panics if and only if it is `dcall`, `scall`, or a paid `block_hash` of a missing block |
| HostMachine.TopicsRead | durian/src/runtime.rs:649-661 | topics are read exactly when all lie in memory below the address limit, the i-th at offset 32·i |
| HostMachine.LogEffect | durian/src/runtime.rs:631-672 | a successful `elog` appends one entry with the bytes pointed at; a failed one, or any other call, appends nothing |
| HostMachine.StepLogsPaid | durian/src/runtime.rs:641-647 | 1170 times the number of log entries stays within the gas counter |
| HostEffects.FreshSlotReads | durian/src/state.rs:80-94 | what nobody has written reads as the provider has it, else as 32 zero bytes |
| HostEffects.StorageReadEffect | durian/src/runtime.rs:141-152 | when a read succeeds, what it costs, and that it delivers the visible value and nothing else |
| HostEffects.StorageWriteFails | durian/src/runtime.rs:155-160 | a write needs both words in memory |
| HostEffects.StorageWriteEffect | durian/src/runtime.rs:155-176 | when a write succeeds, what it costs, and that later reads see it at its key only |
| HostEffects.GasEffect | durian/src/runtime.rs:213-220 | `gas` charges its amount and nothing else, or is refused |
| HostEffects.CopyEffect | durian/src/runtime.rs:228-236 | inputs, words and addresses arrive unchanged in memory at the stated cost |
| HostEffects.CopySucceeds | durian/src/runtime.rs:405-417 | when a copying call succeeds |
| HostEffects.ElogCost | durian/src/runtime.rs:637-663 | when a log succeeds and what it costs, which the data does not influence |
| HostEffects.CcallOutcome | durian/src/runtime.rs:267-385 | which of -1, GasLimit, memory error and Panic a `ccall` ends in, from its arguments, the balance compared with and the gas |
| HostEffects.ComparedBalance | durian/src/state.rs:46-49 | the balance compared with is the nonce behind the cache, or 1 for a missing account |
| HostEffects.CcallNeverCalls | durian/src/runtime.rs:267-385 | a call that does not end the run replied -1 |
| HostEffects.InputLengthAnswer | durian/src/runtime.rs:223-225 | `input_length` answers the number of bytes that copying the input delivers, as a signed 32-bit word |
| HostEffects.BlockAnswers | durian/src/runtime.rs:576-603 | block number and timestamp are the block count less one; `debug` answers nothing |
| HostEffects.QueriesThatFail | durian/src/runtime.rs:241-265 | `panic`, `create`, `suicide`, `difficulty`, `dcall` and `scall` always end the run, each with its error |
| HostEffects.QueriesChangeNothing | durian/src/runtime.rs:576-603 | no query changes the machine |
| HostEffects.BlockHashEffect | durian/src/runtime.rs:567-573 | delivers the hash of an existing block for 53 units; panics on any other block once paid |
| HostEffects.StepCharges | durian/src/runtime.rs:71-138 | what each host call adds to the ledger, by kind of call and by what it wrote over |
| RuntimeHost.Runtime.ChargeGas | durian/src/runtime.rs:71-82 | grants or refuses a charge; a refused one changes nothing |
| RuntimeHost.Runtime.AdjustedCharge | durian/src/runtime.rs:98-105 | charges nominal gas scaled to wasm gas |
| RuntimeHost.Runtime.AdjustedOverflowCharge | durian/src/runtime.rs:110-138 | the same, refusing amounts that overflow |
| RuntimeHost.Runtime.ServeStorageRead | durian/src/runtime.rs:141-152 | does the read step of the machine |
| RuntimeHost.Runtime.ServeStorageWrite | durian/src/runtime.rs:155-176 | does the write step of the machine |
| RuntimeHost.Runtime.ServeRet | durian/src/runtime.rs:188-197 | does the return step of the machine |
| RuntimeHost.Runtime.ServeGas | durian/src/runtime.rs:213-220 | does the raw charge step |
| RuntimeHost.Runtime.ReturnBytes | durian/src/runtime.rs:405-417 | charges, then writes a word or an address |
| RuntimeHost.Runtime.ServeCcall | durian/src/runtime.rs:267-385 | does the unfinished call step |
| RuntimeHost.Runtime.ReadTopics | durian/src/runtime.rs:649-661 | the topic loop fills exactly the topics of the specification, or fails as it does |
| RuntimeHost.Runtime.ServeElog | durian/src/runtime.rs:631-672 | does the log step of the machine |
| RuntimeHost.Runtime.ServeBlockHash | durian/src/runtime.rs:567-573 | does the block hash step |
| RuntimeHost.Runtime.ServeCopyOut | durian/src/runtime.rs:228-236 | does the copying step, for inputs, words and addresses of the transaction and the chain |
| RuntimeHost.Runtime.ServeQuery | durian/src/runtime.rs:222-265 | answers or fails as the specification of the query says |
| RuntimeHost.Runtime.InvokeIndex | durian/src/runtime.rs:706-740 | dispatches each host call that can be linked to its step, the two without a handler to the panic |
| Refinement.StepRefines | durian/src/runtime.rs:141-176 | a host call over the cache and over a snapshot with the true balance has one outcome, one core, and keeps snapshot = provider storage overridden by dirty slots, if and only if it is not a `ccall` whose value lies between the two balances |
| Refinement.StepStoragePaid | durian/src/runtime.rs:155-176 | 53333·(slots raised from zero) + 13333·(other dirty slots) stays within the gas counter |
| Runs.RunIs | durian/src/execute.rs:107-108 | every run is a chain of served calls: each reply is the value its call answered and the memory it left, each call meets the machine the one before left, and the last move decides the ending |
| Runs.RunIsUnique | durian/src/execute.rs:107-108 | and every such chain is the run |
| Runs.RunHealthy | durian/src/runtime.rs:141-176 | ledger, log price, storage price and cache coherence hold at the end of every run |
| Runs.RunResult | durian/src/runtime.rs:188-197 | the result stays untouched until `ret`, which is the last call and whose bytes it is |
| Runs.RunPanicsExactly | durian/src/runtime.rs:706-740 | a run panics if and only if its last call is one that panics and is not refused for want of gas |
| Runs.RunCharges | durian/src/runtime.rs:71-138 | a run that does not fail has been charged for its answered calls, in order, and nothing else |
| Runs.UnbiasedWhenBalanced | durian/src/state.rs:46-49 | where nonce and balance agree, or no `ccall` is made, no call tells the stored balance from the true one |
| Runs.RunRefines | durian/src/execute.rs:107-108 | over cache and snapshot a contract makes the same moves and ends alike, as long as no call tells the stored balance from the true one |
| Runs.GasEndsRun | durian/src/parser.rs:54-59 | a metered contract makes at most two host calls per unit of gas, whatever it does; a `gas` call for nothing, as `memory.grow 0` makes, counts among the calls to be prepaid |
| Runs.MoreSteps | durian/src/execute.rs:107-108 | the step bound of the model does not matter once a run is not cut |
| Execution.PreparedExactly | durian/src/execute.rs:25-84 | which code a transaction loads, what the contract sees as address, sender, origin, value and arguments, its gas limit, and exactly when and with which error this fails |
| Execution.TargetExactly | durian/src/utils.rs:11-19 | a call targets the address it names, a create bytes 12 to 31 of the hash of 0xff, sender, salt and code hash |
| Execution.GasLeftNeverFails | durian/src/execute.rs:135-137 | every machine a session ends in, over either storage, has gas left: the limit less its charges, so the `expect` holds |
| Execution.FlushNeverFails | durian/src/execute.rs:152-156 | every slot a flush writes belongs to an account that exists or is created first, so the provider's `unwrap` holds |
| Execution.FlushCreates | durian/src/execute.rs:152-156 | a flush creates the target of a create that is not there yet, and nothing else |
| Execution.RunContract | durian/src/execute.rs:107-108 | the loop over host calls is the run of the specification |
| Execution.BuildParams | durian/src/execute.rs:25-62 | parameters, or the invalid-address error of a call to nobody |
| Execution.LoadContract | durian/src/execute.rs:64-84 | loading and gas conversion with their errors |
| Execution.RunModule | durian/src/execute.rs:89-133 | initial memory charge, start function, exported call, and which endings fail |
| Execution.Publish | durian/src/execute.rs:152-156 | sets the code and flushes; without a number for the new account it panics with nothing written |
| Execution.Settle | durian/src/execute.rs:135-165 | the gas refund, and commit, drop or panic |
| Execution.Execute | durian/src/execute.rs:24-166 | the chain and the answer are those of the specification; the stored accounts are made by guarded calls and determined: the target, if new, under the next alias, all others in place; a failure or an empty result leaves accounts and counter exactly as they were |
| Theorems.ExecuteRefinesReference | durian/src/execute.rs:24-166 | for a run in which no `ccall` tells the stored balance from the true one, cache, dirty bits and flush equal a snapshot published at the end: always in result and gas, and in the chain if and only if no create commits visibly over an existing account |
| Theorems.ResultsAgreeExactly | durian/src/state.rs:46-49 | code and reference answer alike for every realizable contract if and only if the target exists with nonce equal to balance, or the gas converts to less than 4104 units (a page and a `ccall`), or the transaction fails before a contract runs |
| Theorems.BalancedAlike | durian/src/state.rs:46-49 | where nonce equals balance they answer alike for every strategy at all, and for a call leave the same chain |
| Realizability.PoorLimited | durian/src/execute.rs:105 | with less gas than a page and the instructions of a call cost, a realizable contract has no memory or makes no such call |
| Realizability.FirstMovePaid | durian/src/parser.rs:25 | what memory and call a payment buys: whole pages, at most sixteen, 8192 units for each added one |
| Theorems.ChainsAgreeExactly | durian/src/state.rs:119-138 | they leave the same chain for every realizable contract whose transfers do not tell the balances apart if and only if the transaction does not create over an existing account, or the gas converts to less than 4099 units (a page and a `ret`), or the transaction fails before a contract runs |
| Theorems.OutcomesAgreeExactly | durian/src/execute.rs:24-166 | they agree altogether for every realizable contract if and only if both conditions hold |
| Theorems.HistoryRefines | durian/src/execute.rs:24-166 | the same over whole histories of transactions, of which none creates over an existing account or tells the balances apart |
| Theorems.BalancedHistoryRefines | durian/src/execute.rs:24-166 | so over every history of calls to accounts that have, before it, nonce equal to balance or do not exist, whatever the contracts do |
| Theorems.SettledShape | durian/src/execute.rs:142-165 | what a committed run leaves at its target, and that nothing else changes |
| Theorems.AllOrNothing | durian/src/execute.rs:107-165 | a success answers with the bytes the contract returned; the chain changes only if there are any, and never on a failure |
| Theorems.AnswerNames | durian/src/execute.rs:142-164 | a success names the contract that ran, which for a call or a commit has an account afterwards, and carries no logs |
| Theorems.SucceedsExactly | durian/src/execute.rs:105-133 | a transaction succeeds if and only if it loads, its initial memory is paid, its start function ends normally, and there is no `call`, or `call` ends by itself, by any trap of the machine, or by `ret`, with a number left for a new account |
| Theorems.MemoryFailure | durian/src/execute.rs:105 | a transaction that cannot pay 4096 units a page fails with GasLimit |
| Theorems.StartFailure | durian/src/error.rs:81-96 | the error of every abnormal end of the start function |
| Theorems.CallFailure | durian/src/execute.rs:110-133 | the error of every failing end of the exported `call` |
| Theorems.ReadReachesCaller | durian/src/runtime.rs:141-152 | a realizable contract that reads a slot and returns what it was told gives the caller what the chain holds there |
| Theorems.WritesPublishedExactly | durian/src/execute.rs:142-156 | a successful run's writes are published if and only if the result is non-empty or nothing was written |
| Theorems.OthersUntouched | durian/src/execute.rs:152-156 | only the target's account changes, and only a create adds one |
| Theorems.Conservation | durian/src/state.rs:119-138 | balances, nonces and the total balance are kept if and only if no create commits over an account whose balance and nonce differ |
| Theorems.FundsKeptExactly | durian/src/state.rs:119-138 | they are kept by every realizable contract if and only if the transaction does not create over an account whose balance and nonce differ, or its gas does not convert, or converts to less than 4099 units |
| Theorems.HistoryConserves | durian/src/state.rs:119-138 | over histories without such a create no funds move |
| Theorems.SessionCharges | durian/src/runtime.rs:71-138 | the ledger of a session is its initial memory followed by the charges of the calls made, in order |
| Theorems.GasUsed | durian/src/execute.rs:139-140 | 8T+3R−2n ≤ 8·used ≤ 8T+3R+9 for every transaction that ran, T, R and n being taken from that bill, and the refund never exceeds the supply |
| Theorems.ChangedSlotsPaid | durian/src/runtime.rs:155-176 | 53333 units for every slot a transaction raises from zero and 13333 for every other slot it changes stay within the gas supplied |
| Theorems.SessionLogsPaid | durian/src/runtime.rs:631-672 | 1170 units for every log entry of a session stay within the gas supplied |
| Theorems.GasEndsSession | durian/src/execute.rs:105-108 | neither phase of a metered module runs for ever |
| Theorems.PanicsExactly | durian/src/execute.rs:24-166 | executing panics if and only if the gas conversion overflows 256 bits, the last call of the start function or of `call` is one that panics, or the contract counter overflows at the commit |
| Histories.Perform | examples/blockchain/src/blockchain.rs:88-135 | a transaction, a nonce increment or a commit on the objects is the corresponding step of a history |
| Histories.EventStaysSound | examples/blockchain/src/blockchain.rs:88-208 | each event of a history, a transaction known only by its guarded calls, keeps addresses distinct, future aliases free and blocks linked |
| Histories.HistoryStaysSound | examples/blockchain/src/blockchain.rs:88-208 | from a sound chain on, any history of transactions, increments and commits has these at every point, and no account is lost or changes its address |
| Histories.UniqueSinceGenesis | examples/blockchain/src/blockchain.rs:54-86 | from genesis on, addresses are unique at every point of a history if and only if the five first ones differ |
| Histories.HistoryFunds | examples/blockchain/src/blockchain.rs:132-135 | unless a transaction may exchange funds, at every point of such a history balances and the total are what they were, and each nonce counts its increments |
| Findings.RedeployExchangesFunds | durian/src/state.rs:120-127 | a realizable contract with one page and enough gas whose redeployment exchanges balance and nonce and keeps the old code |
| Findings.TransferComparesNonce | durian/src/runtime.rs:267-308 | a realizable new contract with one page and enough gas that fails because its transfer is compared with 1 instead of its balance 0, where the reference deploys it |
| Findings.SuccessLosesWrite | durian/src/execute.rs:142-150 | a realizable contract whose success loses its write |
| Findings.TrapIsSuccess | durian/src/execute.rs:108-133 | a realizable contract that traps at once is a success with an empty result, on every chain and with any gas at all |
| Findings.MissingCallIsSuccess | durian/src/execute.rs:108-133 | so is code without a `call` |
| Findings.UnknownBlockPanics | examples/blockchain/src/blockchain.rs:210-212 | a realizable contract with enough gas that panics its host by asking for the next block |
| Findings.UnhandledCallsPanic | durian/src/env.rs:175-176 | realizable contracts with enough gas that panic their host by `dcall` and `scall` |
| Ether.FormatEther | examples/web3/src/types/transaction_request.rs:34-47 | prints exactly i / 10^18, with no superfluous leading zero, trailing zero or trailing point |
| Ether.CanonicalUnique | examples/web3/src/types/transaction_request.rs:34-47 | a number has one such string, so the printed one is the only candidate |
| Ether.PrintsDiffer | examples/web3/src/types/transaction_request.rs:34-47 | two amounts never print alike |
| Preimages.AddressLayout | durian/src/utils.rs:13-17 | where constant, sender, salt and code hash are in the 85 bytes |
| Preimages.TruncateAt | durian/src/utils.rs:18 | the address is bytes 12 to 31 of the hash |
| Preimages.ContractAddress | durian/src/utils.rs:11-19 | the 85-byte buffer is filled completely and hashed as in EIP-1014, "Specification" |
| Preimages.AddressPreimageInjective | durian/src/utils.rs:13-18 | the buffer determines sender, salt and code hash |
| Preimages.TransactionLayout | examples/blockchain/src/blockchain.rs:22-51 | where every field is in the preimage, and which byte of each word |
| Preimages.TransactionHash | examples/blockchain/src/blockchain.rs:22-51 | the buffer hashed is the transaction's preimage |
| Numbers.BigEndianAt | durian/src/runtime.rs:411-417 | words in memory have the most significant byte first |
| Numbers.BigEndianOnto | durian/src/runtime.rs:59-65 | every 32 bytes are one 256-bit number, and are how it is written |
| Preimages.PreimageInjective | examples/blockchain/src/blockchain.rs:22-51 | within one shape the preimage determines the transaction |
| Preimages.PreimageSeparates | examples/blockchain/src/blockchain.rs:38-48 | and between two different shapes it never does |

## Left out

- `Chain.Blockchain.AddContract`: a build without overflow checks would wrap the counter after 2^31 − 1 contracts instead of panicking.
- `Runs.GasEndsRun`: that gas injection prepays every host call is the hypothesis `Metered`; the injector itself is not part of this model, and an unmetered run is cut after the step bound.
- `Theorems.ResultsAgreeExactly`: `Realizable` is what gas injection and the resolver guarantee, taken as a hypothesis; instructions are counted only as far as host calls need them, so that conditions on gas are those of the smallest contracts. The same holds of `ChainsAgreeExactly`, `OutcomesAgreeExactly` and `FundsKeptExactly`.
- `Theorems.HistoryConserves`: one direction only, because two exchanges can cancel out; so is `Histories.HistoryFunds`.
- `Theorems.HistoryRefines`: one direction only, because what one transaction does wrong a later one can overwrite.
- Wasm instructions, module parsing, gas injection and linking: foreign code, represented by contracts as arbitrary strategies and by the `load` parameter.
- Keccak: an arbitrary function; claims are about the bytes hashed.
- `debug` with tracing switched on, which also reads its arguments.
- `gasleft` and `create2`: not linkable under the default costs.
- The commented-out bodies of `do_call`, `create` and `suicide`: only what runs today is modelled.
- Error messages: error kinds carry no text.
- A second flush of one cache: `execute` flushes once.
- Exhaustion of the host's own memory and stack.
- `transactions` and the lookups by alias of the example chain: plain map accesses.
- The Cap'n Proto server and client and the RPC layer: field copying and I/O.
