# Euclid: verified settlement and pool arithmetic

Euclid is a hub-and-spoke cross-chain exchange. The hub keeps a virtual-balance ledger, a router with a ledger
of what every chain's escrow holds, and constant-product pools (VLPs). Every integrated chain has a factory and
one escrow contract per token. Requests travel from factories to the hub, releases travel from the hub to
factories, and acknowledgements and timeouts come back. This project models those contracts in Dafny and proves
what holds after every run of them.

## How it is built

| module | what it holds |
|---|---|
| `Arith`, `Sums`, `Types` | checked 128-bit and 18-digit decimal arithmetic, weighted sums over maps and sequences, identifiers |
| `PoolMath`, `VlpModel`, `PoolLaws`, `VlpContract` | pool formulas and their laws; the pool as a step machine; what each message to it does; the pool contract's stored state |
| `ReleaseModel` | the greedy escrow release and its read-only simulation |
| `HubModel`, `HubContracts` | every hub transaction as `Hub -> Option<TxResult>`; the hub's stored state with roll-back |
| `HubFlow`, `HubPools`, `HubRemoval`, `HubExcess`, `HubEffects`, `HubShares`, `HubExample` | conservation, pool backing and simulation, what a removal leaves its sender, what pools hold beyond their reserves, what each transaction does and when it succeeds, LP movement, worked transactions |
| `EscrowModel`, `EscrowContract` | the multi-denomination escrow |
| `TxIds`, `MsgQueue` | transaction ids and the bounded queue of native messages |
| `FactoryModel`, `FactoryLaws`, `FactoryContract` | requests, settlement, release payouts; what each message does and when it succeeds; the stored state |
| `SystemModel`, `SystemLinks`, `SystemLaws`, `SystemRuns`, `SystemRestore`, `SystemPayout` | the whole protocol as steps in any order, and the theorems about its runs |

Code that computes is a function. Code that updates storage is a class whose methods follow the contract's
steps and are proved equal to a function on the stored value (`State()`); the laws are then proved about that
function. A method that fails half-way leaves whatever it wrote, and `Execute` puts the old state back, which
is what the chain does.

The protocol (`SystemModel.Next`) lets these things happen in any order: a factory records a request; the hub
accepts or refuses it, or it times out; the acknowledgement reaches the factory, possibly several times, and a
handler that fails changes nothing; the hub's release packets are paid, refused or time out; the hub hears of a
failed release; transactions start on the hub itself; denominations are allowed and disallowed. A request or
release packet is received at most once and never after its timeout, as ICS-004, "Channel and Packet
Semantics", promises for unordered channels.

Points on which the code surprises, all kept as they are:

- A ledger transfer of an account to itself creates balance, because both entries are read before either is
  written. The hub model keeps a history variable of the amounts so created, and conservation is stated exactly
  with it (`HubFlow.HubConserves`, `HubFlow.SelfTransferInflates`).
- `calculate_swap` floors the new reserve, so payouts round up and the reserve product can fall
  (`PoolMath.SwapProductCanFall`); `PoolMath.SwapProductLaw` says exactly when it does.
- The release simulation never lowers the escrow it reads, so a chain listed twice can be promised twice
  (`ReleaseModel.SimulationOverpromises`); `ReleaseModel.SimulationExact` says from the inputs alone when it is right.
- A pool that holds anything of a token beyond its reserve refuses every routed swap in which that token reaches
  it, until a direct swap uses the excess up (`HubExcess.RoutedSwapNeedsNoExcess`).
- A removal pays the two tokens in the pool's order and releases the two payouts under the tokens of the request,
  whose pair is never put in order. A pair in reverse can spend balance the sender had before
  (`HubExample.ReversedRemovalRuns`); `HubRemoval.RemovalSparesBalances` says exactly when a removal does not.
- A swap request asks for attached native funds of at least the amount after the partner fee, while a refund
  returns, and an acceptance spends, the amount before it (`FactoryModel.RefundCanExceed`);
  `FactoryModel.SwapCovered` says exactly when a request's own attachment covers its settlement.
- A removal request names its own amount of LP, which is never compared with the LP tokens that came with it
  (`FactoryModel.RemovalCanExceed`); `FactoryModel.RemovalCovered` says exactly when those cover what is burned or
  sent back.

`HubExample` also works through a first and a later add, a swap at two different rates and a routed swap with their
numbers.

## Model

| member | source | states |
|---|---|---|
| SystemRuns.ChainBacked | contracts/hub/router/src/execute.rs:331-382 | After every interleaving, for each chain and token: hub escrow balance + releases neither paid nor restored = the escrow contract's total + deposits the hub accepted and the factory has not settled |
| SystemRuns.ChainLpAgrees | contracts/liquidity/factory/src/ibc/ack_and_timeout.rs:332-339 | After every interleaving, for each chain and pool: the hub's LP for the chain = LP the factory issued + accepted unsettled adds − accepted unsettled removes |
| SystemRuns.Solvent | contracts/hub/router/src/ibc/ack_and_timeout.rs:255-289 | After every run, virtual balances less self-created ones, plus releases on their way, equal what the escrow contracts hold plus accepted deposits on their way |
| SystemRuns.RunSound | contracts/hub/router/src/ibc/receive.rs:82-184 | The invariant behind the theorems holds after every run: request records, pools, hub ledger, escrow books, backing and LP agreement over any set of chains |
| SystemRuns.PaidExactlyOnce | contracts/liquidity/factory/src/ibc/ack_and_timeout.rs:324-405 | A settled request has paid, denomination by denomination, exactly the amount requested before the partner fee: to the escrow and the partner it named if accepted, to its sender if not; an unsettled one has paid nothing |
| SystemRuns.SettledForGood | contracts/liquidity/factory/src/ibc/ack_and_timeout.rs:487-563 | Once a request is settled, no later step of any run, repeated acknowledgements and timeouts included, changes it |
| SystemRuns.RequestsHonoured | contracts/liquidity/factory/src/execute.rs:598-606 | In every reachable state each packet says field by field what its request said, an accepted swap paid at least the minimum its request named, and an accepted removal burned the LP it named |
| SystemRuns.SettlesIff | contracts/liquidity/factory/src/ibc/ack_and_timeout.rs:317-565 | In every reachable state an unsettled request is settled by its acknowledgement exactly when, refused, its factory is not on the hub's own chain, and, accepted, the escrows can take its coins, shares and fees fit and the pool's LP token is known |
| SystemRuns.StepKeepsSound | contracts/hub/router/src/ibc/receive.rs:299-572 | Every protocol step keeps the pools valid and covered and the hub ledger conserved |
| SystemRuns.StepKeepsVaults | contracts/liquidity/factory/src/ibc/receive.rs:164-202 | Every protocol step keeps every escrow contract's books in step |
| SystemRestore.FailedReleaseRestores | contracts/hub/router/src/ibc/ack_and_timeout.rs:255-289 | In every reachable state a failed release can be put back if and only if neither ledger entry would overflow; then the chain's escrow balance and the balance of the account it was taken from grow by exactly its amount, and no other account changes |
| SystemRestore.ReleasesPaidExactly | contracts/liquidity/factory/src/ibc/receive.rs:164-202 | In every reachable state a paid release was paid in full, coin by coin, to the address it names, and for any other nothing was paid |
| SystemRestore.TxOnRecord | contracts/hub/router/src/execute.rs:331-379 | Every release packet of every transaction carries a positive amount to a registered chain out of an escrow entry the hub keeps |
| SystemPayout.WaitingIsPaid | contracts/liquidity/factory/src/ibc/receive.rs:164-202 | In every reachable state where a chain has no accepted deposit of a token to settle and no disallowed denomination of it holding anything, every waiting release of that token to that chain is paid |
| SystemPayout.WaitingIsHeld | contracts/hub/router/src/execute.rs:331-382 | In every reachable state with no accepted deposit to settle there, a waiting release is positive and within its escrow contract's total |
| SystemPayout.PaysWithinTotal | contracts/liquidity/escrow/src/execute.rs:203-262 | An escrow whose disallowed denominations hold nothing pays every positive amount within its total |
| SystemPayout.FailedReleaseFits | contracts/hub/router/src/ibc/ack_and_timeout.rs:255-289 | In every reachable state with no accepted deposit to settle there, a failed release can be put back if and only if the balance of the account it was taken from would not overflow; the escrow balance never does |
| SystemLaws.StepKeepsLaws | contracts/liquidity/factory/src/ibc/ack_and_timeout.rs:65-152 | Each kind of step keeps backing and LP agreement, for every token, pool and set of chains |
| SystemLaws.HubReceiveKeepsLaws | contracts/hub/router/src/ibc/receive.rs:82-184 | Receiving a request keeps both laws whether the hub accepts it or fails and rolls back |
| SystemLaws.FactoryAckKeepsLaws | contracts/liquidity/factory/src/reply.rs:58-77 | An acknowledgement or timeout keeps both laws, repeated and failing ones included |
| SystemLaws.FactoryReceiveKeepsLaws | contracts/liquidity/factory/src/ibc/receive.rs:164-202 | A release packet keeps both laws whether the escrow pays or fails |
| SystemLaws.HubAckKeepsLaws | contracts/hub/router/src/ibc/ack_and_timeout.rs:97-122 | A failed or timed-out release keeps both laws whether the hub can restore it or not |
| SystemLaws.AckSettles | contracts/liquidity/factory/src/ibc/ack_and_timeout.rs:317-565 | Settling puts into the escrow exactly the deposit and into the shares exactly the reported LP of an accepted request, and nothing of any other |
| SystemLaws.DepositIsRequested | contracts/hub/router/src/ibc/receive.rs:319-346 | What an accepted request adds to the hub's escrow ledger is exactly what the request named, token by token |
| SystemLinks.StepKeepsLinks | contracts/liquidity/factory/src/execute.rs:212-628 | No step loses, duplicates or confuses a request: each packet agrees with its pending record until settled, and no two packets of a chain share an id |
| SystemLinks.RequestGrows | contracts/liquidity/factory/src/execute.rs:212-628 | A request issues the next id, leaves exactly one pending record, which agrees with its packet, and sends a packet that says field by field what the request said |
| SystemLinks.SettlementOutcome | contracts/liquidity/factory/src/ibc/ack_and_timeout.rs:317-565 | Acceptance sends the coins to the escrows, the fee to the partner named or else the sender, and mints or burns LP; refusal or timeout sends the coins back to the sender |
| SystemLinks.SettlementTotals | contracts/liquidity/factory/src/ibc/ack_and_timeout.rs:341-405 | What a settlement sends adds up to what its request named, in every denomination |
| HubFlow.HubConserves | contracts/hub/virtual_balance/src/execute.rs:11-141 | After any transactions in any order, all virtual balances of a token = its escrow ledger over all chains + what transfers to oneself created |
| HubFlow.TxFlow | contracts/hub/router/src/ibc/receive.rs:82-184 | Every transaction moves ledger and escrow ledger together: up by its deposits, down by its releases, per token and set of chains |
| HubFlow.MintFlow | contracts/hub/virtual_balance/src/execute.rs:11-44 | A mint raises exactly one token's ledger by the amount |
| HubFlow.BurnFlow | contracts/hub/virtual_balance/src/execute.rs:46-80 | A burn lowers exactly one token's ledger by the amount |
| HubFlow.TransferFlow | contracts/hub/virtual_balance/src/execute.rs:82-141 | A transfer keeps the token's ledger sum if and only if the two accounts differ or the amount is zero |
| HubFlow.SelfTransferInflates | contracts/hub/virtual_balance/src/execute.rs:110-133 | A transfer to oneself succeeds and raises the account and the ledger sum by the amount |
| HubFlow.ReleaseFlow | contracts/hub/router/src/execute.rs:274-415 | A release fails if and only if the balance is too small, or an unregistered chain is listed after entries that cannot bear the amount; burn, packets and escrow decrease agree, per token and set of chains |
| HubFlow.SwapFlow | contracts/hub/vlp/src/execute.rs:433-567 | A swap of any length moves no value in or out of the ledger and touches no LP, fee setting or escrow |
| HubFlow.AddFlow | contracts/hub/router/src/ibc/receive.rs:299-415 | An add raises escrow ledger and ledger by both deposits |
| HubFlow.RemoveFlow | contracts/hub/router/src/reply.rs:131-202 | A removal lowers escrow ledger and ledger by exactly the packets it sends |
| HubFlow.SwapTxFlow | contracts/hub/router/src/ibc/receive.rs:457-572 | A swap raises both ledgers by its input and lowers both by the packets it sends |
| HubFlow.ReleaseFailedFlow | contracts/hub/router/src/ibc/ack_and_timeout.rs:255-289 | A restored release raises both ledgers by its amount |
| HubPools.TxKeepsValid | contracts/hub/vlp/src/execute.rs:364-404 | Every transaction leaves every pool valid and with a virtual balance of each of its tokens at least its reserve |
| HubPools.HopExcess | contracts/hub/vlp/src/execute.rs:364-567 | One hop uses up exactly the input beyond the reserve and leaves balance and reserve of every other pool in step |
| HubPools.AddExcess | contracts/hub/router/src/ibc/receive.rs:319-415 | An add moves a pool's balance and its reserve by the same amounts |
| HubPools.RemoveExcess | contracts/hub/vlp/src/execute.rs:218-318 | A removal moves a pool's balance and its reserve by the same amounts |
| HubPools.RouteKeepsValid | contracts/hub/vlp/src/execute.rs:433-567 | A route of any length keeps every pool valid and covered and pays at least the minimum |
| HubPools.RouteMovesOn | contracts/hub/vlp/src/execute.rs:364-388 | No successful route visits the same pool twice in a row |
| HubPools.SwapMatchesSimulation | contracts/hub/vlp/src/query.rs:18-70 | Over pairwise distinct pools a successful swap pays exactly what the router's simulation said before it, and at least the minimum |
| HubPools.RouteSimulates | contracts/hub/vlp/src/reply.rs:8-25 | Recursive simulation on the state before a route gives the route's asset and amount |
| HubPools.SimulationHandsOn | contracts/hub/vlp/src/query.rs:18-70 | A simulated route is the simulation of its first pools handed on to the last, every pool as it stands |
| HubPools.RouterSimulationLaw | contracts/hub/router/src/query.rs:91-141 | The router answers a simulation exactly when it finds the route and the route ends in the token asked for, with that route's amount |
| HubPools.MinimumAlreadyMet | contracts/hub/router/src/reply.rs:204-267 | The router's own minimum check can never be the one that fails |
| HubRemoval.RemovalMoves | contracts/hub/router/src/reply.rs:131-202 | A removal moves the sender's balance of each pool token up by its payout and down by what the chains can bear of its own payout, or of the other token's payout for a pair in reverse |
| HubRemoval.RemovalSparesBalances | contracts/liquidity/factory/src/execute.rs:387-464 | A removal leaves the sender's earlier balances whole if and only if the pair is sorted, or what the chains can bear of each payout under the other token is within the other payout |
| HubRemoval.ReleaseTakes | contracts/hub/router/src/execute.rs:326-382 | A release takes min(amount, what the listed chains can bear) from one token of one account and leaves every other token and its capacity |
| HubExcess.ExcessIsReceived | contracts/hub/virtual_balance/src/execute.rs:82-141 | In every run in which no pool acts on its own, each pool's balance is its reserve plus its account's balance at creation plus every gift since: transfers, treasury fees and payouts to it, releases restored to it, less what direct swaps spent |
| HubExcess.PoolExact | contracts/hub/vlp/src/execute.rs:364-404 | Pool by pool: if nobody sent a pool anything or made it a treasury, it holds exactly its reserves, whatever happened to other pools |
| HubExcess.QuietRunConserves | contracts/hub/virtual_balance/src/execute.rs:110-133 | Where no account transfers to itself, no pool is its own treasury and no direct swap is paid to its last pool, no balance is created: virtual balances equal the escrow ledger, token by token |
| HubExcess.SwapNeedsExcess | contracts/hub/vlp/src/execute.rs:364-388 | A swap runs only when the pool holds exactly the input beyond its reserve |
| HubExcess.RoutedSwapNeedsNoExcess | contracts/hub/router/src/ibc/receive.rs:521-572 | A routed swap succeeds only if no pool of the route, first or later, holds anything of the token that reaches it beyond its reserve |
| HubExcess.RouteExcess | contracts/hub/vlp/src/execute.rs:433-567 | A whole route uses up the input's excess at its first pool and otherwise leaves with each pool exactly the fees and payout it pays to that pool |
| HubExcess.TxGains | contracts/hub/vlp/src/execute.rs:364-567 | Every transaction in which no pool acts on its own changes what each pool holds beyond its reserves by exactly its gift to that pool |
| HubExcess.DirectSwapRefused | contracts/hub/vlp/src/execute.rs:364-388 | A pool whose balances equal its reserves refuses every swap without a preceding mint or transfer to it |
| HubEffects.MintLaw | contracts/hub/virtual_balance/src/execute.rs:11-44 | A mint succeeds exactly for a positive amount that fits, and raises one account's balance of one token |
| HubEffects.BurnLaw | contracts/hub/virtual_balance/src/execute.rs:46-80 | A burn succeeds exactly for a positive amount that is there, and lowers one account's balance of one token |
| HubEffects.TransferLaw | contracts/hub/virtual_balance/src/execute.rs:82-141 | A transfer succeeds exactly when the amount is there and fits, and moves it between two balances; to oneself it adds |
| HubEffects.TransferTxLaw | contracts/hub/virtual_balance/src/execute.rs:82-141 | A user's transfer transaction moves the amount from the named account to the named account and changes nothing else |
| HubEffects.ReleaseSends | contracts/hub/router/src/execute.rs:347-379 | Packet i of a release names the account it was taken from and carries the i-th nonzero share of the list to that entry's own chain and address |
| HubEffects.WithdrawLeaves | contracts/hub/router/src/execute.rs:242-272 | A withdrawal succeeds exactly when the amount is there and every chain it reaches is registered, and takes what the listed chains can bear, of the whole balance where no amount is named |
| HubEffects.RouteLaw | contracts/hub/router/src/query.rs:178-194 | A route is found exactly when it starts and ends at the named tokens and each leg has a registered pool, and it visits those pools in order |
| HubEffects.MarkedToFail | contracts/hub/vlp/src/execute.rs:331-334 | A leg marked to fail refuses the whole route |
| HubEffects.HopSucceedsIff | contracts/hub/vlp/src/execute.rs:320-567 | One pool's part in a route succeeds exactly when the pool's own swap does and both payments fit |
| HubEffects.RoutePays | contracts/hub/vlp/src/execute.rs:433-567 | A route pays its payout to the sender and its fees to the treasuries, and changes no other account that is no pool's |
| HubEffects.DirectSwapLaw | contracts/hub/vlp/src/execute.rs:320-584 | A direct swap spends the excess of its first pool and pays the account it names at least the minimum it names |
| HubEffects.AddTxLaw | contracts/hub/router/src/ibc/receive.rs:299-415 | An add succeeds exactly when its pool is registered, both amounts can be booked and the pool accepts them at the named tolerance; it changes only the pool and the chain's two escrow entries and reports the LP minted |
| HubEffects.AddTxMints | contracts/hub/vlp/src/query.rs:197-215 | The LP an add reports is the largest that lets neither reserve per share fall, or on an empty pool the integer square root of the product less 1000 |
| HubEffects.RemoveTxIff | contracts/hub/router/src/reply.rs:131-202 | A removal succeeds exactly when its pool pays, both payouts fit the sender's account and both releases, under the request's tokens, are possible after that |
| HubEffects.RemoveTxLeaves | contracts/hub/router/src/reply.rs:131-202 | A removal touches no account but the sender's and the pool's, and reports the LP named |
| HubEffects.SwapTxLaw | contracts/hub/router/src/reply.rs:204-267 | A routed swap succeeds exactly when its route does, ends in the token asked for and every chain its release reaches is registered; the sender keeps what the chains could not bear and no other account but pools and treasuries changes |
| HubEffects.RestoreLaw | contracts/hub/router/src/ibc/ack_and_timeout.rs:255-289 | A failed release is put back exactly when its escrow entry exists, its amount is positive and both entries have room, to the packet's sender and nobody else |
| HubEffects.CreatePoolLaw | contracts/hub/router/src/ibc/receive.rs:186-267 | A pool is created or joined exactly under the router's conditions; a new one starts empty with rates of 10 basis points and the admin as treasury |
| HubEffects.SetFeeLaw | contracts/hub/vlp/src/execute.rs:586-614 | A fee update reaches the pool it names and no other |
| HubEffects.CreateEscrowLaw | contracts/hub/router/src/ibc/receive.rs:269-297 | An escrow is registered once for a chain and token, empty |
| HubEffects.TxReleases | contracts/hub/router/src/execute.rs:361-374 | Every release of every transaction is taken from the transaction's own account, in a token it releases, and goes to a receiver it lists |
| HubShares.TxShares | contracts/hub/vlp/src/execute.rs:156-257 | A transaction changes each chain's LP in each pool by exactly what its acknowledgement reports |
| VlpModel.RunIsValid | contracts/hub/vlp/src/execute.rs:42-614 | In every reachable pool state, whatever fees it was created with, chain LP sums to the supply and zero supply means empty reserves; fees that start within the limit stay within it |
| PoolLaws.SwapCharges | contracts/hub/vlp/src/execute.rs:347-401 | The LP fee and the treasury fee of a swap are each their own rate of the input rounded down, counted in their own counters; the payout is the constant-product payout of the rest, rounded up |
| PoolLaws.SwapSucceedsIff | contracts/hub/vlp/src/execute.rs:320-404 | A swap goes through exactly when the pool holds reserve plus input, trades the token, the fees leave something, the output reserve is there and nothing overflows |
| PoolLaws.AddMints | contracts/hub/vlp/src/execute.rs:141-154 | An add mints the largest LP that lets neither reserve per share fall; on an empty pool the LP plus 1000 is the integer square root of the product |
| PoolLaws.AddBooks | contracts/hub/vlp/src/execute.rs:156-168 | An add books its two amounts, its chain's LP and the supply, and nothing else |
| PoolLaws.AddSucceedsIff | contracts/hub/vlp/src/execute.rs:113-168 | An add is accepted exactly when the chain is registered, the ratios are within the tolerance, the amounts are worth at least one share and nothing overflows |
| PoolLaws.RemovePays | contracts/hub/vlp/src/execute.rs:227-257 | Both payouts of a removal are within the bounds of the fair share, and the books fall by them, the chain's LP and the supply by the LP burned |
| PoolLaws.RegisterLaw | contracts/hub/vlp/src/execute.rs:42-82 | A chain is registered once, under the pool's own pair in either order, and starts without LP |
| PoolLaws.UpdateFeeLaw | contracts/hub/vlp/src/execute.rs:586-614 | Each argument of a fee update changes its own setting, what is not given stays, and neither rate may exceed 1000 basis points |
| PoolLaws.ViewIsFloor | contracts/hub/vlp/src/query.rs:163-178 | A chain's view of a reserve is its exact share rounded down |
| VlpModel.RemoveSucceedsIff | contracts/hub/vlp/src/execute.rs:218-257 | A removal succeeds if and only if the chain holds that much LP and there is a supply; no later subtraction can fail |
| VlpModel.SwapEffect | contracts/hub/vlp/src/execute.rs:347-401 | A swap moves exactly the input less the treasury fee in and the payout out, never more than the reserve |
| VlpModel.SwapProduct | contracts/hub/vlp/src/execute.rs:347-401 | After a pool's swap the reserve product is at least what it was if and only if the LP fee covers the floored remainder; any fall is less than the input side |
| VlpModel.FeesLeaveSomething | contracts/hub/vlp/src/execute.rs:347-359 | Within the fee limits the two floored fees leave a positive amount to swap |
| VlpModel.ViewsWithinReserve | contracts/hub/vlp/src/query.rs:143-178 | The reserve views shown to the chains never add up to more than the reserve |
| VlpModel.AddThenRemove | contracts/hub/vlp/src/execute.rs:100-318 | Adding and at once removing the LP received always succeeds and returns at most what was added, token by token |
| PoolMath.SwapPayout | contracts/hub/vlp/src/query.rs:180-195 | A swap is priced if and only if product and new reserve fit and the new reserve is positive; the payout is ceil(out·s/(in+s)) |
| PoolMath.SwapProductLaw | contracts/hub/vlp/src/query.rs:180-195 | The product does not fall if and only if lpFee·out' ≥ (in·out) mod (in+s); any fall is less than in+s |
| PoolMath.SplittingBound | contracts/hub/vlp/src/query.rs:180-195 | n consecutive pieces pay at least the single swap and at most n−1 units more |
| PoolMath.AllocationIsLargest | contracts/hub/vlp/src/query.rs:197-215 | The allocation formula gives the largest LP that lets neither reserve-per-share fall |
| PoolMath.FirstAllocation | contracts/hub/vlp/src/query.rs:197-209 | The first add succeeds if and only if the product fits and reaches the locked minimum, and mints its integer square root less that minimum |
| PoolMath.Isqrt | contracts/hub/vlp/src/query.rs:205-208 | The integer square root: the largest integer whose square is at most the argument |
| PoolMath.RemovePayoutLaw | contracts/hub/vlp/src/execute.rs:240-250 | A payout is at most the reserve, less than one unit above the exact share and at least the share less r/10^18; the whole supply gets the whole reserve |
| PoolMath.NoProfitAddRemove | contracts/hub/vlp/src/query.rs:197-215 | The payouts for LP just minted are at most the amounts added |
| ReleaseModel.ReleaseIsOptimal | contracts/hub/router/src/execute.rs:326-382 | A release hands out min(amount, sum over chains of min(escrow, sum of the chain's limits)), repeated chains included |
| ReleaseModel.PrefixFirst | contracts/hub/router/src/execute.rs:326-382 | Earlier entries are filled first: each prefix of the list gets a prefix of the draws and is itself served optimally |
| ReleaseModel.ReleaseServes | contracts/hub/router/src/execute.rs:326-382 | Every entry of the list gets, under its own name and in order, what the entries up to it can bear of the amount more than those before it |
| ReleaseModel.LoopTotals | contracts/hub/router/src/execute.rs:384-388 | Draws and remainder add up to the amount, so the mismatch check cannot fail |
| ReleaseModel.LoopConserves | contracts/hub/router/src/execute.rs:347-363 | The loop takes from the escrow ledger exactly what it hands out, per token and set of chains |
| ReleaseModel.SimulationAgrees | contracts/hub/router/src/query.rs:143-176 | For registered, pairwise distinct chains the simulation gives the same draws and remainder as the release |
| ReleaseModel.SimulationExact | contracts/hub/router/src/query.rs:143-176 | For registered chains the simulation is right if and only if no chain's entries, filled in order against its full escrow each time, together claim more than that escrow |
| ReleaseModel.SimulationClosedForm | contracts/hub/router/src/query.rs:143-176 | With offers min(escrow, limit), the simulation leaves amount − min(amount, sum of offers), and lists entry i, in order and under its own name, with min(amount, S(i+1)) − min(amount, S(i)) of the prefix sums S |
| ReleaseModel.LoopFailsIff | contracts/hub/router/src/execute.rs:331-340 | The loop fails if and only if an unregistered chain is listed after entries that cannot bear the amount |
| EscrowModel.EscrowRunValid | contracts/liquidity/escrow/src/execute.rs:10-262 | In every reachable state the total is the sum of all denominations, disallowed ones included, and the allowed list has no duplicates and always has amounts |
| EscrowModel.WithdrawLaw | contracts/liquidity/escrow/src/execute.rs:203-262 | A nonzero withdraw succeeds if and only if the allowed denominations hold enough; its transfers add up to the amount |
| EscrowModel.PayLoopOrder | contracts/liquidity/escrow/src/execute.rs:219-246 | Transfers follow the allowed list and every one but the last drains its denomination |
| EscrowModel.PayLoopLaw | contracts/liquidity/escrow/src/execute.rs:219-246 | The loop pays min(amount, held), and the books fall by exactly what is paid |
| EscrowModel.DepositSucceedsIff | contracts/liquidity/escrow/src/execute.rs:97-126 | A deposit succeeds if and only if it is positive, its denomination is allowed and the total fits |
| EscrowModel.DepositBooks | contracts/liquidity/escrow/src/execute.rs:114-126 | A deposit is booked under its own denomination and no other, and leaves the allowed list alone |
| EscrowModel.DepositAllBooks | contracts/liquidity/escrow/src/execute.rs:97-126 | Deposits of several coins book each denomination's own sum |
| EscrowModel.WithdrawBooks | contracts/liquidity/escrow/src/execute.rs:219-255 | A withdraw takes from each denomination's booking exactly what it transfers of it |
| EscrowModel.AllowLaw | contracts/liquidity/escrow/src/execute.rs:10-46 | Allowing succeeds unless the denomination is allowed already, puts it at the end of the list and changes no booking |
| EscrowModel.DisallowLaw | contracts/liquidity/escrow/src/execute.rs:48-76 | Disallowing succeeds exactly for an allowed denomination, removes it alone from the list and changes no booking |
| EscrowModel.WithoutOrder | contracts/liquidity/escrow/src/execute.rs:62-69 | Disallowing keeps the order of the rest of the list |
| EscrowModel.NewEscrowLaw | contracts/liquidity/escrow/src/contract.rs:26-56 | A new escrow is empty and allows its first denomination, if it is given one |
| EscrowModel.KeyInjective | packages/euclid/src/token.rs:259-264 | Distinct denominations never share a storage key |
| EscrowModel.WithoutLaw | contracts/liquidity/escrow/src/execute.rs:62-69 | Disallowing removes exactly one denomination from the list |
| EscrowModel.ForbidKeepsValid | contracts/liquidity/escrow/src/execute.rs:48-76 | Disallowing a denomination keeps the books in step |
| EscrowModel.AllowKeepsValid | contracts/liquidity/escrow/src/execute.rs:10-46 | Allowing a denomination, also one allowed before, keeps the books and the total |
| TxIds.IdsDistinct | packages/euclid/src/utils.rs:9-26 | Ids of two calls differ whenever fewer than 2^128 calls lie between them; after exactly 2^128 the stamp comes round |
| TxIds.SameIdSameNonce | packages/euclid/src/utils.rs:17-25 | Two equal ids carry the same counter, whatever the other parts contain |
| TxIds.RenderIsJoined | packages/euclid/src/utils.rs:17-25 | An id lists the sender's chain and address, the chain's name, height, index and counter in this order |
| TxIds.DecimalInjective | packages/euclid/src/utils.rs:17-25 | Decimal rendering is injective |
| TxIds.TxCounter.GenerateTx | packages/euclid/src/utils.rs:9-26 | Advances the wrapping stored counter and renders the id from it |
| FactoryModel.NextKeyIsFree | contracts/liquidity/factory/src/execute.rs:238-241 | For each of the first 2^128 calls the request's key is in no pending map, so the already-exists checks never fire |
| FactoryModel.FactoryRunIds | contracts/liquidity/factory/src/state.rs:50-54 | Over any 2^128−1 messages the pending maps hold only ids of the counter's past, pool and escrow requests in their shared namespace included |
| FactoryModel.AckOnlyRemoves | contracts/liquidity/factory/src/ibc/ack_and_timeout.rs:324-330 | A settlement removes its own pending record and no other |
| FactoryLaws.AddRequestLaw | contracts/liquidity/factory/src/execute.rs:212-383 | An add request is accepted exactly for a sorted registered pair, a tolerance of 1 to 100, positive amounts and allowed denominations, and is recorded and sent as it was made |
| FactoryLaws.RemoveRequestLaw | contracts/liquidity/factory/src/execute.rs:387-464 | A remove request is accepted exactly for a positive amount through the LP token of the pair's pool, and is recorded and sent as it was made |
| FactoryLaws.SwapRequestLaw | contracts/liquidity/factory/src/execute.rs:468-628 | A swap request is accepted exactly under the stated checks on fee, minimum, route, denomination and funds; its record and packet carry the user's own minimum, route, receivers and partner |
| FactoryLaws.WithdrawRequestLaw | contracts/liquidity/factory/src/execute.rs:762-808 | A withdrawal request is always accepted and sent as it was made |
| FactoryLaws.CreationRequestLaw | contracts/liquidity/factory/src/execute.rs:54-208 | A pool request is accepted exactly for two different tokens without a pool, an escrow request exactly for a token without an escrow |
| FactoryLaws.SettleAddLaw | contracts/liquidity/factory/src/ibc/ack_and_timeout.rs:317-406 | When an add is settled, exactly; each coin is booked in its own token's escrow under its own denomination, and only on acceptance |
| FactoryLaws.SettleRemoveLaw | contracts/liquidity/factory/src/ibc/ack_and_timeout.rs:408-476 | When a removal is settled, exactly; no escrow changes |
| FactoryLaws.SettleSwapLaw | contracts/liquidity/factory/src/ibc/ack_and_timeout.rs:480-565 | When a swap is settled, exactly; the coin is booked under its own denomination and the partner fee counted under its token, and only on acceptance |
| FactoryLaws.DepositInLaw | contracts/liquidity/escrow/src/execute.rs:97-126 | A deposit message succeeds exactly when its token's escrow allows the denomination and has room, and books the coin there and nowhere else |
| FactoryLaws.PayReleaseLaw | contracts/liquidity/factory/src/ibc/receive.rs:164-202 | A release is paid exactly when it is positive and the allowed denominations hold it; the payments add up to its amount, all go to the packet's address, and the books fall by them, denomination by denomination |
| FactoryModel.AckAddPaysExactly | contracts/liquidity/factory/src/ibc/ack_and_timeout.rs:317-406 | Settling an add sends out exactly its two coins, whichever way it goes |
| FactoryModel.AckSwapPaysExactly | contracts/liquidity/factory/src/ibc/ack_and_timeout.rs:480-565 | Settling a swap sends out exactly its input and partner fee, whichever way it goes |
| FactoryModel.PartnerFeeLaw | contracts/liquidity/factory/src/execute.rs:490-502 | The partner fee is the exact fee rounded up, at most the amount; nothing is left only of zero, or of one unit with a fee |
| FactoryModel.SwapCovered | contracts/liquidity/factory/src/execute.rs:550-577 | However and whenever a swap is settled, it sends out the whole amount requested, and a refusal sends it all back to the sender; the request's own attachment covers that if and only if it is that whole amount; the shortfall is at most the partner fee, and none through a token contract or without a fee |
| FactoryModel.RemovalCovered | contracts/liquidity/factory/src/execute.rs:683-699 | However and whenever a removal is settled, it burns or returns the LP the request names, which the LP tokens that came with it cover if and only if they are at least as many; the request is taken either way |
| MsgQueue.SendLaw | packages/euclid_ibc/src/msg.rs:109-137 | A send is refused if and only if the counter ran out and the last slot waits; ids stay in range and no waiting message is replaced |
| MsgQueue.CollectLaw | contracts/hub/router/src/reply.rs:372-413 | A reply is served exactly when its message waits, and takes that one message out |
| MsgQueue.ReplyGetsWhatWasSent | contracts/liquidity/factory/src/reply.rs:101-141 | Whatever happens in between, the first reply to an id retrieves and removes exactly the message sent under it |
| MsgQueue.Waits | packages/euclid_ibc/src/msg.rs:254-281 | An uncollected message stays as it was through any events |
| MsgQueue.RunValid | contracts/hub/router/src/reply.rs:372-413 | Every reachable queue has its ids in range and below the counter |
| MsgQueue.StoredQueue.ToMsg | packages/euclid_ibc/src/msg.rs:109-137 | Stores the message under the next slot, or refuses and changes nothing |
| MsgQueue.StoredQueue.OnReply | contracts/hub/router/src/reply.rs:372-413 | Takes the message out of its slot, or refuses and changes nothing |
| VlpContract.Contract.Add | contracts/hub/vlp/src/execute.rs:100-201 | The stored pool after an add is the specified one, and the LP returned is the specified LP |
| VlpContract.Contract.Remove | contracts/hub/vlp/src/execute.rs:218-318 | The stored pool after a removal and its two payouts are the specified ones |
| VlpContract.Contract.Swap | contracts/hub/vlp/src/execute.rs:320-431 | The stored pool after a swap, payout and treasury fee are the specified ones; neither reserve sum can overflow |
| VlpContract.Contract.Execute | contracts/hub/vlp/src/contract.rs:75-133 | One message with roll-back is one step of the pool machine and keeps the pool's books in order |
| HubContracts.Chain.Transfer | contracts/hub/virtual_balance/src/execute.rs:82-141 | The stored ledger after a transfer is the specified one, to oneself included |
| HubContracts.Chain.DrawDown | contracts/hub/router/src/execute.rs:326-382 | The loop's stored escrows, packets, sum and remainder are the specified ones, and no checked operation in it can fail |
| HubContracts.Chain.ReleaseVouchers | contracts/hub/router/src/execute.rs:274-415 | The stored ledgers and the packets of a release are the specified ones; mismatch check and burn cannot fail |
| HubContracts.Chain.RunRoute | contracts/hub/vlp/src/execute.rs:433-567 | The stored state, asset and amount after a route are the specified ones |
| HubContracts.Chain.Add | contracts/hub/router/src/ibc/receive.rs:299-415 | The stored state and acknowledgement of an add are the specified ones |
| HubContracts.Chain.Remove | contracts/hub/router/src/reply.rs:131-202 | The stored state, acknowledgement and packets of a removal are the specified ones |
| HubContracts.Chain.Swap | contracts/hub/router/src/ibc/receive.rs:457-572 | The stored state, acknowledgement and packets of a swap are the specified ones |
| HubContracts.Chain.Restore | contracts/hub/router/src/ibc/ack_and_timeout.rs:227-290 | The stored ledgers after a failed release are the specified ones |
| HubContracts.Chain.Execute | contracts/hub/router/src/ibc/receive.rs:63-80 | One transaction takes full effect or none, and keeps every pool valid and covered and every token's balances equal to its escrow ledger plus self-created balance |
| HubContracts.SimulateRelease | contracts/hub/router/src/query.rs:143-176 | The simulation loop gives the specified draws and remainder |
| EscrowContract.Contract.DepositNative | contracts/liquidity/escrow/src/execute.rs:78-129 | The stored books after a deposit of several coins are the specified ones; an empty deposit is refused |
| EscrowContract.Contract.WithdrawAmount | contracts/liquidity/escrow/src/execute.rs:203-262 | The stored books and the transfers of a withdraw are the specified ones |
| EscrowContract.Contract.Execute | contracts/liquidity/escrow/src/contract.rs:59-74 | One message with roll-back is one step of the escrow machine and keeps its books in step |
| FactoryContract.Contract.Add | contracts/liquidity/factory/src/execute.rs:212-383 | The stored factory and the packet of an add request are the specified ones; the already-exists check cannot fail |
| FactoryContract.Contract.Remove | contracts/liquidity/factory/src/execute.rs:387-464 | The stored factory and the packet of a remove request are the specified ones; the already-exists check cannot fail |
| FactoryContract.Contract.Swap | contracts/liquidity/factory/src/execute.rs:468-628 | The stored factory and the packet of a swap request are the specified ones; the already-exists check cannot fail |
| FactoryContract.Contract.SettleAdd | contracts/liquidity/factory/src/ibc/ack_and_timeout.rs:317-406 | Settling an add updates the factory as specified and sends out exactly its two coins, in every denomination |
| FactoryContract.Contract.SettleRemove | contracts/liquidity/factory/src/ibc/ack_and_timeout.rs:408-476 | The stored factory and the payments after a removal's acknowledgement are the specified ones |
| FactoryContract.Contract.SettleSwap | contracts/liquidity/factory/src/ibc/ack_and_timeout.rs:480-565 | Settling a swap updates the factory as specified and sends out exactly its input and partner fee, in every denomination |
| FactoryContract.Contract.Execute | contracts/liquidity/factory/src/reply.rs:58-77 | One message with roll-back is one step of the factory machine, and the pending maps go on holding only ids of the counter's past |

## Left out

- Channel handshake, JSON encoding, events, attributes, schemas and migration: no property of their own.
- Registration of factories, channels, pools and escrows on the factory side and their acknowledgements: the set of chains, each factory's pools and LP tokens and each token's escrow are fixed; on the hub, pool and escrow creation are transactions.
- Who may call what (administrators, lock flag, callback callers): taken as given, except that a user transfer, withdrawal, swap or removal is never in a pool contract's name (`HubPools.Proper`).
- A request packet refused for a reason outside the model (lock, deregistered chain, malformed identifier) is the step `HubRefuse`; a payout refused for a reason outside the escrow's books is `FactoryRefuse`.
- The cw20 LP token, cw20 base and bank contracts: mints, burns and transfers are recorded amounts; a zero transfer that a bank might refuse is not a failure here.
- Whether a factory's own wallet covers all its pending requests together: depends on all attached funds and on foreign tokens; for one request see `FactoryModel.SwapCovered` and `FactoryModel.RemovalCovered`.
- SystemModel.DoAsk: a factory that has issued 2^128−1 ids makes no further request, so the counter's wrap-around is treated only in TxIds.
- Synchronous delivery between the hub and a factory on its own chain: covered as the interleaving in which the steps follow at once; a release to such a factory that fails because the native message queue is full is not modelled.
- Update in place across contract boundaries: a pool inside HubContracts and an escrow inside FactoryContract are values updated by the functions that VlpContract and EscrowContract are proved equal to.
- The router's transient reply maps (`SWAP_ID_TO_MSG`, `PENDING_REMOVE_LIQUIDITY`): written and read within one transaction, modelled as its local variables.
- Routes whose next address is no pool contract: treated as failing.
- The ids the hub gives release packets, timeouts as clock values, pagination queries and identifier character checks.
