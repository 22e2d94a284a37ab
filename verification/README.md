# Verification of the V-Trade paper-trading kernel

V-Trade simulates IOC and FOK orders on binary prediction markets against captured
order books. This project models, in Dafny, the parts of it that decide about money
and about who may write what, and proves what they guarantee.

All money is integer micro-dollars and all quantities are integer hundredths of a
contract, as in the program. Functions state what a step computes; classes hold the
fields the program updates and their methods are proved equal to those functions; the
lemmas are about the functions and about every run of them.

| file | component |
|---|---|
| `Domain.dfy`, `Arithmetic.dfy`, `Sums.dfy` | shared vocabulary, gross cash, ceiling division, sums over maps |
| `Fees.dfy` | the exact fee calculator, its cent accumulator and rebate, and why a BUY never gets cheaper with more units |
| `Planning.dfy` | the greedy plan over a price ladder |
| `Optimality.dfy` | exactly when a plan is the best way to trade as many units |
| `Fitting.dfy` | the backward sweep of binary searches that cuts a BUY to the cash |
| `Liquidity.dfy` | the best-level haircut and the audit of consumed depth |
| `Ledger.dfy` | postings, balanced entries, the append-only ledger |
| `Portfolio.dfy` | multi-fill order accounting and pro-rata cost removal |
| `Settlement.dfy` | idempotent settlement of finalized markets |
| `Histories.dfy` | histories of orders and settlements: conservation, ledger agreement, drift of partial sells |
| `Replay.dfy` | the independent replay of a ledger, and exactly when it rebuilds the portfolio |
| `Broker.dfy` | execution of one order, remembered results, blocked agents |
| `Leases.dfy` | hourly scheduler, worker leases, stage checkpoints |
| `StoredLedger.dfy` | what the ledger tables admit and keep of an entry |
| `Persistence.dfy` | compare-and-swap persistence under concurrent workers |
| `Commits.dfy` | exactly which orders and settlements an undisturbed worker commits |
| `Catalogue.dfy` | the bounded streaming market selection |
| `Budget.dfy` | the monthly budget circuit breaker |

## What the proofs turned up

Where the code does not do what its names or documents suggest, the model follows the
code. Each point is a theorem below.

- A contract order that is filled only in part never yields a result. `execute` puts the
  unfilled units into both the remaining and the cancelled quantity (`src/vtrade/broker.py:508-528`),
  and the result's own constructor requires filled + remaining + cancelled to equal the request
  (`src/vtrade/domain/execution.py:771-778`). The tool description promises PARTIALLY_FILLED
  (`plans/new_tool_description.md:355`), which contract orders cannot reach. An order that trades
  raises if and only if the ladder, the position or the cash does not reach for all its contracts
  (`Broker.OutcomeExactlyWhen`, with an input in `Broker.PartialFillRaises`).
- No order that pays a fee can be persisted. The ledger writes the account name `fees`
  (`src/vtrade/ledger.py:16`), which is not among the names the table admits
  (`migrations/0001_foundation_agent_state_ledger.sql:198-201`), and amounts of zero are refused as
  well (line 202). So an undisturbed worker commits an order if and only if, besides the usual
  conditions, its audit is admitted, it carries no fee and, on a SELL, releases some basis
  (`Commits.UndisturbedWorkerCommits`, `Commits.ChargedOrdersNeverCommit`,
  `Commits.FeePayingOrderNeverCommits`), and committed positions never have entry fees.
- No order filled on a book side with fewer than six levels can be persisted. The haircut works
  from two levels on (`src/vtrade/liquidity.py:247-265`), but the audit stored with the fills must
  have six captured and five effective ones
  (`migrations/0002_kalshi_catalogue_and_freezes.sql:185-186`). An executed order is committed if and
  only if, besides the usual conditions, it paid no fee, a SELL released basis, and its side had at
  least six levels (`Commits.ExecutedOrderCommitsExactlyWhen`, with an order that only the number of
  levels decides in `Commits.LevelsDecide`).
- The ledger tables keep a market and outcome only next to a unit delta, and no change of entry
  fees (`src/vtrade/broker_repository.py:1688-1703`). For every history the stored ledger rebuilds
  cash, version, units and basis, and neither entry fees nor realized P&L
  (`StoredLedger.StoredReplayIsBare`); exactly when that is the whole portfolio is
  `StoredLedger.FaithfulExactlyWhen` and `Persistence.StoredReplayExactlyWhen`.
- The id of a settlement names its agent and time but not its market
  (`src/vtrade/broker.py:935`), so of two markets that settle at the same time only one is ever
  stored (`Commits.SameTimeNeverStored`, `Commits.OneSettlementPerTime`).
- `settle` raises on every losing and every break-even position, because a posting of zero
  money without a delta is refused (`Settlement.SettlesExactlyWhen`).
- A SELL that is charged fees while it releases no entry fees is refused by the fee posting
  it would write (`Portfolio.OrderAcceptedExactlyWhen`).
- A SELL whose fees exactly equal the entry fees it releases writes no fee posting, and the
  ledger replay then misses the release. The replay is exact if and only if no such SELL occurs
  (`Replay.ReplayRebuildsExactlyWhen`, with fees the calculator charges in
  `Replay.LostReleaseExists`).
- A replay counts every copy of an entry (`Replay.RepeatsAreCountedAgain`).
- Reconciling any other operation of a blocked agent as RESOLVED unblocks the agent while its
  pending order is still open (`Broker.ReconcileKeepsBlocksExactlyWhen`,
  `Broker.ResolvingAnotherOrderUnblocks`).
- The cash guard and the SELL-quantity guard of `execute` never fire
  (`Broker.FittedWithinMeans`, `Broker.TradesExactlyWhen`). So a BUY whose cash covers no unit
  is reported as lacking contracts, not cash (`Broker.UnaffordableReportsContracts`).
- The two internal guards of the fee calculator and the second 50% test of the haircut never
  fire (`Fees.GuardsNeverFire`, `Liquidity.HaircutKeepsHalf`).
- A greedy plan is optimal if and only if a level that the cash cuts short leaves too little for
  any later level inside the limit (`Optimality.OptimalExactlyWhen`). Contract orders always meet
  this, and so do cash BUYs at prices that are multiples of 100 micro-dollars; other cash orders on either side can fail it (`Optimality.CashSellIsNotOptimal`,
  `Optimality.CashBuyIsNotOptimal`).
- The portfolio snapshot is read by two statements and may mix two versions; comparing the
  version at commit makes that harmless (`Persistence.CommittedIsSequential`).

## Model

| member | source | states |
|---|---|---|
| Domain.GrossCashIsNearest | src/vtrade/domain/execution.py:911-926 | gross cash is a nearest integer to units times price over 100, ties going up |
| Fees.TradeFeeIsCentTopUp | src/vtrade/broker.py:90-110 | a charged trade fee is exactly what lifts gross cash plus raw fee to a whole cent |
| Fees.RawCeilIsExact | src/vtrade/broker.py:78-86 | with n = multiplier and rate numerators times units times price times (1,000,000 less price), and d = their denominators times 100 times 1,000,000: the raw fee is the only whole number of micro-dollars q with q d - d < n <= q d |
| Fees.RawNanosIsFloor | src/vtrade/broker.py:78-121 | the raw fee in nano-dollars is the only q with q d <= 1000 n < q d + d |
| Fees.TradeFeeIsLeast | src/vtrade/broker.py:87-105 | a trade fee covers n / d and lifts gross cash to a whole cent, and no smaller amount does both; it is zero if waived or if n is |
| Fees.ChargeIsTheOnlyRecord | src/vtrade/broker.py:67-132 | the calculator's record is the only one that meets the rule stated in plain products: gross, nano-dollar fee, least trade fee, alignment to a cent, rebate of whole accumulated cents as far as the fee allows, postings and accumulators |
| Fees.TradeFeeBounds | src/vtrade/broker.py:89-116 | every unwaived trade fee lies within 9999 micro-dollars above the raw fee of `Fees.RawCeilIsExact`; a waived one is zero |
| Fees.ChargeIsSound | src/vtrade/broker.py:117-131 | one fill keeps the accumulator below a cent, never has a negative net fee or rebate, conserves money, posts on cent boundaries apart from the rebate, and hands back every whole accumulated cent unless the fee is already zero |
| Fees.GuardsNeverFire | src/vtrade/broker.py:67-127 | the calculator fails exactly on its three input errors; its two internal guards never fire |
| Fees.CalculateFills | src/vtrade/broker.py:134-153 | the loop fails exactly on an invalid fill; else every record is the only one the rule in plain products allows for its fill, from the accumulator the record before it left |
| Fees.RecordsAreSound | src/vtrade/broker.py:134-153 | over any fill list every record keeps the bounds and the final accumulator is below a cent |
| Fees.FeesAreConserved | src/vtrade/broker.py:117-131 | net fees sum to trade fees plus the change of the accumulator, and postings sum to gross cash less net fees |
| Fees.BuyCases | src/vtrade/broker.py:90-124 | the three ways a BUY fill can change cost and accumulator, in closed form, waived fees included |
| Fees.BuyAllMonotone | src/vtrade/broker.py:90-153 | growing any quantities of a BUY list, from any ordered pair of starting spends, never makes it cheaper, under any policy |
| Fees.BuyAllIsFeeRun | src/vtrade/broker.py:674-680 | the cost used in the monotonicity proof is gross plus net fees of the calculator's records |
| Fees.TotalCostNeverFalls | src/vtrade/broker.py:674-700 | the calculator's total never falls when one BUY fill's quantity grows |
| Planning.Plan | src/vtrade/broker.py:621-659 | the loop computes the plan that the lemmas below characterise; a BUY takes no level above its limit and a SELL none below it, and a contract order takes min(asked, owned on a SELL, depth at the limit or better) |
| Planning.TakeWithinCash | src/vtrade/broker.py:645-650 | a quantity taken against a cash amount never costs more than that cash, rounding included |
| Planning.PlanHonoursLimit | src/vtrade/broker.py:634-640 | in plain comparisons: every BUY lot is priced at most the limit and every SELL lot at least the limit; a contract plan totals min(target, quantities on all levels at the limit or better), a level exactly at the limit included |
| Planning.PlanIsGreedy | src/vtrade/broker.py:621-659 | lots come from the ladder in order, at its prices and within each level; a CASH plan stays within its cash; a SELL within the position; a contract plan totals exactly min(target, admissible depth), the depth of `Planning.PlanHonoursLimit` |
| Planning.CashPlanSpends | src/vtrade/broker.py:643-657 | a CASH plan leaves a level at the limit or better unfinished only if a SELL has used up the position or the cash left is at most one more unit there |
| Optimality.OptimalExactlyWhen | src/vtrade/broker.py:634-659 | on the strictly ordered ladders of a book, for BUY and SELL, cash and contracts, no allocation of as many units pays less or receives more, if and only if at the first level the cash does not cover no later level inside the limit is affordable out of the cash left |
| Optimality.ContractPlanIsOptimal | src/vtrade/broker.py:634-659 | on any price-sorted ladder no allocation of the same contract total pays less on a BUY or receives more on a SELL |
| Optimality.CashBuyIsOptimal | src/vtrade/broker.py:643-657 | a CASH BUY at prices divisible by 100 always meets the exact condition: a level cut short leaves less than one of its units costs |
| Optimality.CashSellIsNotOptimal | src/vtrade/broker.py:643-657 | an input on the failing side of that condition: a CASH SELL another allocation of which receives more |
| Optimality.CashBuyIsNotOptimal | src/vtrade/broker.py:643-657 | the same for a CASH BUY at prices off the 100 micro-dollar grid |
| Fitting.LargestFitting | src/vtrade/broker.py:685-706 | the binary search finds the largest quantity at a level that the cash covers, or that none fits |
| Fitting.FitCashBudget | src/vtrade/broker.py:661-713 | the sweep returns the longest affordable prefix of the plan with its fee records; a SELL is returned whole |
| Fitting.CostMonotone | src/vtrade/broker.py:674-700 | longer prefixes of a plan never cost less |
| Fitting.LongestIsUnique | src/vtrade/broker.py:661-713 | an affordable prefix that one more unit breaks is the longest affordable one |
| Fitting.FitIsExact | src/vtrade/broker.py:661-713 | the result is affordable and is the whole plan, or whole levels, one cut level, then nothing, where one more unit at the cut level costs more than the cash |
| Fitting.FitStaysOnLadder | src/vtrade/broker.py:661-713 | fitting keeps lots on their ladder levels and inside the limit and never adds units |
| Fitting.FillsWholeExactlyWhen | src/vtrade/broker.py:621-713 | a contract order is planned and fitted whole if and only if the admissible depth holds it, a SELL owns it, and the cash pays for a BUY's whole plan |
| Fitting.FitIsEmptyExactlyWhen | src/vtrade/broker.py:661-713 | nothing of a BUY is left if and only if the cash does not cover one unit of its first lot |
| Liquidity.HaircutKeepsHalf | src/vtrade/liquidity.py:225-287 | the haircut succeeds exactly when the best captured level is at most half the depth; it then keeps at least half, its second test cannot fail, and its audit is valid |
| Liquidity.FillsAlwaysPassAudit | src/vtrade/liquidity.py:180-222 | fills planned on the haircut ladder always pass the audit, which accounts for exactly the filled and cancelled units, level by level |
| Liquidity.RowsPassAudit | src/vtrade/liquidity.py:180-222 | the same for any valid audit over captured rows |
| Liquidity.AuditPassesExactlyWhen | src/vtrade/liquidity.py:180-222 | any consumption, planned or not, passes the audit of captured rows if and only if it leaves the best level alone, stays within every other level and in total within the request; the first that fails is the error |
| Ledger.AppendOnlyLedger.Append | src/vtrade/ledger.py:97-105 | a new key appends, the same event again changes nothing, a key reused for another event is refused; keys stay distinct |
| Ledger.AppendOnlyLedger.Balances | src/vtrade/ledger.py:107-113 | every account's balance is the sum of its postings over the agent's entries |
| Portfolio.ProRataIsNearest | src/vtrade/portfolio.py:224-231 | the removed share is a nearest integer to total times part over whole, ties up, never more than the total |
| Portfolio.ApplyOrderFills | src/vtrade/portfolio.py:372-532 | the loop computes the order's accounting, including every refusal |
| Portfolio.OrderAcceptedExactlyWhen | src/vtrade/portfolio.py:382-516 | accounting accepts an order if and only if the agent matches, there are fills, each moves cash the right way, the cash or the position covers them, and a SELL with fees releases some entry fees |
| Portfolio.OrderIsSound | src/vtrade/portfolio.py:372-563 | an accepted order keeps cash + open basis + open entry fees - realized P&L, touches one position, moves the version by one, and writes a balanced entry whose account totals are the portfolio's changes |
| Portfolio.OrderEffect | src/vtrade/portfolio.py:395-474 | a BUY adds exactly its units, gross and fees; a SELL removes its units and realizes proceeds less fees, released basis and released entry fees |
| Portfolio.FillsTrack | src/vtrade/portfolio.py:390-474 | after any fills the running deltas are exactly the differences between the portfolios |
| Portfolio.SellDrift | src/vtrade/portfolio.py:224-231 | one partial sell moves the basis at most half a micro-dollar further from its proportional share |
| Settlement.SettlesExactlyWhen | src/vtrade/broker.py:879-932 | a settlement completes if and only if the position won, is not empty, and its payout differs from its cost and fees |
| Settlement.SettlementIsSound | src/vtrade/broker.py:879-958 | a completed settlement pays one dollar a contract, closes one position, keeps equity, moves the version by one, and its entry's account totals are the portfolio's changes |
| Settlement.BinarySettlementEngine.Settle | src/vtrade/broker.py:832-959 | the method's new state and result are those of the transition that the lemmas below characterise |
| Settlement.RefusedExactlyWhen | src/vtrade/broker.py:845-859 | each of the four refusals before earlier settlements are looked at, by conditions on the call alone; they change nothing |
| Settlement.ConflictExactlyWhen | src/vtrade/broker.py:863-877 | a call raises conflicting evidence if and only if it is admissible and its market is settled with another time, outcome or unit count; it then marks exactly its agent and changes nothing else, and no other call marks anybody |
| Settlement.ConflictedExactlyWhen | src/vtrade/broker.py:961-962 | over every run from a new engine an agent is conflicted if and only if one of its own calls contradicted, where it was made, the settlement of its market |
| Settlement.SettleKeeps | src/vtrade/broker.py:857-959 | every call keeps the two dictionaries in one-to-one agreement and extends them; it pays only where the market had no settlement |
| Settlement.RunsPayOnce | src/vtrade/broker.py:857-962 | over any calls a market pays an agent at most once, the dictionaries agree, and settlements and conflicts are final |
| Settlement.RepeatReturnsTheSame | src/vtrade/broker.py:868-878 | repeating a call that succeeded returns the same pair and changes nothing, after any calls in between |
| Histories.StepIsSound | src/vtrade/portfolio.py:372-532 | every accepted order or completed settlement keeps equity and keeps the ledger in agreement |
| Histories.RunIsSound | src/vtrade/portfolio.py:372-563 | over every history equity keeps its value, entries balance, versions count events, and the ledger agrees with the portfolio |
| Histories.LedgerAlwaysAgrees | src/vtrade/semantic_runtime.py:1368-1384 | from an opening entry: CASH is the cash, POSITION_COST is each position's basis market by market and outcome by outcome and the open basis in total, FEES plus REALIZED_PNL the open entry fees less realized P&L |
| Histories.SalesDrift | src/vtrade/portfolio.py:433-457 | over any history that only sells from a position, with any events on others in between, after k sell fills its basis is within k/2 micro-dollars of the proportional share, and closing it removes all basis and entry fees |
| Replay.ReplayContractPortfolio | src/vtrade/portfolio.py:572-660 | the replay loop with its own ledger equals the replay function, reused keys and negative states refused |
| Replay.ReplayStep | src/vtrade/portfolio.py:597-650 | replaying one event's entry rebuilds its portfolio unless it is a hidden release, which is off by exactly the released fees |
| Replay.ReplayRebuildsExactlyWhen | src/vtrade/portfolio.py:572-660 | with distinct keys the replay of any history gives the same cash, version, realized P&L and positions if and only if no SELL's fees exactly equal the non-zero entry fees it released |
| Replay.ReplaysExactlyWhen | src/vtrade/portfolio.py:572-660 | any list of entries replays if and only if all are the agent's, equal keys carry equal entries, every move leaves position sums that are not negative and hold no cost or fees without units, and the cash ends not negative; cash, units, basis and fees are then those sums |
| Replay.LostReleaseExists | src/vtrade/portfolio.py:486-498 | an accepted SELL, with the gross and fee the calculator charges, whose replay differs |
| Replay.RepeatsAreCountedAgain | src/vtrade/portfolio.py:583-591 | a replay of a history's entries in any order and multiplicity is off by the cash of each entry as often as it is repeated or missing, and the version by their number |
| Broker.FittedWithinMeans | src/vtrade/broker.py:401-424 | a fitted BUY never costs more than the cash and a fitted SELL never exceeds the position, so the two guards are dead |
| Broker.OutcomeExactlyWhen | src/vtrade/broker.py:262-546 | by conditions on the inputs: an order that does not trade is rejected and changes nothing; one that trades is accepted, with consistent cash, position, fees, entry and audit, if it asks for cash or its contracts can all be filled; and it raises exactly when it trades and they cannot |
| Broker.PartialFillRaises | src/vtrade/broker.py:508-543 | a concrete contract order that raises |
| Broker.TradesExactlyWhen | src/vtrade/broker.py:262-502 | an order reaches fills if and only if context, fee policy and haircut pass, a SELL has its position, and the fitted plan, complete on a FOK order, moves cash the right way, keeps a BUY within its share of the account value, and releases entry fees on a SELL that pays any |
| Broker.FokNeverRaises | src/vtrade/broker.py:368-392 | a FOK order is filled whole or rejected; it never raises |
| Broker.RejectionReason | src/vtrade/broker.py:262-503 | every order that does not trade is rejected with the first reason that applies, in a list without the guards that never fire; accounting's refusals read as lack of cash exactly when a lot does not move cash the right way |
| Broker.FillsComeFromTheBook | src/vtrade/broker.py:317-322 | every lot comes from the asks for a BUY and the bids for a SELL of its own outcome, below the best level and at most five levels down, at that level's price, within its quantity and the limit; its fill has its units and gross cash |
| Broker.OnlyItsSideMatters | src/vtrade/broker.py:317-322 | two books that agree on the side an order trades against give the same outcome |
| Broker.UnaffordableReportsContracts | src/vtrade/broker.py:363-502 | an IOC BUY whose cash does not cover one unit of the first lot of its plan is rejected for contracts |
| Broker.BinaryPaperBroker.Execute | src/vtrade/broker.py:193-546 | the method's new results, blocked agents and outcome are those of the transition that the lemmas below characterise |
| Broker.RepeatedKey | src/vtrade/broker.py:216-230 | over any run after execute returned a result: the same order gets the result now stored under its key, with the same fills, and the first result itself if no reconcile named the key; another order under that agent and key is rejected with an idempotency conflict and no fills; neither changes anything |
| Broker.FillsExactlyWhen | src/vtrade/broker.py:216-262 | a call fills under a key if and only if it executes an order of that key, the key is new, neither agent nor portfolio is blocked, a context is there, and the order trades and, if for contracts, is fillable whole |
| Broker.NewKeyBarred | src/vtrade/broker.py:231-262 | a new key of a blocked agent or portfolio is rejected, one without a context is left pending and blocks the agent; both say reconciliation is required, are remembered, and change no money |
| Broker.BinaryPaperBroker.TradeOn | src/vtrade/broker.py:316-546 | haircut, plan, fit, checks and accounting in sequence give the outcome the lemmas characterise |
| Broker.BinaryPaperBroker.Reconcile | src/vtrade/broker.py:554-593 | the method's new state and returned record are those of the transition that `Broker.ReconcileIsExact` characterises |
| Broker.ReconcileIsExact | src/vtrade/broker.py:568-593 | RESOLVED cancels what was not filled and leaves nothing remaining, CONFLICT records the error, and no other field and no other result changes |
| Broker.ResultsAddUp | src/vtrade/domain/execution.py:766-790 | over every run, reconcile calls included, filled, remaining and cancelled units of every stored result sum to the requested ones and its constructor would accept it again |
| Broker.ExecuteKeepsBlocks | src/vtrade/broker.py:216-262 | execute keeps: an agent is blocked exactly while it has its one pending order |
| Broker.ReconcileKeepsBlocksExactlyWhen | src/vtrade/broker.py:554-593 | reconcile keeps that if and only if RESOLVED names the pending order or an unblocked agent, and CONFLICT a blocked agent |
| Broker.ResolvingAnotherOrderUnblocks | src/vtrade/broker.py:575-577 | after two executes from a new broker, resolving the second order unblocks the agent while the first is pending |
| Broker.EachKeyFillsOnce | src/vtrade/broker.py:216-230 | over every run a key fills at most once and what a result filled is never rewritten |
| Broker.RunsKeepBlocks | src/vtrade/broker.py:231-262 | over every run whose reconcile calls name pending orders the block discipline holds |
| Broker.NothingFillsWhilePending | src/vtrade/broker.py:231-241 | over every run, until an order of the agent is resolved, nothing fills for an agent with a pending order and the order stays pending |
| Leases.RuntimeRepository.ClaimDueCycles | src/vtrade/postgres_runtime.py:163-235 | the loop over due agents computes the claiming transaction |
| Leases.RuntimeRepository.RecoverExpiredCycles | src/vtrade/postgres_runtime.py:237-343 | the loop over recoverable cycles computes the recovery transaction that `Leases.RecoveryIsExact` characterises |
| Leases.RecoveryIsExact | src/vtrade/postgres_runtime.py:306-342 | each recovered cycle runs under an owner of its own with a new lease and one attempt more, a market freeze that was running in it has failed, and every other cycle and step row is as it was |
| Leases.RecoveredFreezeStartsOver | src/vtrade/postgres_runtime.py:308-318 | over every run after a recovery, no output of a recovered cycle's freeze is newly committed before a claim drawn by that recovery or later, holding the lease, has begun the stage again |
| Leases.RuntimeRepository.Checkpoint | src/vtrade/postgres_runtime.py:413-465 | completing a stage commits or leaves every row as it was |
| Leases.SkipRangeRows | src/vtrade/postgres_runtime.py:659-682 | a skipped range adds a row exactly for the missed slots without one and overwrites none |
| Leases.ClaimOneRows | src/vtrade/postgres_runtime.py:202-234 | one agent's claim adds a running row for the current slot if that is recent enough, skipped rows for the other slots since the last claim, and nothing else |
| Leases.TxnExtends | src/vtrade/postgres_runtime.py:375-524 | no transaction changes a finished cycle, a recorded cutoff, a stage fingerprint or a completed stage |
| Leases.OutputsNeedTheLease | src/vtrade/postgres_runtime.py:413-465 | a stage output is only committed by the claim holding the live lease, for a running step and with the fingerprint that step was begun with |
| Leases.LeaseIsNeeded | src/vtrade/postgres_runtime.py:345-524 | a renewal, begin, completion or finish without the live lease, and a failure by another than the owner, changes nothing |
| Leases.BeginIsExact | src/vtrade/postgres_runtime.py:375-411 | with the lease a begin is refused exactly on another fingerprint, and else its only effect is that the row runs, one attempt further, or stays if completed |
| Leases.CompleteIsExact | src/vtrade/postgres_runtime.py:413-465 | with the lease a completion is accepted if and only if the step runs with that fingerprint and a freeze's cutoff is not before the slot and agrees with a recorded one; it writes status, output and cutoff only |
| Leases.SupersededIsPowerless | src/vtrade/postgres_runtime.py:345-524 | a claim that no longer owns its cycle changes nothing, whatever it calls |
| Leases.RecoveryFencesForever | src/vtrade/postgres_runtime.py:237-343 | after recovery no call by an earlier claim changes anything, after any further transactions |
| Leases.RunKeeps | src/vtrade/postgres_runtime.py:163-524 | over every run write-once facts stay and superseded claims stay superseded |
| Leases.ClaimsHoldLeases | src/vtrade/postgres_runtime.py:163-343 | every returned claim, of a due slot or a recovered cycle, has an owner of its own and holds the lease until its duration is over |
| Leases.OneHolderPerCycle | src/vtrade/postgres_runtime.py:997-1014 | of all claims ever handed out in a run at most one passes the lease check on a cycle |
| Leases.HolderKeepsLease | src/vtrade/postgres_runtime.py:237-358 | over every run of transactions before the end of its lease, by any workers, stale claims included, a holder that neither finishes, fails nor shortens it still passes the lease check |
| Leases.LeaseEnds | src/vtrade/postgres_runtime.py:997-1014 | unless its holder renews it, a claim passes no lease check from the end of its lease on, over every run |
| Leases.ClaimsEnd | src/vtrade/postgres_runtime.py:202-343 | every claim handed out has such an end, its duration after the call |
| Leases.RecoverableExactlyWhen | src/vtrade/postgres_runtime.py:255-294 | over every run from empty tables, by expiry or after the cutoff, recovery may take a cycle if and only if it is open and no claim passes the lease check on it |
| Leases.DueExactlyWhen | src/vtrade/postgres_runtime.py:184-200 | over every run an agent is due if and only if its slot has come and no claim passes the lease check on any of its cycles |
| Leases.StaleExactlyWhen | src/vtrade/postgres_runtime.py:259-274 | over every run, with a stale interval and before the cutoff, recovery may take a cycle if and only if it is open, and no claim passes the lease check on it or its freeze was begun, or else the cycle started, at least that interval ago |
| Leases.CheckpointIsForever | src/vtrade/postgres_runtime.py:375-465 | a stage begun and completed under the lease is stored as given and, over every run of later transactions, keeps its output, fingerprint and cutoff while every further completion of it is refused |
| Leases.FinishedForever | src/vtrade/postgres_runtime.py:467-494 | completing needs lease, cutoff and a time not before the slot, and a completed cycle is never changed, leased or recovered again |
| Leases.FailureIsClean | src/vtrade/postgres_runtime.py:496-524 | failing closes the cycle, or leaves it to recovery while no cutoff is recorded, with no step left running and other rows untouched |
| Leases.FailedForever | src/vtrade/postgres_runtime.py:496-524 | a cycle failed after its cutoff keeps its row over every later run, and is never leased or recovered again |
| Leases.ClaimOneCovers | src/vtrade/postgres_runtime.py:202-234 | one agent's claim keeps the slot coverage and claims the current slot exactly when it is within the grace |
| Leases.TxnCovers | src/vtrade/postgres_runtime.py:202-234 | every transaction keeps exactly one row per hourly slot up to the next one, and claims only slots without a row |
| Leases.RunCovers | src/vtrade/postgres_runtime.py:163-235 | over every run slots are covered exactly, schedules only advance in whole hours, and no slot is claimed twice |
| StoredLedger.StoredReplayIsBare | src/vtrade/broker_repository.py:1663-1703 | for every history, replaying the stored entries succeeds and gives exactly the cash, version, units and basis, with no entry fees and no realized P&L |
| StoredLedger.FaithfulExactlyWhen | src/vtrade/broker_repository.py:1688-1703 | the stored ledger gives the whole portfolio at every point of a history if and only if each event is a BUY without fees or a SELL that nets just the basis it releases |
| StoredLedger.StorableExactlyWhen | migrations/0001_foundation_agent_state_ledger.sql:195-204 | out of an account without entry fees the tables admit an entry if and only if its event carries no fee and moves basis |
| StoredLedger.StorableRunHasNoFees | migrations/0001_foundation_agent_state_ledger.sql:198-201 | a history whose entries the tables admit never pays a fee and never holds entry fees |
| StoredLedger.StoredTally | src/vtrade/semantic_runtime.py:1368-1384 | money by account and cost by position add up over stored entries to what they were |
| Persistence.BrokerRepository.PersistOrderResult | src/vtrade/broker_repository.py:232-569 | the method commits or rolls back to the transaction's tables, which refuse stale versions, unpriced fills, audits of other than six and five levels, taken ids and postings the ledger does not admit |
| Persistence.BrokerRepository.PersistSettlementRecord | src/vtrade/broker_repository.py:969-1065 | the method commits or aborts to the transaction's tables, under the same refusals |
| Persistence.StepIsBlind | src/vtrade/portfolio.py:372-532 | accounting on portfolios that differ only in realized P&L and block flag accepts the same events with the same entries and effect |
| Persistence.CommitIsSequential | src/vtrade/broker_repository.py:491-568 | one row, one stored entry and the version written against the current version are the whole effect of the event |
| Persistence.NextKeeps | src/vtrade/broker_repository.py:1643-1660 | every step of every worker, with torn or stale snapshots, keeps the tables sequential |
| Persistence.StaleWritersChangeNothing | src/vtrade/broker_repository.py:1643-1660 | a worker whose snapshot differs from the current portfolio writes nothing |
| Persistence.CommittedIsSequential | src/vtrade/broker_repository.py:232-569 | under any interleaving version, cash, open positions and stored ledger are those of applying the committed events in order, ids are distinct, no committed order paid a fee, cost postings agree with every position row, and the stored ledger replays to the portfolio without its realized P&L |
| Persistence.StoredReplayExactlyWhen | src/vtrade/broker_repository.py:1663-1703 | under any interleaving the stored ledger replays to the whole portfolio if and only if no profit is booked, in total or on an open position, and does so at every point if and only if every committed event was quiet |
| Commits.UndisturbedWorkerCommits | src/vtrade/broker_repository.py:254-267 | a worker that reads, computes and persists without interference commits its order if and only if the key is new, the agent is not barred, a stored audit has six captured and five effective levels, accounting accepts the priced fills, they carry no fee and a SELL releases basis; otherwise nothing is committed |
| Commits.ExecutedOrderCommitsExactlyWhen | src/vtrade/broker_repository.py:454-485 | an order executed on the current portfolio and filled is committed if and only if the key is new, the agent is not barred, it paid no fee, a SELL released basis, and the book side it traded against had at least six levels |
| Commits.AuditAdmittedExactlyWhen | migrations/0002_kalshi_catalogue_and_freezes.sql:180-200 | the audit table admits a haircut's audit if and only if the side had at least six levels |
| Commits.LevelsDecide | migrations/0002_kalshi_catalogue_and_freezes.sql:185-186 | a fee-free order filled whole that is never committed off two levels and is committed when the same asks go on to six |
| Commits.ChargedOrdersNeverCommit | src/vtrade/ledger.py:11-18 | with fills made under a policy that charges at the first fill's price, nothing is ever committed |
| Commits.FeePayingOrderNeverCommits | migrations/0001_foundation_agent_state_ledger.sql:198-201 | a concrete first order of a new account, accepted by accounting and never committed |
| Commits.UndisturbedSettlementCommits | src/vtrade/broker_repository.py:989-1064 | an undisturbed settlement commits if and only if the position won, has basis, is not break-even, and no settlement of the agent has that time, key, or position and resolution |
| Commits.SameTimeNeverStored | src/vtrade/broker.py:934-939 | once a settlement of an agent is stored for some time, none of any market at that time is ever written |
| Commits.OneSettlementPerTime | src/vtrade/broker_repository.py:1673-1687 | no two committed settlements of an agent have the same time |
| Commits.OperationsStay | src/vtrade/broker_repository.py:254-267 | a stored operation is never rewritten, and persisting it again at any later time writes nothing |
| Commits.RefusedOrderIsRecorded | src/vtrade/broker_repository.py:254-300 | a worker whose order accounting refuses records it as one that filled nothing, if its key is new and the agent not barred, and writes nothing else |
| Commits.UnfilledIsRecorded | src/vtrade/broker_repository.py:254-300 | an order that filled nothing is recorded, from a stale snapshot too, if and only if its key is new and the agent is not barred, and moves nothing |
| Commits.SettlementsStay | src/vtrade/broker_repository.py:989-1001 | a stored settlement is never rewritten; persisting under its key at any later time writes nothing, recognised if the record is the same and aborted if not, and its position is not settled again by the same resolution |
| Commits.SettlementWrites | src/vtrade/broker_repository.py:1047-1065 | a written settlement is recorded under its entry's key, empties its position's row, adds its profit to what the row had booked, and touches no other row |
| Catalogue.TopIsUnique | src/vtrade/kalshi.py:929-931 | the K best candidates are determined by the rank order alone |
| Catalogue.ScanRow | src/vtrade/kalshi.py:814-846 | one row keeps the bounded shortlist equal to the K best of all rows so far |
| Catalogue.ScanCatalogue | src/vtrade/kalshi.py:752-864 | the scan fails exactly on a duplicate market and else returns the selection obtained by ranking the whole catalogue |
| Catalogue.DiscoveryKeys | src/vtrade/kalshi.py:933-955 | preferred markets in request order, each once, then the shortlist best first |
| Catalogue.OrderAndPagesDoNotMatter | src/vtrade/kalshi.py:752-864 | page split and row order do not change the selection |
| Catalogue.SelectionHolds | src/vtrade/kalshi.py:933-955 | a tradeable market is selected if and only if it is preferred or among the K best others |
| Catalogue.SelectionFollowsRank | src/vtrade/kalshi.py:929-931 | of two markets that are not preferred, one selected and one not, the selected one has more volume, or as much and more liquidity, or as much of both and the smaller reference |
| Catalogue.ShortlistIsRanked | src/vtrade/kalshi.py:946-954 | the shortlist is reported in that order |
| Catalogue.FirstPlacesInOrder | src/vtrade/kalshi.py:939-945 | preferred markets are reported in the order of their first places in the request |
| Catalogue.PreferredMembers | src/vtrade/kalshi.py:940-943 | preferred are the historical markets up to their maximum, then the held, then the touched ones |
| Budget.MonthlyBudgetCircuitBreaker.ReserveCost | src/vtrade/budget.py:47-75 | the method's new state and reservation are those of the transition |
| Budget.MonthlyBudgetCircuitBreaker.ReconcileCost | src/vtrade/budget.py:77-105 | the method's new state and verdict are those of the transition |
| Budget.MonthlyBudgetCircuitBreaker.Reserved | src/vtrade/budget.py:62-62 | the sum over reservations, in any order |
| Budget.ReserveExactlyWhen | src/vtrade/budget.py:47-75 | a reservation is granted if and only if the month's billed cost, outstanding reservations and the estimate, nothing for the free provider, stay within the limit; it is recorded with its estimate under a new id and alerts just the thresholds reached |
| Budget.ReconcileExactlyWhen | src/vtrade/budget.py:77-105 | a reconciliation is consistent if and only if its reservation is outstanding with that provider and estimate; it is taken out in any case, its cost billed unless the provider is free, and the verdict compares with the limit |
| Budget.AlertsAreExact | src/vtrade/budget.py:127-131 | opening alerts adds just the thresholds reached and not alerted before, each with the projection that reached it |
| Budget.StepKeepsWithin | src/vtrade/budget.py:47-131 | every call keeps the month's bound and its alerts, also across a change of month |
| Budget.SpendingStaysBounded | src/vtrade/budget.py:47-131 | after any calls billed plus reserved is at most the limit plus the month's overruns, and every threshold reached was alerted exactly once |
| Budget.ReservationSettlesOnce | src/vtrade/budget.py:77-105 | a fresh reservation reconciles with the exact cost, halts exactly above the limit, and can never be reconciled again |

## Left out

- HTTP, retries, threads, deadlines, artifact storage, the API and the dashboard.
- SQL text and PostgreSQL: each transaction is one atomic step on maps, so the two lease checks of `complete_stage` are the one made under the row lock. Of the table constraints the model has the cutoff and times of a cycle and, in the broker tables, ids, posting accounts, non-zero amounts, fill pricing and audit level counts; the others could only turn further commits into aborts.
- The trigger that records the cutoff when a published market freeze completes: the model records it in `complete_stage`.
- The selection of due and recoverable rows: the model takes any list of distinct rows that satisfy the query's condition, so pauses, limits and skipped locks are covered as smaller choices.
- Timestamps, book freshness, price grids and the market-context checks of `execute`: one abstract verdict given with the context.
- Fee-policy resolution and the checks on a policy's type and dates: one abstract verdict; a policy is a waiver flag, non-negative numerators and positive denominators.
- Account valuation from bids: the account value is an input that may be missing.
- Hashes, UUIDs, fingerprints and JSON: values that are equal or different; an operation's identity is the agent with its key.
- The 28-digit decimal context of the pro-rata division: the quotient is exact.
- Evidence attached to rejections, such as messages, risk checks and the haircut audit.
- The stored realized P&L of closed positions and its total: the upsert writes zero when a position closes, so persistence is about version, cash, open positions and ledger.
- Several agents in one set of broker tables: persistence models the rows of one agent, which the program locks one agent at a time.
- The settlement loop's handling of a record that was already persisted: the worker stops there.
- `fail_cycle`'s count of consecutive failures, alerts and automatic pauses.
- Floating-point seconds in `_latest_hour_not_after`: whole seconds.
- Catalogue cursors, page hashes and lineage: pages are given; which rows are ordinary markets is part of a row.
- Request and credit counts of the budget breaker, and the month as text: months are numbers.
- Commits.UndisturbedWorkerCommits: does not model the constraints on evidence, which are the order guard's cutoffs and price grid, foreign keys, the timestamps and fee-policy rows of the execution context, and bigint range.
- Commits.ExecutedOrderCommitsExactlyWhen: as above, and it starts at the snapshot of the portfolio: the reservation of an order intent (`src/vtrade/broker_repository.py:85-230`) is a transaction of its own before that, which also reads a column `outcome_id` of `order_operations` that no migration creates.
- Re-anchoring an agent, as `start_agent` does by setting its next slot to any time (`src/vtrade/bootstrap.py:265-269`), is outside the runs of the scheduler: it can leave the hourly grid and its coverage.
- Commits.UndisturbedSettlementCommits: does not model the settlement guard's look-up of the finalized observation, because observations are inputs.
