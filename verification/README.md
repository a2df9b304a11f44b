# YieldVest's worker, modelled and proved

A Dafny model of the YieldVest worker's hard core: the protocol that signs, loses and recovers
transactions and books each exactly once, the decision loop of a plan's cycle, the spend ledger, the
rate limiter, the New York trading calendar, the guardian and the money arithmetic. `dafny verify
dfyconfig.toml` checks all of it.

The modules, bottom up:

- `Basics`, `Arithmetic`: small types; products and quotients.
- `Books`: the tables (cycles with step log and ledger row, outbox, receipts, plan money) and every
  write made to them. `BooksInvariant`: what the tables always satisfy, and when each write keeps it.
- `Protocol`: the settlement protocol as a state machine. Processes take a plan's leased lock, open a
  cycle, reserve, sign, wait, book, and may die or lose the lock between any two writes; the chain mines
  or reverts; recovery, the finishing pass, the orphan pass and the operator's close act on what is left,
  the passes without a lock, several at once, each on what it read earlier.
  `ProtocolInvariant`, `ProtocolSafety`, `ProtocolRuns`: every action keeps the invariant.
  `ProtocolTheorems`, `CrashTransparency`: what that means for runs. `EffectOrder`: which bookings can
  change places. `Flows`: what moved in and out, summed from the logs. `ProtocolPaths`, `ProtocolWitnesses`: runs that show what can go wrong.
- `Store`: the database as an object, each method proved to do what the function of `Books` does.
  `Settlement`: the settle pass and the operator's close as programs over it, and convergence.
- `Ledger`: the spend ledger's table and its caps. `ReportedRedeem`: a reported redeem's accounting.
- `Decimals`, `Amounts`: the decimal codec; vTokens, utilisation, truncation, shares.
- `SlidingWindow`, `TokenBucket`, `RateLimiter`: the client-side limits.
- `NewYork`, `Session`: wall time under the daylight-saving rule of 15 U.S.C. section 260a, the NYSE
  calendar, the next open, the next due time.
- `Decide`, `Decisions`: one decision, and the exact condition of each of its answers. `Rounds`, `LiveBuys`,
  `TwelveRounds`, `RoundsWitnesses`: the loop that drives a cycle, what its rounds do to each variable, and
  why its twelve rounds are enough and needed. `LiveRuns`: the loop is one of the protocol's lock holders.
- `Guardian`: the rules, the tick, and the history of open events.

Amounts are base units (18 decimals), instants are milliseconds, dates are days since 1970-01-01.

Where the code does not do what its documentation says, the model follows the code:

- A swap that delivered no tokens keeps only its receipt when the running cycle books it
  (cycle.ts:756-769), but is booked in full by recovery (awaiting.ts:151-174).
  `CrashTransparency.LiveAndRecoveryAgree` says exactly when the two leave a plan the same money,
  `SpendingShows` that for a buy that spends anything this is exactly when tokens arrived,
  `EmptySwapBookedTwoWays` shows the difference, and crash transparency is proved for plans whose mined
  swaps delivered tokens.
- A withdrawal of a plan's whole position that was mined while its process died can be overtaken: a later
  deposit is booked at once, and the orphan pass (awaiting.ts:319-342) then takes its principal too.
  `ProtocolWitnesses.OvertakingShows` is a run in which that happens. The guard under which a withdrawal is
  signed (guardian.ts:150-154, 206-211) rules the reverse out (`CrashTransparency.OutOfTurn`);
  `EffectOrder.CommuteExactly` and `CommuteUncutExactly` say exactly which bookings cannot change places,
  and crash transparency is proved for every run in which no deposit overtook a withdrawal and nothing was
  cut at zero, or nothing that a cut can tell apart was booked out of turn either.
- That nothing is booked as not sent while it may have been mined (awaiting.ts:10-11) depends on the node
  answering the re-check of a failed transaction: with no receipt the cycle is closed as failed and its
  reservation freed (awaiting.ts:209-216, 271-288). The finishing pass holds no lock, so another pass may
  get the answer meanwhile and mark the transaction confirmed, before or after the cycle is closed. The
  model takes those steps too (`Unanswered`, `BlindFree`, `BlindClose`, and every finishing step on what a
  pass once read), and keeps as history for which cycles the node once did not answer. What is true of
  such a cycle: `ProtocolTheorems.ClosedMeansBooked`, `BookedAsSigned`, `LedgerSettlesOnce`;
  `ProtocolWitnesses.PassesDisagree` is a run that leaves a closed cycle's swap to the orphan pass, and
  `TheCapIsExceeded` one in which the day's cap is then exceeded. `Settlement.CompleteCycle` says exactly
  when one pass on its own loses a transaction, `Settlement.ALateCycle` gives a state in which it does.
- Redeem, approve, swap is not the only order of signatures: an approval may come first when nothing was
  to be redeemed in its round (`RoundsWitnesses.ApprovalMayComeFirst`). The order holds exactly when no
  round redeems with an approval already signed (`Rounds.OrderedExactlyWhen`), always for a plan not in
  yield mode; `Rounds.SignaturesOfACycle` says what holds for every cycle.
- The guardian lists at most 500 open events of all kinds, and a plan's multiplier warnings are never
  resolved: behind 500 of them a global event is neither closed nor recognised
  (`Guardian.HiddenEventsGoWrong`). `Guardian.TickIsRight` says exactly when a tick gets a rule right,
  `Guardian.OpenMeansLastFired` exactly when a whole run does.
- A reservation is checked against the caps, a settlement is not: spending more than was reserved raises the
  day by the rest (`Ledger.SettlingForMore`), and `Ledger.EveryCapHolds` is about settlements that do not.
- A token bucket with a capacity below one token still grants one. The capacity plus the rate bounds the
  slots of any interval when capacity and a millisecond's refill make a token (`TokenBucket.CapacityPlusRate`);
  when capacity and two milliseconds' refill do not, every single grant is over it
  (`TokenBucket.LessThanOneTokenStillGrants`).
- The utilisation is at most 100 % exactly when the reserves are covered by cash, nothing is borrowed, or
  the reserves leave nothing supplied, where the code answers 0 (`Amounts.UtilizationIsAShare`).
- Multipliers are compared after cutting to 18 places: two different numbers can be the same multiplier
  (`Amounts.SameMultiplierIsRounded`).

## Model

| member | source | states |
|---|---|---|
| BooksInvariant.AwaitingStepIsTheLastOne | apps/agent/src/awaiting.ts:59-65 | a cycle waits on its last AWAITING step unless an ANOMALY stands at or after it |
| BooksInvariant.HeldByAnAnomaly | apps/agent/src/awaiting.ts:67-73 | a cycle out on chain that waits for nothing is held by an ANOMALY |
| BooksInvariant.AppendStepKeeps | packages/db/src/plans.ts:270-280 | a step-log entry keeps the tables' invariant when it agrees with what the cycle signed |
| BooksInvariant.SetStateKeeps | packages/db/src/plans.ts:298-300 | a cycle may close once each of its transactions is booked or dead, or mined and the node once did not answer for it; and wait once it says what for |
| BooksInvariant.SetEntryKeeps | packages/db/src/ledger.ts:148-165 | a ledger row may change while it covers the swap the cycle signed |
| BooksInvariant.AddCycleKeeps | packages/db/src/plans.ts:250-268 | a cycle may open when no cycle of its plan is open |
| BooksInvariant.AddRowKeeps | packages/db/src/queue.ts:82-90 | a cycle may sign on top of booked transactions, a recorded decision and a live reservation; the whole position may be withdrawn with nothing else that moves it out |
| BooksInvariant.SetRowKeeps | packages/db/src/queue.ts:92-118 | a transaction's status may follow the chain; a dead one stays dead, and a late one stays late or is marked confirmed, in a closed cycle too |
| BooksInvariant.WithReceiptKeeps | packages/db/src/record.ts:82-100 | a receipt and its effect, inserted once, keep money equal to the receipts replayed |
| ProtocolInvariant.CapsReserved | packages/db/src/ledger.ts:110-146 | a reservation that passed the check leaves every day within every cap |
| ProtocolInvariant.CapsBooked | packages/db/src/record.ts:255-261 | booking a swap never raises what counts, but for a reservation that was freed |
| ProtocolSafety.LockKeeps | packages/db/src/plans.ts:138-212 | taking, renewing, losing and releasing a lock keep the invariant |
| ProtocolSafety.StartKeeps | apps/agent/src/cycle.ts:219-249 | opening a cycle under the lock after checking for open ones keeps the invariant |
| ProtocolSafety.LiveKeeps | apps/agent/src/cycle.ts:413-779 | every write of a running cycle keeps the invariant, and one that lost its lock writes nothing |
| ProtocolRuns.RecoverKeeps | apps/agent/src/cycle.ts:257-319 | every write of recovery keeps the invariant |
| ProtocolRuns.SignedMeansDecided | apps/agent/src/cycle.ts:279-291 | a cycle that signed anything recorded a decision, so recovery's branch without one is never taken |
| ProtocolRuns.FinishBooksTheSignedDecision | apps/agent/src/awaiting.ts:189-203 | the finishing pass books each transaction as it was signed |
| ProtocolRuns.FinishKeeps | apps/agent/src/awaiting.ts:181-317 | every write of a finishing pass, made on whatever it read of the cycle while it waited, keeps the invariant |
| ProtocolRuns.LateKeeps | apps/agent/src/awaiting.ts:209-215 | marking a late transaction confirmed keeps the books, in a cycle another pass closed too |
| ProtocolRuns.BlindFreeKeeps | apps/agent/src/awaiting.ts:271-273 | freeing, at any later time, a cycle for which the node once did not answer keeps books and caps |
| ProtocolRuns.BlindCloseKeeps | apps/agent/src/awaiting.ts:288-295 | the same of closing, whatever another pass made of its transaction meanwhile |
| ProtocolRuns.HeldCycleIsBooked | apps/agent/src/review.ts:37-44 | a cycle once held for review has nothing left to book and a reservation that was not freed |
| ProtocolRuns.ReviewKeeps | apps/agent/src/review.ts:45-90 | every write of the operator's close keeps the invariant, though a pass closes the cycle in between |
| ProtocolRuns.RowKeeps | apps/agent/src/executor/send.ts:239-294 | whatever the chain and the reconciliation make of a transaction keeps the invariant |
| ProtocolRuns.OrphansAreLoose | apps/agent/src/awaiting.ts:319-342 | the orphan pass finds a transaction of a cycle only if the node once did not answer for it, and books each as it was signed |
| ProtocolRuns.OrphanKeeps | apps/agent/src/awaiting.ts:323-342 | applying an orphan, of no cycle or of a closed one, keeps the invariant |
| ProtocolRuns.LooseKeeps | apps/agent/src/guardian.ts:145-154 | a deposit or redeem signed outside a cycle, a redeem only with no deposit or redeem of the plan in flight, keeps the invariant |
| ProtocolRuns.ActionKeeps | apps/agent/src/settlement.ts:19-58 | whatever happens next, by whichever process, overlapping passes and unanswered re-checks included, keeps the invariant |
| ProtocolRuns.RunKeepsInv | apps/agent/src/settlement.ts:1-7 | every state of every run, overlapping passes and unanswered re-checks included, satisfies the invariant |
| ProtocolTheorems.OneOpenCycle | apps/agent/src/cycle.ts:219-249 | a plan never has two cycles running or awaiting, across processes, takeovers and recoveries |
| ProtocolTheorems.HoldEndsOnlyByTakeover | packages/db/src/plans.ts:154-173 | a hold ends exactly when another process takes the lapsed lock; a lapsed lock nobody took still renews |
| ProtocolTheorems.LostStaysLost | apps/agent/src/plan-lock.ts:25-50 | a process whose lock was taken over never holds it again |
| ProtocolTheorems.LostIsPowerless | packages/db/src/plans.ts:194-212 | a process without the lock can neither renew nor release it nor write in time |
| ProtocolTheorems.OneHolder | packages/db/src/plans.ts:138-152 | at most one process holds a plan's lock or writes under it |
| ProtocolTheorems.DailyCapsHold | packages/db/src/ledger.ts:1-23 | on every day of every run house and judge plans stay within the global cap and each plan within its own, counting all cycles but those whose freed reservation was spent after all |
| ProtocolTheorems.DailyCapsHoldInTheLedger | packages/db/src/ledger.ts:45-65 | and so do the sums of the ledger table: of all house and judge plans together, and of each plan |
| ProtocolWitnesses.TheCapIsExceeded | apps/agent/src/awaiting.ts:271-288 | a run in which a freed reservation is reserved again and then spent after all, and the day's sum is twice the cap |
| ProtocolTheorems.LedgerSettlesOnce | packages/db/src/ledger.ts:148-165 | a step moves a ledger row back or up exactly when a finishing or orphan pass books a swap whose reservation was freed; that takes a cycle the node once did not answer for, and is on record since |
| ProtocolTheorems.ReleasedForGood | packages/db/src/ledger.ts:158-164 | over any stretch of a run a released row stays as it is, unless its reservation was spent after all |
| ProtocolTheorems.FreedBlindlyAndSpent | apps/agent/src/awaiting.ts:209-216 | a pass that dies after freeing without an answer leaves a cycle whose freed reservation the next pass spends after all |
| ProtocolWitnesses.PassesDisagree | apps/agent/src/awaiting.ts:181-216 | a run in which one pass gets no answer, another does, and the first closes the cycle over a confirmed swap the orphan pass will spend the freed reservation for |
| ProtocolTheorems.SignaturesInTurn | apps/agent/src/cycle.ts:561-779 | a cycle signs each kind once, the swap last, each only after the one before was booked |
| ProtocolTheorems.SignedUnderAReservation | apps/agent/src/cycle.ts:561-615 | every signature is under the lock, a live reservation and a recorded decision of no more than it |
| ProtocolTheorems.SwapStaysCovered | apps/agent/src/cycle.ts:604-615 | a mined swap's reservation covers what it took, and is free only before it is booked, in a cycle the node once did not answer for |
| ProtocolTheorems.RecoveredAsSigned | apps/agent/src/cycle.ts:263-293 | recovery records the decision the last swap was signed under |
| ProtocolTheorems.BookedAsSigned | apps/agent/src/awaiting.ts:84-179 | every receipt of the finishing and orphan passes has the effect the transaction was signed for; an orphan of a cycle is one the node once did not answer for |
| ProtocolTheorems.ClosedMeansBooked | apps/agent/src/review.ts:37-44 | a closed cycle's mined transaction is booked, or marked failed, or waits for the orphan pass, and the last two only if the node once did not answer for it |
| CrashTransparency.NeverBookedTwice | packages/db/src/record.ts:5-10 | no transaction is booked twice |
| CrashTransparency.EachCountedOnce | packages/db/src/record.ts:5-10 | a settled plan's money is its mined transactions in booking order, each exactly once |
| CrashTransparency.MoneyIsWhatHappened | apps/agent/src/cycle.ts:257-262 | a settled plan's money follows from what it started with and what the chain mined, in signing order, unless a deposit overtook a withdrawal or a cut at zero tells the order |
| CrashTransparency.CrashesDoNotShow | apps/agent/src/awaiting.ts:1-12 | two runs in which the chain mined the same for a plan leave it with the same money, wherever processes died, unless a deposit overtook a withdrawal or a cut at zero tells the order |
| CrashTransparency.OutOfTurn | apps/agent/src/guardian.ts:206-211 | only what a plan signs outside its cycles, or what the node once did not answer for, is ever booked out of turn; a withdrawal never before a deposit or withdrawal signed earlier |
| CrashTransparency.NothingElseClashes | apps/agent/src/guardian.ts:206-211 | of all pairs that clash the guard leaves only a deposit that overtakes a withdrawal, and what a cut at zero tells apart |
| Flows.ReceiptsAddUp | packages/db/src/record.ts:174-271 | over a settled plan nothing of which was cut: vTokens are the start plus those minted minus those burned in its mined transactions, and each holding the start plus the tokens bought, at the USDT spent |
| Flows.UsdtOfAPlan | packages/db/src/record.ts:174-271 | and principal and harvested are the start plus the USDT deposited and redeemed, minus the interest used |
| Flows.RunsAddUp | packages/db/src/record.ts:174-271 | the same of every state of every run in which the plan has settled |
| ProtocolWitnesses.OvertakingShows | packages/db/src/record.ts:174-219 | a run in which a deposit overtakes a withdrawal: it settles, nothing is cut, and the deposit's principal is gone |
| EffectOrder.CommuteExactly | packages/db/src/record.ts:174-271 | two bookings can change places, whatever the plan has, exactly when they are none of the listed pairs |
| EffectOrder.CommuteUncutExactly | packages/db/src/record.ts:193-219 | where nothing is cut at zero, only a whole-position withdrawal clashes, with a deposit or with another for a different amount |
| EffectOrder.SortedFolds | apps/agent/src/settlement.ts:1-7 | bookings whose out-of-turn pairs commute come to what they would in signing order |
| CrashTransparency.LiveAndRecoveryAgree | apps/agent/src/cycle.ts:730-769 | live and recovery leave any plan the same money exactly when the transaction is no swap that delivered nothing, or such a one that also cost nothing and took no interest |
| CrashTransparency.SpendingShows | apps/agent/src/cycle.ts:730-769 | for a decision that spends, exactly when the transaction is no swap that delivered nothing |
| CrashTransparency.EmptySwapBookedTwoWays | apps/agent/src/awaiting.ts:151-174 | an empty swap booked live and by recovery leaves different money |
| Store.Store.AcquirePlanLock | packages/db/src/plans.ts:138-152 | the lock is taken exactly when free or lapsed |
| Store.Store.RenewPlanLock | packages/db/src/plans.ts:154-173 | the lock is renewed exactly while its value is the holder's, expired or not |
| Store.Store.ReleasePlanLock | packages/db/src/plans.ts:194-212 | only the holder's value releases the lock |
| Store.Store.AppendCycleStep | packages/db/src/plans.ts:270-280 | appends one entry and changes nothing else |
| Store.Store.UpdateCycle | packages/db/src/plans.ts:298-300 | sets a cycle's state and changes nothing else |
| Store.Store.SettleCycleSpend | packages/db/src/ledger.ts:148-165 | settles the cycle's row; freeing leaves a spend alone |
| Store.Store.MarkOutbox | packages/db/src/queue.ts:92-118 | a compare-and-set on a row's status |
| Store.Store.InsertReceipt | packages/db/src/record.ts:68-80 | one receipt per transaction |
| Store.Store.RecordReceiptFacts | packages/db/src/record.ts:58-66 | a receipt without an effect |
| Store.Store.ApplyDeposit | packages/db/src/record.ts:174-191 | the receipt and the deposited principal and vTokens, or nothing |
| Store.Store.ApplyPositionRedeem | packages/db/src/record.ts:193-219 | the receipt, principal gone, the rest harvested, or nothing |
| Store.Store.ApplyInterestRedeem | packages/db/src/record.ts:221-235 | the receipt and the redeemed interest, or nothing |
| Store.Store.ApplySwap | packages/db/src/record.ts:237-271 | the receipt, the spend, the holding and the interest used, all at once or nothing |
| Store.Store.AddToHolding | packages/db/src/record.ts:106-155 | adds tokens and cost to one holding and touches no other |
| Store.PlanLease.Hold | apps/agent/src/plan-lock.ts:31-50 | renews exactly while held; a lost lease writes nothing and never holds again |
| Settlement.ApplyConfirmed | apps/agent/src/awaiting.ts:84-179 | applies a confirmed transaction once, or waits exactly when something it needs is unknown: which log amount enters and leaves which column, holding and ledger row, per kind of transaction |
| Settlement.EffectIsAsLogged | apps/agent/src/awaiting.ts:109-174 | the effect moves vTokens, USDT, tokens, cost and interest as the logs and the signed decision say, column by column |
| Settlement.ReceiptIsAsLogged | packages/db/src/record.ts:82-100 | so does the receipt with its ledger row, and it touches nothing else |
| Settlement.LiveIsAsLogged | apps/agent/src/cycle.ts:730-769 | the running cycle books the same amounts in the same columns, and of a swap that delivered nothing none |
| Settlement.RecoverInterrupted | apps/agent/src/cycle.ts:263-319 | a cycle that signed waits for its last transaction under its last decision; one that did not is closed and freed |
| Settlement.ApplyCycle | apps/agent/src/awaiting.ts:189-203 | applies all of a cycle's confirmed transactions or stops at one that has to wait |
| Settlement.CompleteCycle | apps/agent/src/awaiting.ts:183-315 | what finishing makes of a cycle in every case, an unanswered re-check included; the books stay right exactly when it does not newly close the cycle over a mined transaction the node did not return |
| Settlement.ClosingAsFailedIsRight | apps/agent/src/awaiting.ts:209-216 | closing a waiting cycle as failed keeps the books exactly when its last transaction is not failed, broadcast and mined |
| Settlement.ALateCycle | apps/agent/src/awaiting.ts:209-216 | a cycle in sound books whose closing as failed makes them wrong |
| Settlement.LostIsWrong | apps/agent/src/awaiting.ts:10-11 | a closed cycle with a mined transaction marked failed is never right, unless the node is known not to have answered for it |
| Settlement.RecoverOrphanedCycles | apps/agent/src/settlement.ts:14-34 | recovers exactly the running cycles whose plan's lock is free, and leaves locks as free as they were |
| Settlement.CompleteAwaitingCycles | apps/agent/src/awaiting.ts:181-317 | finishes each waiting cycle and leaves all others alone; the cycles it closes over a mined transaction the node did not return are exactly those newly on record, and each has lost one |
| Settlement.ApplyOrphanTransactions | apps/agent/src/awaiting.ts:319-342 | books every ready transaction that no cycle waits for, of closed cycles too, and nothing else |
| Settlement.SettlePass | apps/agent/src/settlement.ts:36-58 | the books stay right exactly when the pass closes no cycle over a mined transaction the node did not return; over a still chain it leaves none late, and if none was late it settles everything |
| Settlement.TwoTicksSettle | apps/agent/src/settlement.ts:36-58 | two passes leave every cycle closed or held and every confirmed transaction booked |
| Settlement.AnyRunCanSettle | apps/agent/src/settlement.ts:1-7 | every state of every run is one the ticks may start from |
| Settlement.AnyRunSettles | apps/agent/src/settlement.ts:36-58 | from any state of any run, over a still chain, two ticks settle everything |
| Settlement.OneTickMayNotBeEnough | apps/agent/src/awaiting.ts:209-216 | a cycle still waits after a pass exactly when its transaction was marked failed and mined after all |
| Settlement.StalePassIsHarmless | apps/agent/src/awaiting.ts:181-317 | whatever a pass still does to a cycle another one closed keeps books and caps and leaves it closed; unless the node once did not answer for it, nothing is booked or marked and no sum rises |
| Settlement.CloseReviewedCycle | apps/agent/src/review.ts:45-90 | when a close is refused and why; a closed cycle's reservation is spent and nothing of it is left to book |
| Ledger.ReservesWhatRemains | packages/db/src/ledger.ts:96-131 | a positive amount is reserved exactly when it is at most what remains |
| Ledger.ReservedStaysWithin | packages/db/src/ledger.ts:110-146 | after a reservation all its caps, the judge total included, still hold |
| Ledger.ReservationsDoNotMix | packages/db/src/ledger.ts:45-65 | one plan's spending leaves other plans' days alone, a skill plan's the house wallet's |
| Ledger.SettlingNeverRaises | packages/db/src/ledger.ts:148-165 | settling never raises a sum, and freeing gives back exactly the amount |
| Ledger.UsageCounts | packages/db/src/ledger.ts:45-70 | what the query sums: for house and judge plans the one house wallet's day, for a skill plan its own, for a judge code all it ever spent and its principal |
| Ledger.OneHouseWallet | packages/db/src/ledger.ts:47-56 | any two house or judge plans are checked against the same day's sum |
| Ledger.ARowCounts | packages/db/src/ledger.ts:50-64 | a reserved or spent row counts with exactly its amount, for the house wallet if its plan is a house or judge plan, for its plan, and for its judge code; a freed one nowhere |
| Ledger.EveryCapHolds | packages/db/src/ledger.ts:1-23 | over any sequence of reservations and settlements, all house and judge plans together stay within the day's cap, each plan within its own and each judge code within its total |
| Ledger.SettlingForMore | packages/db/src/ledger.ts:148-165 | settling for more than was reserved raises the wallet's day by the rest, unchecked |
| Ledger.SpendLedger.RemainingSpend | packages/db/src/ledger.ts:96-108 | the tightest remaining cap, never below zero: the house wallet's whole day for a house or judge plan, the plan's own day |
| Ledger.SpendLedger.ReserveSpend | packages/db/src/ledger.ts:110-146 | reserves exactly when every cap allows it and the cycle has no row; each refusal names a cap the sums, written out, exceed |
| Ledger.SpendLedger.SettleSpend | packages/db/src/ledger.ts:148-165 | settles the cycle's row with the amount given and no other; freeing leaves a spend as it is |
| ReportedRedeem.Plan.ApplyReportedRedeem | packages/db/src/record.ts:282-311 | the new position, and when the plan pauses |
| ReportedRedeem.InterestComesFirst | packages/db/src/record.ts:288-310 | at the redeem's own price what came back is harvested up to all the position is worth above its principal, in whole units, and the rest returns principal; below a cent or at one vToken nothing is left |
| ReportedRedeem.RedeemConservesValue | packages/db/src/record.ts:276-281 | what came back is harvested plus principal returned, up to the dust an exit drops |
| ReportedRedeem.RedeemKeepsCover | packages/db/src/record.ts:291-299 | a position that covered its principal covers what is left; otherwise the shortfall is the same |
| ReportedRedeem.TwoRedeemsSplitLikeOne | packages/db/src/record.ts:288-310 | two redeems at one rate split like one, unless the first is an exit |
| ReportedRedeem.AnExitFirstSplitsDifferently | packages/db/src/record.ts:301-305 | after an exit the dropped dust counts as interest |
| ReportedRedeem.NothingBurnedIsInterest | packages/db/src/record.ts:292-299 | a report that burned nothing is all interest |
| Decimals.ParserUndoesPrinter | packages/core/src/amounts.ts:8-25 | parsing what was printed gives the amount, for every number of decimals |
| Decimals.NegativesAreRefused | packages/core/src/amounts.ts:8-25 | a negative amount prints with a sign and the parser refuses it |
| Decimals.NormalisedSpelling | packages/core/src/amounts.ts:8-25 | printing what was parsed keeps the amount in its one canonical spelling |
| Decimals.OneSpellingEach | packages/core/src/amounts.ts:17-25 | two texts normalise alike exactly when they are the same amount |
| Amounts.UnderlyingRoundTrip | packages/core/src/amounts.ts:27-40 | underlying to vTokens and back never gains and loses less than rate/1e18 + 1 units |
| Amounts.VTokensRoundTrip | packages/core/src/amounts.ts:27-40 | vTokens to underlying and back never gains and loses less than 1e18/rate + 1 |
| Amounts.VTokenRoundingKeepsOrder | packages/core/src/amounts.ts:27-40 | both conversions are monotone |
| Amounts.WholePositionIsHeld | apps/agent/src/guardian.ts:267-278 | the amount asked for a whole position, rounded up, takes fewer vTokens than the plan holds |
| Amounts.WholePositionIsNearlyAll | apps/agent/src/guardian.ts:267-278 | and it is less than one unit below the worth of all the vTokens but one |
| Amounts.LimitFiresAboveIt | packages/core/src/amounts.ts:42-50 | the rounded-up ratio exceeds a limit exactly when something is supplied and the true ratio does |
| Amounts.UtilizationIsAShare | packages/core/src/amounts.ts:42-50 | the ratio is at most 100 % exactly when reserves are covered by cash, nothing is borrowed or nothing is supplied |
| Amounts.TruncationRoundsDown | packages/core/src/amounts.ts:52-63 | a cut decimal parses, to its exact value rounded down |
| Amounts.AnyDecimalIsAMultiplier | packages/core/src/holdings.ts:12-14 | any plain decimal is a multiplier, whatever its places |
| Amounts.SharesRoundDown | packages/core/src/holdings.ts:16-20 | shares never exceed tokens times multiplier and miss it by less than one unit |
| Amounts.SharesGrowWithTokens | packages/core/src/holdings.ts:16-20 | more tokens are never fewer shares |
| Amounts.SameMultiplierIsRounded | packages/core/src/holdings.ts:22-25 | any two plain decimals are the same multiplier exactly when they are the same number rounded down to 18 places |
| Amounts.SameNumberSameMultiplier | packages/core/src/holdings.ts:22-25 | the same number is the same multiplier however many places it is written with |
| Amounts.SameMultiplierIsNumeric | packages/core/src/holdings.ts:22-25 | with at most 18 places, two texts are the same multiplier exactly when they are the same number |
| SlidingWindow.SpacedMeansFew | packages/binance/src/rate-limit.ts:58-63 | a spaced log has at most max sends in any half-open span |
| SlidingWindow.InsertKeepsSpacing | packages/binance/src/rate-limit.ts:77-91 | a send committed clear of the log keeps the whole history spaced, in any order |
| SlidingWindow.Window.Earliest | packages/binance/src/rate-limit.ts:77-85 | pruning forgets nothing that matters; the answer is the earliest clear time |
| SlidingWindow.Window.Commit | packages/binance/src/rate-limit.ts:87-91 | records the send and keeps the history spaced |
| SlidingWindow.Window.NeverMoreThanMax | packages/binance/src/rate-limit.ts:58-63 | never more than max sends in any span of the whole history |
| TokenBucket.SlotsNeverGoBack | packages/binance/src/rate-limit.ts:39-47 | granted slots never go back in time |
| TokenBucket.FewSlotsInAnyInterval | packages/binance/src/rate-limit.ts:19-24 | any interval holds at most the burst plus the sustained rate from its first to its last millisecond |
| TokenBucket.CapacityPlusRate | packages/binance/src/rate-limit.ts:19-24 | when capacity and a millisecond's refill make a token: capacity plus rate times length, one millisecond of slack |
| TokenBucket.LessThanOneTokenStillGrants | packages/binance/src/rate-limit.ts:34-46 | with capacity and two milliseconds' refill below a token every grant breaks that bound |
| TokenBucket.FirstGrantOfASmallBucket | packages/binance/src/rate-limit.ts:34-47 | a fresh bucket that small breaks it with its first reservation |
| TokenBucket.NoLongerThanNeeded | packages/binance/src/rate-limit.ts:39-47 | every slot is one token's time after another from a moment the bucket would have been full: no caller waits longer |
| TokenBucket.RestedMeansNoWait | packages/binance/src/rate-limit.ts:39-47 | a token's time after the last slot there is no wait |
| TokenBucket.ABurstDoesNotWait | packages/binance/src/rate-limit.ts:19-24 | as many calls as the capacity holds do not wait |
| TokenBucket.Bucket.Reserve | packages/binance/src/rate-limit.ts:39-47 | each reservation is granted the next slot of a valid history, and leaves exactly the refilled tokens less one |
| RateLimiter.Limiter.Acquire | packages/binance/src/rate-limit.ts:127-143 | a send goes out at the first time that suits the pause, the bucket, its endpoint's window and, with a group, its group's; it is recorded in exactly those |
| RateLimiter.Limiter.Pause | packages/binance/src/rate-limit.ts:145-153 | a pause is at most thirty seconds and never shortens another |
| RateLimiter.Limiter.NoWindowIsOverrun | packages/binance/src/rate-limit.ts:127-143 | after any calls no endpoint and no group is over its max in any span |
| RateLimiter.Limiter.FewCallsPerEndpoint | packages/binance/src/rate-limit.ts:127-143 | of all calls logged, at most max name any one endpoint in any span |
| RateLimiter.Limiter.FewCallsPerGroup | packages/binance/src/rate-limit.ts:127-143 | and at most the group's max name any one group, on whatever endpoints |
| NewYork.NewYorkTimeOn | packages/core/src/session.ts:88-98 | the instant found shows the wanted wall time |
| NewYork.WallTimeOrNone | packages/core/src/session.ts:88-98 | an instant is found for every minute but those of the skipped hour |
| NewYork.NotAMinute | packages/core/src/session.ts:88-98 | none is found for minutes outside a day |
| NewYork.WallTimeIsUnique | packages/core/src/session.ts:61-98 | it is the only one but in the repeated hour, where it is the earlier |
| NewYork.RepeatedMeansTwice | packages/core/src/session.ts:61-98 | in the repeated hour two instants show the wall time |
| NewYork.OneOffsetADay | packages/core/src/session.ts:50-68 | from 03:00 to midnight a New York date keeps one offset |
| Session.OpensAtNineThirty | packages/core/src/session.ts:70-79 | the open of a trading day is in the session and the minute before is not |
| Session.RunsUntilItsClose | packages/core/src/session.ts:81-86 | a session runs unbroken until the close answered, which is after it |
| Session.RegularByTheClock | packages/core/src/session.ts:24-79 | the regular session is 09:30 to 16:00 New York time, to 13:00 on the short days, on weekdays that are no holidays of a known year |
| Session.ClosesAtFourOrOne | packages/core/src/session.ts:81-86 | the close answered is 16:00 or 13:00 of that date |
| Session.NoonsVisitEveryDate | packages/core/src/session.ts:107-116 | stepping 24 hours from noon visits every date once across a switch |
| Session.NextRegularOpen | packages/core/src/session.ts:100-118 | the loop answers the least open strictly after now |
| Session.NextOpenIsLeast | packages/core/src/session.ts:100-118 | least open after now, in session, and answered exactly when a searched date has one |
| Session.FirstOpenIsFirst | packages/core/src/session.ts:126-129 | the open found is that of the first trading day on or after the date, and none is found exactly when thirteen dates on end do not trade |
| Session.NextDueIsInASession | packages/core/src/schedule.ts:1-22 | a due time is in a regular session on a later date, a week or more later for a weekly plan |
| Session.NextDueIsTheFirst | packages/core/src/schedule.ts:15-22 | the retry, or never, or two minutes after the first open from tomorrow, or from a week on |
| Session.PlansMoveOn | packages/core/src/schedule.ts:15-22 | a finished cycle moves its plan strictly past the due time it ran for |
| Decide.DecideCycle | packages/core/src/decide.ts:184-496 | the step with its scanning loops computes the decision the lemmas are about; a blocked plan asks and buys nothing |
| Decide.ScanCandidates | packages/core/src/decide.ts:265-324 | the loops over quotes and candidates find the first market that can be bought |
| Decide.RetriesLieAhead | packages/core/src/decide.ts:147-154 | every retry lies strictly after now |
| Decide.DecidedPlansMoveOn | packages/core/src/decide.ts:326-344 | whatever a due cycle decided, the plan's next due time is past the one it ran for |
| Decide.AsksOfABuyable | packages/core/src/decide.ts:278-324 | a quote or a buy is only ever for a trading, not excluded instrument whose venue takes the planned spend |
| Decide.ExecuteWithinItsMeans | packages/core/src/decide.ts:442-496 | a buy stays within limits, day and budget; what interest does not pay is at most the contribution; principal stays |
| Decide.ExecuteHasAFreshQuote | packages/core/src/decide.ts:405-496 | a buy executes the instrument's complete, readable, low-impact, recent quote |
| Decide.ExclusionIsPermanent | packages/core/src/decide.ts:173-182 | more quotes never let an excluded instrument back in |
| Decisions.AsksOrBuysOnlyWhen | packages/core/src/decide.ts:184-403 | a step that asks or buys is of an active, due, unexpired, unblocked plan in its window, with the minimum within every limit, for the first preferred market that can be bought, none before it under a corporate action, at no premium |
| Decisions.WhatABuyIs | packages/core/src/decide.ts:405-496 | the last quote of the instrument, fresh and of low impact, within limits, day and means; interest pays first, harvested before redeemed, and the redemption is exactly the rest |
| Decisions.BuysExactlyWhen | packages/core/src/decide.ts:405-496 | the condition of each buy, for every instrument, spend, quote, redemption and interest |
| Decisions.AsksExactlyWhen | packages/core/src/decide.ts:405-480 | the condition of each quote asked, and its amount: all that may be spent, half, or the same again |
| Decisions.HeldExactlyWhen | packages/core/src/decide.ts:188-209 | which steps are not due, and that every due step of a blocked plan is skipped |
| Decisions.SkipsExactlyWhen | packages/core/src/decide.ts:248-386 | the condition of each skip: below the minimum, day used up, corporate action, no instrument |
| Decisions.DefersExactlyWhen | packages/core/src/decide.ts:333-475 | the condition and the retry of each wait for data, price or impact |
| Decisions.WaitsExactlyWhen | packages/core/src/decide.ts:211-417 | the condition and the retry of each wait for a market to open |
| Decisions.FailsExactlyWhen | packages/core/src/decide.ts:220-440 | the condition of each failure, and of each error thrown |
| Decisions.ScanSaw | packages/core/src/decide.ts:265-324 | what the scan remembers: the first market that can be bought, a corporate action before it, the first closed market, an unknown status, the least minimum |
| Rounds.LiveCycle.Rounds | apps/agent/src/cycle.ts:504-779 | the loop over the cycle's variables ends as the rounds function says |
| Rounds.LiveCycle.ExecuteBuy | apps/agent/src/cycle.ts:561-772 | confirmation, reservation, redeem, approval and swap of one round, and what each answer leads to |
| Rounds.EveryBuyIsWithinBounds | apps/agent/src/cycle.ts:519-615 | every buy of every round is within the minimums, limits, day, confirmation and means |
| LiveBuys.WhatARoundBuys | apps/agent/src/cycle.ts:519-615 | a buy of any round: on a fresh quote, never of a blocked plan, paid from what is earned now, harvested before and redeemed in the cycle, and from the contribution only beyond that |
| LiveBuys.WhatARoundKeeps | apps/agent/src/cycle.ts:586-674 | what a round leaves reserved, redeemed, approved and harvested; only a mined redemption raises what is harvested, by what it returned |
| LiveBuys.WhatARoundSigns | apps/agent/src/cycle.ts:616-720 | a round signs exactly the one transaction it sent |
| LiveBuys.WhatARoundQuotes | apps/agent/src/cycle.ts:546-560 | a round adds the quote it asked for, or marks the one refused, or leaves the quotes alone |
| LiveBuys.HowARoundEnds | apps/agent/src/cycle.ts:535-772 | when a round ends the cycle and how: a mined swap is a buy exactly when it delivered tokens, and is held for review otherwise |
| LiveBuys.BlockedSignsNothing | apps/agent/src/cycle.ts:401-403 | a cycle a guardian rule blocks asks, reserves and signs nothing in any round |
| LiveBuys.FiringStopsBuying | packages/core/src/guardian.ts:105-111 | so a blocking rule that fired when last evaluated, and was seen, stops every buy |
| LiveBuys.HarvestedIsReturned | apps/agent/src/cycle.ts:640-659 | what is harvested in a cycle is what its redemptions returned |
| LiveBuys.TheRefusedQuoteIsMarked | apps/agent/src/cycle.ts:688-694 | a request for a new quote marks the refused one as received at the epoch, and no other |
| LiveBuys.RefusedMeansAskedAgain | apps/agent/src/cycle.ts:688-694 | between a refused swap and a later buy of the instrument some round asked for another quote and got it |
| LiveBuys.RefusedMeansMoreQuotes | apps/agent/src/cycle.ts:688-694 | so the instrument has more quotes then |
| Rounds.SignaturesOfACycle | apps/agent/src/cycle.ts:561-772 | each kind signed once, the swap last, nothing before a reservation, above it or outside the confirmation |
| LiveRuns.CycleIsARun | apps/agent/src/cycle.ts:504-779 | for any replies in its rounds, actions of the protocol sign exactly what the rounds sign, in order, and leave the cycle as the rounds end |
| LiveRuns.OneRound | apps/agent/src/cycle.ts:519-772 | the same of one round |
| LiveRuns.RoundsSignInTurn | apps/agent/src/cycle.ts:561-772 | so what the protocol's runs sign in turn, the loop does: the order proved of every run is the loop's |
| Rounds.OrderedExactlyWhen | apps/agent/src/cycle.ts:616-674 | after any rounds the signatures are in the order redeem, approve, swap exactly when no round redeemed with an approval already signed |
| Rounds.OneSignatureARound | apps/agent/src/cycle.ts:561-772 | a round signs at most once, and a redemption exactly when its guards let it redeem |
| Rounds.CycleOrderedExactlyWhen | apps/agent/src/cycle.ts:616-674 | the same of a whole cycle, and always of a plan not in yield mode |
| TwelveRounds.AskedAgainOnlyForImpact | packages/core/src/decide.ts:442-475 | in a calm run a second or third quote is asked only to halve a high impact |
| TwelveRounds.ThreeQuotesEach | packages/core/src/decide.ts:462-475 | in a calm run no instrument is quoted more than three times |
| TwelveRounds.TwelveRoundsAreEnough | apps/agent/src/cycle.ts:774-778 | a calm run always ends within the rounds, whatever the venue answers |
| RoundsWitnesses.ElevenRoundsAreNotEnough | apps/agent/src/cycle.ts:519-778 | a calm run still undecided after eleven rounds |
| RoundsWitnesses.ApprovalMayComeFirst | apps/agent/src/cycle.ts:616-674 | a run that signs its approval before its redemption |
| Guardian.FiringIsEvaluated | packages/core/src/guardian.ts:40-103 | a firing rule is never an unevaluated one |
| Guardian.TvlDropsByThirtyPercent | packages/core/src/guardian.ts:69-82 | the TVL rule fires exactly from a thirty per cent drop on |
| Guardian.RulesCallExactlyWhen | packages/core/src/guardian.ts:46-103 | which readings make which rule call for what, and that no other action is ever called for |
| Guardian.UnevaluatedExactlyWhen | packages/core/src/guardian.ts:36-50 | which rules count as not evaluated |
| Guardian.GuardianEvents.Tick | apps/agent/src/guardian.ts:302-341 | the events after a tick: quiet evaluated rules closed, firing ones not open opened |
| Guardian.WhatATickLeaves | apps/agent/src/guardian.ts:302-341 | which events a tick closes, which it leaves, and which it opens with what response |
| Guardian.ListedAreTheNewest | packages/db/src/plans.ts:463-500 | what is listed is the newest of what is open |
| Guardian.VerdictIsTheFirst | packages/core/src/guardian.ts:105-111 | the verdict is the first open event, global or the plan's, that pauses buys or redeems all |
| Guardian.TickIsRight | apps/agent/src/guardian.ts:313-335 | a tick gets a rule right exactly when its open event was listed or it was not evaluated |
| Guardian.OpenMeansLastFired | apps/agent/src/guardian.ts:302-341 | all through a run a rule is open, once, exactly when it last fired, if and only if every tick that evaluated it saw its open event |
| Guardian.FittingRunsAreSeen | packages/db/src/plans.ts:463-500 | a run in which no tick finds more than 500 open events always sees them |
| Guardian.BlockedExactlyWhenLastFired | packages/core/src/guardian.ts:105-111 | when the ticks saw the blocking rules' events, buying is blocked exactly when one of them fired when last evaluated |
| Guardian.HiddenEventsGoWrong | packages/db/src/plans.ts:463-500 | behind 500 plan warnings a calm tick closes nothing and a firing one opens twice |

## Left out

- The protocol assumes that no step between two renewals of a plan lock outlasts the lock's lifetime
  (`Protocol.InTime`); the code's choice of lifetime (plan-lock.ts:7-8) is that assumption.
- A transaction settled as FAILED is not mined later, apart from one of a cycle that an operator gave up
  on after it was broadcast: that is what the re-check finds.
- CrashTransparency.CrashesDoNotShow: speaks of plans that have settled, so of none with a transaction still
  lost to an unanswered re-check, and whose mined swaps delivered tokens.
- Store.Store.ReleasePlanLock: omits the plan columns written together with the release.
- Store.Store.UpdateCycle: sets the state column; the outcome and reason columns are not modelled.
- Store.Store.MarkOutbox: sets the status; how a row was broadcast, its error and its attempts are omitted.
- Store.Store.ApplyPositionRedeem: omits that an active plan is paused by it.
- Store.Store.AddToHolding: omits shares and multiplier.
- Flows.UsdtOfAPlan: is about plans of which nothing was cut at zero and whose withdrawals of a whole position
  brought back at least the principal; what falls short is in no column.
- Ledger.EveryCapHolds: is about constant caps, and about settlements for no more than counted before.
- LiveBuys.RefusedMeansAskedAgain: is about clocks past the first twenty-five seconds after the epoch.
- Amounts.SameMultiplierIsNumeric: is about texts of at most 18 places; beyond that the code cuts, and
  `SameMultiplierIsRounded` says what it compares.
- A withdrawal's check that nothing of the plan is in flight and its signature are one action (the code does
  both under the plan's lock); `startYieldPlan`, which checks earlier and without it, is not modelled apart.
- RateLimiter.Limiter.Acquire: the bucket's bound is on granted slots, not on send times, which a pause or
  a full window can push later.
- TwelveRounds.TwelveRoundsAreEnough: assumes no stale quote, no requote and quoted spends that stay
  affordable; without that the loop ends with TOO_MANY_ROUNDS by design.
- The protocol keeps a cycle's ledger row on the cycle (the table has one row per cycle), stores with each
  outbox row the decision it was signed for and whether its receipt exists (both are joins in the
  database), and has constant caps. Skill plans run no cycles.
- Plan status, pause reasons and due times in the protocol; alerts; logs; simulate mode.
- Routes of quotes, and a quote's identity: the last quote of an instrument is the one executed and marked.
- The shares and multiplier written with a holding (the share arithmetic itself is in `Amounts`) and the
  multiplier warning raised there.
- Judge totals under concurrency: the deposit check is outside the ledger's lock.
- Single-plan redemption by the guardian or an operator beyond its transaction and accounting.
- `planCaps`, `boughtOutcome`, copy keys and formatting: minima and tables of texts.
- Time-zone history before the rule in force since 2007; floating-point rounding of prices, impacts and
  bucket tokens (exact rationals instead); the `Retry-After` parser.
- HTTP, RPC, the database driver, request signing, job queue, web pages, scripts, telemetry, APY.
