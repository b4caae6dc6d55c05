# Contest engine: a verified model

The contest engine runs a programming contest for a room of people: puzzles and hacking in Phase 1, then an
auction of questions, a marketplace of powerups, and judged submissions in Phase 2. Most of it is a set of
state machines over database tables, each with a written claim about what holds in every interleaving. This
project restates those state machines in Dafny and proves the claims, for all inputs and all runs.

Each part comes twice. A module of values and functions says what one transaction does and carries the
theorems about whole runs. Where the source updates rows in place, a class holds those rows as fields, its
methods do what the transactions do, and each method's contract ties the new state to the specification
function. The modules named for effects, lines and rules, and `FeedLosses`, say what each of those functions does by
the rows alone: when a request goes through, which columns change and to what, and that nothing else moves.

| part | specification and runs | tables |
|---|---|---|
| coins | `Ledger`, `Selection`, `Sales`, `SaleEffects` | `Ledger.Wallet`, `Selection.Phase1Selection`, `Sales.SalesDesk` |
| auction | `Auction`, `AuctionRuns`, `Solvency`, `RunningOrder`, `AuctionEffects` | `AuctionFloor.FloorTables` |
| marketplace | `Attacks`, `Blackouts`, `Shields`, `Breaks`, `AttackRuns`, `Requests`, `MarketEffects` | `Arena.ArenaTables` |
| event feed | `Feed`, `FeedRuns`, `FeedLosses`, `FeedFreshness` | `EventTable.Events`, `EventTable.PollingClient` |
| judging | `Judgements`, `JudgingRuns`, `JudgeRefusals`, `JudgingEffects` | `JudgementTable.Tables` |
| hacking | `Hacking`, `HackRuns`, `HackTicks`, `HackEffects` | `HackTable.Tables` |
| Section A | `Answers`, `Validation`, `ValidationRuns`, `AnswerEffects` | `AnswerTable.Tables` |
| leaderboards | `Phase1Board`, `Phase2Board`, `BothBoards`, `ReadOrder`, `Sorting`, `BoardLines` | `Phase2Fold`, and the methods of both boards |
| the judge's algorithms | `Text`, `Comparisons`, `Tallying`, `JudgeRules` | `CheckerReader.Reader`, `Tallying.Tally` |

Conventions. Time is in milliseconds and each transaction reads it once, with its locks held; where a row's
`created_at` matters, when its transaction began is kept beside it. A refused request is an `Err` that
leaves the state as it was. A transaction is one step of a run; where the source reads before it locks (a
poll's two reads, claim then send, poll then write, read then settle, save under a shared lock, cancel's read
then its updates), it is several, and other steps may come between.

Where code and documentation disagree, the model follows the code:

- `engine/engine/phase1/hack_jobs.py:54` calls `_broken` without its message. The call fails, the transaction
  is undone and the attempt waits on; the docstring says it is settled with nothing scored. It is never settled
  (`HackRuns.OrphanIsNeverSettled`), and because a tick sends before it polls, once such an attempt is the oldest
  one waiting nothing of anybody's is sent or settled, unless a send comes while another sender holds that row
  (`HackTicks.NothingMovesBehindAnOrphan`). The score theorem covers both readings, since settling an attempt as
  broken is also what a refused one does.
- `engine/engine/marketplace/buying.py:26-36` promises that a repeated purchase is answered from the first. It
  is, exactly when it would pass every check again (`Requests.ReplayAnsweredIff`, and
  `Requests.AttackReplayAnsweredIff` for an attack).
- `engine/engine/auction/lot_queue.py:64-92` and `:132-150` keep the bid rows of an earlier offering, and
  `engine/engine/auction/control.py:145-153` reads them all, so a retraction can bring an old bid back.
  `AuctionRuns.RetractUndoesBidIff` gives the exact condition, and on a lot offered again the ladder is about
  the bids made since.
- `engine/engine/core/events.py:92-94` prunes by the age of the transaction, and ids follow the lock.
  `Feed.PruneTakesOldestIff` says when the two agree; delivery over whole runs is proved where they do and where
  nothing is pruned between a poll's two reads. Outside that, `FeedRuns.PruneBetweenReadsIff` and
  `FeedRuns.PrunedByAgeIff` say exactly which polls skip something on the way to the cursor they answer, two
  concrete tables show one that does, and `FeedLosses.GotAllIffNeverShort` carries it over every run.
- `engine/engine/core/events.py:65-70` means a page to re-read the state when events were pruned behind its back,
  and `web/src/components/contest-provider.tsx:178-179` counts on it. With every row pruned there is no oldest one to
  compare with: the poll answers no event, the old cursor and no reset, and the page stays behind until something is
  published (`FeedFreshness.StalePageIsReached`, `FeedFreshness.SilentUntilPublished`).
  `FeedFreshness.PollPassesEverythingIff` and `FeedFreshness.AppliedPollIsUpToDateIff` say exactly when a poll brings
  its page up to date.
- `engine/engine/marketplace/breaks.py:82-86` counts attacks by `created_at`, when their transactions began, and
  compares it with a break's end, which was read from the clock. An attack that began inside a break and waited
  for the target's row until the break was over lands and is never counted
  (`Breaks.LateAttackGoesUncounted`), so more than the cap's worth can fall between two breaks.
  `Breaks.CapKeptIff` and `AttackRuns.CapHoldsIffNoneStraddled` give the exact condition. An attack that itself
  starts the next break is counted either way (`Breaks.LateStarterStillCounts`). Breaks are at least a second
  long, as the settings require (`engine/api/routes/admin/contest.py:35`).
- `engine/engine/auction/control.py:52-79` is to give back exactly the time a pause took. It does for a clock the
  pause found running (`AuctionRuns.PauseGivesTheTimeBack`); one set during the pause gains the part of the pause
  before that (`AuctionRuns.ClockSetInPauseGains`).
- `engine/engine/coding/judging.py:87-112` writes a refusal after letting go of its claim, for whatever job the row has
  by then. `JudgeRefusals.RefusalOverridesIff` says when that overrides a live one.
- `engine/engine/coding/scoring.py:28-34` reads the people before the Phase 1 board. Two people disqualified in between
  and level on score and time share a rank (`BothBoards.Phase2RanksAreOneToNIff`).
- `engine/engine/phase1/standings.py:48-55` sorts by name last; two people who tie on points, finish and name
  are ranked in the order the rows happen to be read (`Phase1Board.OrderShowsOnlyInTies`), and
  `engine/engine/coding/scoring.py:34` uses those ranks to break Phase 2's ties. `ReadOrder.BoardIsOrderFreeIff`
  and `ReadOrder.ShownIsOrderFreeIff` say exactly when the Phase 2 board does not show it.

Verify with `dafny verify dfyconfig.toml`.

## Model

| member | source | states |
|---|---|---|
| `Ledger.MoveKeepsBalanced` | engine/engine/accounts/wallet.py:88-108 | a movement that goes through leaves every balance equal to the sum of its ledger lines, every line carrying the running total, and nothing negative |
| `Ledger.AnyRunIsBalanced` | engine/engine/accounts/wallet.py:88-108 | the same over any run of requests, refused ones included |
| `Ledger.Wallet.constructor` | engine/engine/accounts/wallet.py:1-21 | everybody starts with nothing and an empty ledger, which balances |
| `Ledger.Wallet.Move` | engine/engine/accounts/wallet.py:88-108 | one movement changes one balance and appends its line, or is refused and changes nothing; the books stay balanced |
| `Selection.BulkReadAgrees` | engine/engine/phase1/selection.py:61-69 | the grouped read of the ledger names exactly the participants the per-person read would |
| `Selection.SelectionPaysTheChosen` | engine/engine/phase1/selection.py:20-58 | a selection that goes through leaves the chosen, and nobody else, holding one starting amount each |
| `Selection.RepeatedSelectionMovesNothing` | engine/engine/phase1/selection.py:20-58 | choosing the same people again moves no balance and writes no line |
| `Selection.CoinsFollowTheSelection` | engine/engine/phase1/selection.py:20-69 | over any run of selections, registrations and other movements, whose grant lines net positive is exactly the last set that went through, and whoever was enrolled with coins since |
| `Selection.Phase1Selection.SettleStartingBalance` | engine/engine/accounts/wallet.py:64-85 | grants, claws back or leaves alone, by whether the person is entitled and holds the coins already |
| `Selection.Phase1Selection.SetAdvancement` | engine/engine/phase1/selection.py:20-58 | the loop over everybody settles as one: all of it, or on a refusal none of it |
| `Sales.AwardKeepsGood` | engine/engine/auction/sales.py:18-46 | an award keeps the books balanced and a question sold exactly when it has a live owner |
| `Sales.BuyHintKeepsGood` | engine/engine/coding/hints.py:50-108 | a hint purchase keeps the books balanced and hints bought in order |
| `Sales.TakeBackKeepsGood` | engine/engine/auction/takeback.py:19-79 | a take-back keeps the books balanced, sold meaning owned, and hints in order |
| `Sales.AwardRefusedIff` | engine/engine/auction/sales.py:18-46 | an award is refused exactly when the price is above the balance or somebody already owns the question |
| `Sales.HintsKeepOutlay` | engine/engine/coding/hints.py:71-108 | whatever hints are bought, balance plus what was paid on the question stays put |
| `Sales.RefundRoundTrip` | engine/engine/auction/takeback.py:29-55 | award, any hints, take-back with both refunds: the balance returns, the hints are forgotten, the question can be sold to anybody who can pay; hints an earlier ownership left unrefunded come back too |
| `Sales.RoundTripExactIff` | engine/engine/auction/takeback.py:29-55 | the balance comes back exactly if and only if no earlier ownership left hints unrefunded |
| `Sales.UnrefundedHintComesBack` | engine/engine/auction/takeback.py:29-55 | a hint left unrefunded by one take-back is paid by the next: a concrete run in which the round trip is not exact |
| `Sales.AnyRunIsGood` | engine/engine/auction/sales.py:18-136 | over any run of sales, assignments, hints, take-backs and movements: books balanced, sold exactly when owned, hints in order |
| `SaleEffects.StartingCoinsDo` | engine/engine/accounts/wallet.py:64-85 | granted to somebody entitled who has none, taken back from somebody not entitled who has them, with the ledger line saying which; otherwise nothing moves |
| `SaleEffects.AwardDoes` | engine/engine/auction/sales.py:18-46 | an award goes through if and only if the winner can pay and nobody owns the question; the question is then theirs at that price, which is all they paid |
| `SaleEffects.AssignmentDoes` | engine/engine/auction/sales.py:58-93 | so does an organiser's, for a question nobody has bought; each refusal is true of the rows |
| `SaleEffects.HintPurchaseDoes` | engine/engine/coding/hints.py:50-108 | a hint already bought is answered for nothing; otherwise the first one not bought is sold at its own price, if and only if it is the one asked for and the owner can pay; each refusal is true of the rows |
| `SaleEffects.TakeBackDoes` | engine/engine/auction/takeback.py:19-79 | the refund is the price if asked for, the hints if asked for, or both; the hints are forgotten exactly when refunded; the ownership is void and the question can be sold again |
| `Sales.SalesDesk.Award` | engine/engine/auction/sales.py:18-25 | charges the winner and grants the question, or changes nothing |
| `Sales.SalesDesk.GrantOwnership` | engine/engine/auction/sales.py:28-46 | one live owner per question; the status follows |
| `Sales.SalesDesk.AssignQuestion` | engine/engine/auction/sales.py:58-93 | an organiser hands a question over at a price, or is refused with nothing changed |
| `Sales.SalesDesk.BuyHint` | engine/engine/coding/hints.py:50-108 | sells the next hint only, answers one already bought again for nothing, or refuses |
| `Sales.SalesDesk.TakeBackQuestion` | engine/engine/auction/takeback.py:19-79 | voids the ownership, refunds what is asked, forgets refunded hints and makes the question sellable |
| `AuctionRuns.EveryRunKeepsTheLadder` | engine/engine/auction/bidding.py:45-90 | over any events of a round no two lots are open; on a first offering the current bid and bidder are the top of the stack, which climbs from the base price by exactly one increment with nobody twice in a row; on a later offering so do the bids made since, from the base price or from an old bid a retraction brought back; each opening settles at most once |
| `AuctionRuns.RungAmount` | engine/engine/auction/rules.py:11-13 | the k-th bid of a first offering is the base price plus k increments |
| `AuctionRuns.RetractUndoesBidIff` | engine/engine/auction/control.py:140-198 | retracting right after a bid restores amount and holder if and only if somebody held the lot before or no bid rows were left over |
| `AuctionRuns.RetractAfterRestoreRevivesOldBid` | engine/engine/auction/lot_queue.py:64-92 | a lot withdrawn with a bid, restored and opened again: one new bid, retracted, puts the earlier offering's bidder back on top |
| `AuctionRuns.ClockNeverSettlesEarly` | engine/engine/auction/lots.py:120-138 | the clock settles a lot only unpaused and once the whole span it was last set for has run in unpaused time, whatever an earlier read had said |
| `AuctionRuns.BidsOnlyInsideTheWindow` | engine/engine/auction/bidding.py:45-70 | a bid lands only on an open lot, unpaused, while that span still runs |
| `AuctionRuns.WindowsStartFull` | engine/engine/auction/bidding.py:73-90 | opening starts a full opening window; a bid or a retraction starts its countdown or window in full |
| `AuctionRuns.PausedFloorStandsStill` | engine/engine/auction/control.py:34-49 | while paused no lot opens, no bid lands, the clock settles nothing, and an untouched lot is unchanged |
| `AuctionRuns.PausedRunStandsStill` | engine/engine/auction/control.py:34-79 | the same over any run inside a pause |
| `AuctionRuns.PauseGivesTheTimeBack` | engine/engine/auction/control.py:52-79 | the time left on the open lot when a pause began is exactly what is left when it ends |
| `AuctionRuns.ClockSetInPauseGains` | engine/engine/auction/control.py:52-137 | a clock set during a pause, by the organiser or a retraction, has left at the resume its whole new span and the part of the pause before it was set |
| `AuctionRuns.TimerMovesAsAsked` | engine/engine/auction/control.py:82-137 | an organiser's hand on the timer moves the live deadline as asked and nothing else, and never leaves bidding less than a second |
| `AuctionEffects.BidDoes` | engine/engine/auction/bidding.py:28-90 | a bid stands if and only if every condition on bidder, auction, lot, clock, amount, balance and cap holds; it then tops the stack and starts a whole countdown, and no money moves; each refusal is true of the rows |
| `AuctionEffects.RetractionDoes` | engine/engine/auction/control.py:140-173 | the newest bid goes, and the one below stands with a fresh countdown, or the lot is back to its base with a fresh window |
| `AuctionEffects.OpeningDoes` | engine/engine/auction/lots.py:42-91 | the pending lot first in the order is offered, if and only if nothing is open or paused and one is pending |
| `AuctionEffects.ClosingDoes` | engine/engine/auction/lots.py:94-150 | a lot closed by hand is closed if and only if it had a bidder, who now owns the question and paid exactly the bid, and unsold if and only if it had none, with neither money nor ownership moved; no other lot changes |
| `AuctionEffects.ClockDoes` | engine/engine/auction/lots.py:120-150 | the same by the clock, if and only if nothing is paused, bids are not taken in the room and the lot's time is up |
| `AuctionEffects.TickDoes` | engine/engine/auction/lots.py:171-183 | a second of the scheduler does nothing in a pause, offers the next lot when none is open, and settles the open one once its time is up and offers the next in the same second |
| `AuctionEffects.WithdrawalDoes` | engine/engine/auction/lot_queue.py:19-61 | a lot not yet settled leaves the floor with its clocks off |
| `AuctionEffects.RestorationDoes` | engine/engine/auction/lot_queue.py:64-92 | a withdrawn lot is pending again, last in the queue, with no bid standing and its bid rows kept |
| `AuctionEffects.RelistingDoes` | engine/engine/auction/lot_queue.py:132-150 | a question taken back has its lot, or a new one, pending and last in the queue; its bid rows stay |
| `AuctionEffects.ResumeDoes` | engine/engine/auction/control.py:52-79 | the deadlines of open lots, and those alone, are later by as long as the pause lasted |
| `AuctionEffects.TimerRefusedIff` | engine/engine/auction/control.py:101-137 | when an organiser's change to the timer is refused |
| `Solvency.SettlementIsNeverRefused` | engine/engine/auction/lots.py:141-150 | in a round where winning is the only way to spend, settling the open lot goes through and leaves nobody above the cap |
| `Solvency.EveryRunIsSolvent` | engine/engine/auction/sales.py:18-46 | over any run of such a round every bid on the open lot's stack stays covered and under the cap, so settlement is never refused |
| `Solvency.SettlementRefusedIff` | engine/engine/auction/lots.py:141-150 | settlement of an open lot is refused exactly when its top bidder can no longer pay or the question has found an owner |
| `Solvency.SpendingBreaksSettlement` | engine/engine/auction/sales.py:28-46 | a hint bought after the bid makes settlement refuse: a concrete run |
| `RunningOrder.NewRoundListsEveryQuestion` | engine/engine/auction/lots.py:29-39 | a new round lists every question once, pending, in the published order |
| `RunningOrder.MissingQuestionsAreAdded` | engine/engine/auction/lots.py:29-39 | filling a round leaves its lots as they are and adds one pending lot for each listed question that had none |
| `RunningOrder.ReorderFollowsTheRequest` | engine/engine/auction/lot_queue.py:101-129 | the pending lots take the requested order in the slots they held between them; offered lots keep their place |
| `RunningOrder.TickIsARun` | engine/engine/auction/lots.py:171-183 | a scheduler tick is a run of at most two ordinary steps, so what holds of runs holds of ticks |
| `AuctionFloor.NewestIsTop` | engine/engine/auction/control.py:145-153 | the newest bid row of a lot is the top of its stack, and the next newest is what lies below |
| `AuctionFloor.ViewAfterDelete` | engine/engine/auction/control.py:140-173 | deleting a lot's newest bid row and rewriting its lot row pops that lot's stack and touches no other lot |
| `AuctionFloor.FloorTables.PlaceBid` | engine/engine/auction/bidding.py:28-42 | refuses, or records the bid; in either case what the specification of a bid says |
| `AuctionFloor.FloorTables.CheckBid` | engine/engine/auction/bidding.py:45-70 | every refusal in the order the engine checks them |
| `AuctionFloor.FloorTables.RecordBid` | engine/engine/auction/bidding.py:73-90 | appends the bid row, makes it the current bid and restarts the countdown |
| `AuctionFloor.FloorTables.RetractTopBid` | engine/engine/auction/control.py:140-173 | deletes the newest bid row of the open lot and restores the one below, or the base |
| `AuctionFloor.FloorTables.Pause` | engine/engine/auction/control.py:34-49 | stamps the pause, or refuses a second one |
| `AuctionFloor.FloorTables.Resume` | engine/engine/auction/control.py:52-79 | moves the open lot's deadlines by exactly the time spent paused |
| `AuctionFloor.FloorTables.SetLotTimer` | engine/engine/auction/control.py:82-137 | switches off, restarts or adjusts the live deadline, never to the past |
| `AuctionFloor.FloorTables.OpenNextLot` | engine/engine/auction/lots.py:42-91 | opens the first pending lot with a full window, only when none is open and nothing is paused |
| `AuctionFloor.FloorTables.Settle` | engine/engine/auction/lots.py:141-150 | sells the open lot to its top bidder, or marks it unsold when nobody bid |
| `AuctionFloor.FloorTables.CloseLot` | engine/engine/auction/lots.py:94-117 | settles an open lot at the organiser's word |
| `AuctionFloor.FloorTables.SettleIfDue` | engine/engine/auction/lots.py:120-138 | settles under the lock only if the deadline has passed as it now stands |
| `AuctionFloor.FloorTables.Tick` | engine/engine/auction/lots.py:171-183 | opens when nothing is open, settles what is due and moves on |
| `AuctionFloor.FloorTables.WithdrawLot` | engine/engine/auction/lot_queue.py:19-61 | takes a lot off the floor before it is settled |
| `AuctionFloor.FloorTables.RestoreLot` | engine/engine/auction/lot_queue.py:64-92 | puts it at the end of the queue with no current bid; its bid rows stay |
| `AuctionFloor.FloorTables.RelistQuestion` | engine/engine/auction/lot_queue.py:132-150 | re-offers a question at the end of the queue, keeping its bid rows |
| `AuctionFloor.FloorTables.TakeBackAndRelist` | engine/engine/auction/takeback.py:19-79 | takes a question back and re-offers it in one transaction |
| `AuctionFloor.FloorTables.CreateLotsForRound` | engine/engine/auction/lots.py:29-39 | adds a pending lot for each question the round lacks, none twice |
| `AuctionFloor.FloorTables.ReorderLots` | engine/engine/auction/lot_queue.py:101-129 | refuses a list that is not the pending lots, else gives them the requested order |
| `Blackouts.NeverOverlap` | engine/engine/marketplace/using.py:195-217 | two blackouts of one target never cover the same instant |
| `Blackouts.CoveredToTheEnd` | engine/engine/marketplace/using.py:195-217 | from now to the latest end there is no gap |
| `Blackouts.GateRefusesExactlyTheCovered` | engine/engine/marketplace/blackouts.py:19-54 | a gate that looks at ends alone refuses exactly the covered instants |
| `Blackouts.StackedEndToEnd` | engine/engine/marketplace/using.py:195-217 | an appended blackout keeps them end to end |
| `Blackouts.VolleyAddsUp` | engine/engine/marketplace/using.py:195-217 | simultaneous attacks extend the end by exactly the sum of their seconds, in any order |
| `MarketEffects.AttackGoesThroughIff` | engine/engine/marketplace/using.py:40-160 | an attack goes through if and only if every condition on phase, powerup, attacker, target, breaks, shields and request holds |
| `MarketEffects.AttackRefusalIsTrue` | engine/engine/marketplace/using.py:40-160 | each refusal of an attack is true of the rows |
| `MarketEffects.AttackDoes` | engine/engine/marketplace/using.py:66-217 | an attack that goes through takes one powerup and no money and leaves one event; unshielded, the target has one more blackout, by the attacker, from when they would have been free, for exactly the powerup's seconds; shielded, no blackout changes; nobody else changes |
| `MarketEffects.BlackedOutIsShut` | engine/engine/marketplace/blackouts.py:22-30 | after such a blackout the gate is shut at once and to its very end |
| `MarketEffects.AbsorbedAttackSpends` | engine/engine/marketplace/shields.py:100-115 | an absorbed attack spends the newest shield up, put up first if none was, and the lowest startable one goes up behind it |
| `MarketEffects.BlackoutsAreTheAttacks` | engine/engine/marketplace/using.py:195-217 | in every run the blackouts on a person are exactly the attacks that landed on them: by whom, for how long, in order |
| `MarketEffects.SecondsAddUp` | engine/engine/marketplace/using.py:195-217 | so their seconds add up to those of the attacks |
| `MarketEffects.PurchaseGoesThroughIff` | engine/engine/marketplace/buying.py:39-86 | a purchase goes through if and only if every condition on shop, buyer, powerup, price, limits and request holds, and each refusal is true of the rows |
| `MarketEffects.PurchaseDoes` | engine/engine/marketplace/buying.py:39-71 | a purchase takes exactly the price, with its ledger line, puts one more on the shelf and on the count, leaves one event, and puts a bought shield up at once if none is |
| `MarketEffects.TickPutsUpIff` | engine/engine/marketplace/shields.py:71-97 | with no shield up and one that can start, the lowest such goes up for as long as its kind lasts; otherwise nothing happens |
| `Shields.AtMostOneUp` | engine/engine/marketplace/shields.py:35-49 | at any instant at most one shield of a holder is up |
| `Shields.SettledKeepsOne` | engine/engine/marketplace/shields.py:71-97 | starting the next shield keeps that, also when decided from a stale read |
| `Shields.AbsorbedKeepsOne` | engine/engine/marketplace/shields.py:100-115 | absorbing keeps that, though a successor starts in the same instant |
| `Shields.AbsorbsIff` | engine/engine/marketplace/shields.py:100-115 | an attack is absorbed exactly when a shield is up or one that can start is waiting |
| `Shields.AbsorbSpendsOne` | engine/engine/marketplace/shields.py:71-115 | absorbing costs exactly one shield of the stock, and happens exactly while stock is left |
| `Breaks.NoMissingEnd` | engine/engine/marketplace/breaks.py:65-103 | an attackable target's last break has an end, so the engine never compares with a missing one |
| `Breaks.TimedAttack` | engine/engine/marketplace/breaks.py:65-103 | an attack whose transaction began before it read the clock starts the next break exactly when the attacks dated since the last break ended, itself included, reach the cap |
| `Breaks.ForeverAttack` | engine/engine/marketplace/breaks.py:65-103 | with endless breaks there is one, started by the cap-th counted attack |
| `Breaks.AttackKeepsBreaks` | engine/engine/marketplace/breaks.py:48-103 | every permitted attack, counted or not, and however long before its clock reading it began, keeps a target's breaks to that pattern and no attack inside one |
| `Breaks.AttacksBetweenBreaks` | engine/engine/marketplace/breaks.py:65-103 | from one break's end to the next one's start there are exactly the cap's worth of counted attacks plus those dated before that end, the one that starts the next break aside; breaks never overlap |
| `Breaks.AttacksBeforeFirstBreak` | engine/engine/marketplace/breaks.py:65-103 | up to the start of the first break there are exactly the cap's worth |
| `Breaks.CapKeptIff` | engine/engine/marketplace/breaks.py:65-103 | the cap holds between every break and the next if and only if no attack, save one that itself starts the next break, began before a break's end and read the clock after it |
| `Breaks.LateAttackGoesUncounted` | engine/engine/marketplace/breaks.py:79-88 | a cap of two lets three attacks fall between two breaks when one of them began inside the first: a concrete run |
| `Breaks.LateStarterStillCounts` | engine/engine/marketplace/breaks.py:86-103 | an attack that began inside a break and starts the next one counts itself, so it does no harm: a concrete run |
| `Breaks.BreaksDouble` | engine/engine/marketplace/breaks.py:65-103 | breaks are numbered from one and each is twice as long as the last |
| `Breaks.PlainArithmetic` | engine/engine/marketplace/breaks.py:91 | in closed form: the base length times a power of two |
| `AttackRuns.EveryRunKeepsTheRules` | engine/engine/marketplace/using.py:66-217 | in every run of purchases, attacks and ticks, whenever each transaction began: blackouts end to end, one shield up, breaks by the attacks dated since the last one, nothing bought lost, spending equal to the purchase events, each request acting at most once |
| `AttackRuns.CapHoldsIffNoneStraddled` | engine/engine/marketplace/breaks.py:65-103 | in every run with timed breaks, everybody takes exactly the cap's worth of attacks between one break and the next if and only if no attack on them straddled a break's end |
| `AttackRuns.FreshMarketIsOk` | engine/engine/marketplace/inventory.py:18-53 | a market where nothing has happened starts such a run |
| `Requests.RequestsActOnce` | engine/engine/marketplace/buying.py:26-71 | a request that acted once never acts again and its copy changes nothing |
| `Requests.ReplayAnsweredIff` | engine/engine/marketplace/buying.py:26-36 | a copied purchase is answered from the first exactly when it would pass every check again |
| `Requests.AttackReplayAnsweredIff` | engine/engine/marketplace/using.py:66-103 | a copied attack is answered from the first exactly when it would get through every check again, the target's included |
| `Requests.RetryAfterLastUseIsRefused` | engine/engine/marketplace/using.py:66-103 | so a retry after using the last powerup is told there is none |
| `Requests.RetryAfterSpendingAllIsRefused` | engine/engine/marketplace/buying.py:74-87 | so a retry after spending the last coin is told the buyer is too poor |
| `Requests.PurchaseRetriedIff` | engine/engine/marketplace/buying.py:26-87 | a purchase retried once it has gone through is answered from the first if and only if the shop is open and the buyer could pay as much again, hold one more and buy one more; either way nothing changes |
| `Requests.AttackRetriedIff` | engine/engine/marketplace/using.py:66-162 | an attack retried once it has gone through is answered from the first if and only if powerups may be used, another is left, the target is on no break, and a shield would take it or it has a duration; either way nothing changes |
| `Requests.KShieldsAbsorbTheNextK` | engine/engine/marketplace/shields.py:71-161 | a holder of k until-absorbed shields who buys no more absorbs exactly the next k attacks, whatever happens in between |
| `Arena.ArenaTables.NextQueued` | engine/engine/marketplace/shields.py:52-68 | the first held shield that can start |
| `Arena.ArenaTables.SettleShield` | engine/engine/marketplace/shields.py:71-97 | starts the next shield only when none is up |
| `Arena.ArenaTables.Absorb` | engine/engine/marketplace/shields.py:100-115 | uses up one shield and leaves none that could start unstarted |
| `Arena.ArenaTables.NoteAttack` | engine/engine/marketplace/breaks.py:65-103 | counts the attack and starts the break it completes |
| `Arena.ArenaTables.AppendBlackout` | engine/engine/marketplace/using.py:195-217 | starts where the target's stack ends |
| `Arena.ArenaTables.LandBlackout` | engine/engine/marketplace/using.py:128-157 | refused on a break, eaten by a shield, or landed and counted |
| `Arena.ArenaTables.Use` | engine/engine/marketplace/using.py:66-111 | one attack as a whole: every refusal leaves everything as it was |
| `Arena.ArenaTables.Buy` | engine/engine/marketplace/buying.py:39-71 | one purchase as a whole: money, shelf, shield and event all change or none does |
| `Arena.ArenaTables.TickHolder` | engine/engine/marketplace/shields.py:140-161 | the scheduler starts a waiting shield for a holder it picked from an unlocked read |
| `Feed.PruneTakesOldestIff` | engine/engine/core/events.py:92-94 | pruning by age takes the oldest ids, whatever the cutoff, if and only if ids are in the order their transactions began |
| `FeedRuns.PollAnswersWhatIsDue` | engine/engine/core/events.py:57-80 | a poll without a reset answers exactly the visible events after its cursor up to the newest its first read saw |
| `FeedRuns.DueIncreases` | engine/engine/core/events.py:75-79 | each once, in id order |
| `FeedRuns.StepKeepsInv` | engine/engine/core/events.py:40-94 | every step of publishers, pruning and pages keeps the delivery invariant |
| `FeedRuns.EveryStateIsOk` | engine/engine/core/events.py:40-80 | and so does every run |
| `FeedRuns.EveryChangeReachesThePage` | engine/engine/state.py:34-53 | in every interleaving: what a page may see, up to its cursor, is in the state it read or among the events it got, each once and in order; it knows of everything published exactly when what is past its cursor was in the state it read |
| `FeedRuns.PollCatchesUp` | engine/engine/core/events.py:57-80 | a poll takes its page past every row still in the table when it began; `FeedFreshness` has what was pruned by then |
| `FeedRuns.RowsAreDueIff` | engine/engine/core/events.py:75-79 | a read returns everything due if and only if nothing it should return has been pruned |
| `FeedRuns.ServedIff` | engine/engine/core/events.py:57-80 | whatever was pruned and whenever: a poll resets its page or sends it everything due up to its new cursor, if and only if it resets or nothing the viewer may see in that stretch is gone by its second read |
| `FeedRuns.PruneBetweenReadsIff` | engine/engine/core/events.py:57-94 | with a prune between its two reads: if and only if it resets or every event the viewer may see in that stretch is younger than the cutoff |
| `FeedRuns.PrunedByAgeIff` | engine/engine/core/events.py:57-94 | with a prune before both, publishers having overtaken each other in any way: if and only if it resets or every event the viewer may see in that stretch is younger than the cutoff |
| `FeedLosses.GotAllIffNeverShort` | engine/engine/core/events.py:40-94 | in every run at all, rows pruned at any moment and publishers overtaking each other: a page has every event due to it from where it last started afresh up to its cursor if and only if no answer it applied since came up short |
| `FeedLosses.ReceivedIff` | web/src/components/contest-provider.tsx:189-226 | applying an answer leaves a page with everything due if and only if the answer resets it, or is complete and the page had everything before |
| `FeedLosses.WholeAnswersReachThePage` | engine/engine/state.py:34-53 | and then what it may see, up to its cursor, is in the state it read or among the events it got |
| `FeedLosses.NothingOldIsSent` | engine/engine/state.py:34-53 | in every run a page never gets an event that was in the table when it loaded its cursor |
| `FeedLosses.StartsAtTheNewest` | engine/engine/core/events.py:51-54 | a page starts with nothing applied and no failures, at the id of a row in the table, or at zero |
| `FeedLosses.NobodyElsesMail` | engine/engine/core/events.py:71-79 | in every run no page is sent an event addressed to somebody else |
| `FeedLosses.PublishedAsAsked` | engine/engine/core/events.py:39-48 | a publisher that commits adds what it was asked to, to whom it was asked to, under an id above every other |
| `FeedLosses.PruneTakesTheOld` | engine/engine/core/events.py:92-94 | pruning takes exactly the rows whose transactions began before the cutoff |
| `FeedFreshness.PollPassesEverythingIff` | engine/engine/core/events.py:60-80 | a poll resets its page or takes it past everything published before it began, pruned or not, if and only if its first read finds a row or nothing the viewer may see was published past the cursor |
| `FeedFreshness.AppliedPollIsUpToDateIff` | web/src/components/contest-provider.tsx:175-226 | in every polite run: once a poll is applied its page knows of everything it may see that was published before the poll began, if and only if its first read found a row, a poll had failed before it, or what was past the cursor was in the state the page had read |
| `FeedFreshness.AppliedPollIff` | web/src/components/contest-provider.tsx:175-226 | in every run at all, for a page missing nothing up to its cursor: if and only if the poll resets, follows a failed one, or what is past both the cursor and the newest row found was in the state the page had read |
| `FeedFreshness.SilentUntilPublished` | engine/engine/core/events.py:66-70 | once every row is pruned, until something is published or a poll fails, polls change nothing on a page, however far behind it is |
| `FeedFreshness.StalePageIsReached` | engine/engine/core/events.py:66-70 | a polite run leaves a page without an event everybody may see, answered with no event, the old cursor and no reset: a concrete run |
| `FeedFreshness.OldNewsDoesNoHarm` | engine/engine/state.py:34-53 | a change published between a page's two reads on loading and then pruned is in the state it read: a concrete run |
| `FeedRuns.PruneBetweenReadsLosesAnEvent` | engine/engine/core/events.py:57-94 | so a visible event older than the cutoff is skipped without a reset: a concrete table |
| `FeedRuns.OvertakenPublisherLosesAnEvent` | engine/engine/core/events.py:57-94 | a publisher overtaken at the lock has the higher id and the earlier age, and its event is skipped without a reset: a concrete table |
| `EventTable.TableReadsAsHistory` | engine/engine/core/events.py:57-80 | the table answers every read as the whole history would with the pruned rows left out |
| `EventTable.Events.Publish` | engine/engine/core/events.py:40-48 | one row under the ordering lock, or an id used up and nothing published |
| `EventTable.Events.NewestId` | engine/engine/core/events.py:51-54 | the id no row in the table exceeds and some row carries; zero exactly for an empty table |
| `EventTable.Events.FirstRead` | engine/engine/core/events.py:60-64 | the oldest and newest ids retained |
| `EventTable.Events.SecondRead` | engine/engine/core/events.py:65-80 | the rows up to that newest id, and whether some were pruned |
| `EventTable.Events.Prune` | engine/engine/core/events.py:92-94 | drops exactly the rows older than the cutoff |
| `EventTable.PollingClient.Tick` | web/src/components/contest-provider.tsx:189-226 | a hidden page does nothing; a failed poll or re-read leaves cursor and events alone and counts a failure; otherwise the events are applied and the cursor moves |
| `JudgingRuns.StepKeepsInv` | engine/engine/coding/judging.py:31-240 | every step of senders, pollers, late results, cancels and rejudges keeps the judging invariant |
| `JudgingRuns.OneCurrentJudgement` | engine/engine/coding/rejudge.py:53-77 | in every run each submission has exactly one judgement not superseded, the last made and the highest attempt n, with each of 1 to n made exactly once |
| `JudgingRuns.DoneIsFinal` | engine/engine/coding/judging.py:196-240 | once done, a judgement never changes, whatever arrives later |
| `JudgingRuns.VerdictsComeFromTheRowsOwnJob` | engine/engine/coding/judging.py:139-240 | every verdict on record was written by a refusal, a cancel, or a result of the very job the row was waiting on, a job sent for that row and no other |
| `JudgeRefusals.RefusalOverridesIff` | engine/engine/coding/judging.py:87-112 | in every run: writing a refusal finishes a row that waits on a live job if and only if the row is still in flight and somebody has sent it since the judge refused it |
| `JudgeRefusals.JobIffSentSince` | engine/engine/coding/judging.py:61-112 | an unfinished row has a job exactly when it was sent since the judge last refused it and the job was not lost |
| `JudgeRefusals.OverriddenForGood` | engine/engine/coding/judging.py:196-240 | the live job's own verdict is never recorded then |
| `JudgeRefusals.RefusalOverridesLiveJob` | engine/engine/coding/judging.py:87-112 | refused, claimed again, accepted, and only then is the refusal written: a concrete run |
| `JudgingRuns.CooldownCoversEveryEnd` | engine/engine/coding/submissions.py:109-124 | a submission is taken only with nothing in flight and three seconds after every end its author ever had |
| `JudgingRuns.OneAtATimeUntilRejudged` | engine/engine/coding/submissions.py:29-57 | until something is rejudged nobody ever has two judgements in flight |
| `JudgingRuns.RejudgeKeepsOrder` | engine/engine/coding/rejudge.py:53-77 | superseding the current judgement and adding the next keeps attempts in order |
| `JudgingEffects.RecordLandsIff` | engine/engine/coding/judging.py:196-240 | a verdict a poll brings is put on record, with its moment and the cooldown, if and only if the row is not done, is current and has that very job, queued or running alike; otherwise nothing changes |
| `JudgingEffects.RefusalLandsIff` | engine/engine/coding/judging.py:196-240 | a refusal is put on record as an internal error if and only if the row is not done and is current |
| `JudgingEffects.BroughtVerdictStays` | engine/engine/coding/judging.py:139-155 | in every run such a verdict is on record from then on |
| `JudgingEffects.SubmitTakenIff` | engine/engine/coding/submissions.py:29-57 | a submission is taken if and only if its author has nothing in flight and three seconds have passed since the last end; it adds one first judgement, waiting to be sent |
| `JudgingEffects.LoseSendsBackIff` | engine/engine/coding/judging.py:157-167 | a row waits to be sent again if and only if it was queued or running on the lost job |
| `JudgingEffects.ReportMovesIff` | engine/engine/coding/judging.py:170-193 | a progress report tells queued from running, for a row on that job, and nothing else |
| `JudgingEffects.CancelReadsInFlight` | engine/engine/coding/submissions.py:127-133 | a cancel reads exactly what its participant has in flight |
| `JudgingEffects.CancelMarks` | engine/engine/coding/submissions.py:134-146 | each is then done, an internal error, cancelled, at the moment of the read |
| `JudgingEffects.CancelEndStartsCooldown` | engine/engine/coding/submissions.py:147-152 | the cooldown runs from the read if there was anything to cancel, and is left alone otherwise |
| `JudgingEffects.RejudgeAddsNext` | engine/engine/coding/rejudge.py:53-77 | the current judgement is retired as it stands and the next attempt added, waiting to be sent |
| `JudgementTable.Tables.Submit` | engine/engine/coding/submissions.py:29-57 | stores the submission with its first judgement, or refuses |
| `JudgementTable.Tables.ClaimPending` | engine/engine/coding/judging.py:38-58 | the oldest pending current judgement that no other sender holds |
| `JudgementTable.Tables.RecordSent` | engine/engine/coding/judging.py:78-83 | a claimed row, once sent, waits for that job and no other, can be claimed no more, and no other row changed |
| `JudgementTable.Tables.SendOne` | engine/engine/coding/judging.py:61-112 | sends the lowest row that is due and unheld: given a job it waits on it; refused, it is an internal error and the cooldown starts; unanswered, nothing changes |
| `JudgementTable.Tables.WriteResult` | engine/engine/coding/judging.py:196-240 | writes a verdict only while the row still waits for it, and starts the cooldown |
| `JudgementTable.Tables.Resubmit` | engine/engine/coding/judging.py:157-167 | a lost job's row goes back to pending, if it still waits on that job |
| `JudgementTable.Tables.WriteProgress` | engine/engine/coding/judging.py:170-193 | notes progress only while the row waits on that job |
| `JudgementTable.Tables.CancelInFlight` | engine/engine/coding/submissions.py:127-157 | marks every judgement in flight cancelled and no other, and starts the cooldown |
| `JudgementTable.Tables.SupersedeCurrent` | engine/engine/coding/rejudge.py:53-77 | replaces the current judgement by a fresh pending one |
| `JudgementTable.Tables.RejudgeQuestion` | engine/engine/coding/rejudge.py:19-50 | does so for every submission of the question and touches no other row |
| `JudgementTable.CancelIsARun` | engine/engine/coding/submissions.py:127-150 | a whole cancel is a run of the read, mark and release steps every other transaction can see |
| `HackRuns.StepKeepsInv` | engine/engine/phase1/hack_jobs.py:33-204 | every step of submits, senders, pollers and two-part settles keeps the hacking invariant |
| `HackRuns.ScoreIsWhatWasEarned` | engine/engine/phase1/hack_jobs.py:188-204 | a participant's attempts on a question add up to its hack points once if any succeeded, less its penalty for each that failed, however many pollers settle |
| `HackRuns.SettlingScores` | engine/engine/phase1/hack_jobs.py:149-204 | settling one attempt pays exactly what it adds to what was earned |
| `HackRuns.OneUnfinishedAttempt` | engine/engine/phase1/hacking.py:127-144 | nobody has two unfinished attempts, and the one they may have is their newest |
| `HackRuns.SettledIsFinal` | engine/engine/phase1/hack_jobs.py:149-170 | once settled, no later step of anybody alters the attempt |
| `HackEffects.OutcomesComeFromTheJudge` | engine/engine/phase1/hack_jobs.py:84-204 | in every run an attempt is done only by a refused send, with no outcome and no points, or by one settle, with the outcome of the result for the job it waited on and the points that result asks for, given whether its author had hacked the question before |
| `HackEffects.SettleWrites` | engine/engine/phase1/hack_jobs.py:149-204 | a settle stores the outcome the judge found: hack points for a first success, minus the penalty for a failure, nothing for an input that was not valid or not run |
| `HackEffects.SubmitTakenIff` | engine/engine/phase1/hacking.py:87-144 | an attempt is taken if and only if its author's last one, if any, is done and ended three seconds ago or more |
| `HackEffects.LoseSendsBackIff` | engine/engine/phase1/hack_jobs.py:118-146 | a lost job's attempt waits to be sent again if and only if it was queued or running on that job |
| `HackRuns.OrphanIsNeverSettled` | engine/engine/phase1/hack_jobs.py:52-55 | whoever sends and polls: an attempt whose copy was removed before it was sent is never settled, and its owner never gets another |
| `HackRuns.OrphanIsReached` | engine/engine/phase1/hack_jobs.py:52-55 | two steps from the start lead to such an attempt |
| `HackTicks.SendingCrashesIff` | engine/engine/phase1/hack_jobs.py:22-34 | with no other sender at work, a tick crashes if and only if its sending gets as far as an attempt that has lost its copy, each before it being answered |
| `HackTicks.NothingMovesBehindAnOrphan` | engine/engine/phase1/hack_jobs.py:22-55 | once the oldest attempt waiting has lost its copy: over any submissions, removals and ticks, however many send at once, no attempt of anybody is sent, polled or settled as long as no send comes while another sender holds that very row |
| `HackTicks.HeldOrphanIsPassedOver` | engine/engine/phase1/hack_jobs.py:46-49 | a send that does come then passes over the row and sends the next: a concrete table |
| `HackTicks.StuckIsReached` | engine/engine/phase1/hack_jobs.py:46-55 | an unanswered send and a removed copy lead there: a concrete run |
| `HackTable.Tables.Submit` | engine/engine/phase1/hacking.py:87-144 | stores an attempt, or refuses while one is in flight or cooling down |
| `HackTable.Tables.SendOne` | engine/engine/phase1/hack_jobs.py:33-101 | sends the oldest waiting attempt; with its copy gone the call crashes and nothing changes |
| `HackTable.Tables.Resend` | engine/engine/phase1/hack_jobs.py:118-146 | afterwards the attempt is not on that job, and waits to be sent if it was; a repeat, or word of another job, changes nothing; no other attempt changes |
| `HackTable.Tables.Tick` | engine/engine/phase1/hack_jobs.py:22-34 | sends a batch, then polls; a crash while sending, which comes exactly when an attempt without its copy is reached, ends it before anything is polled |
| `HackTable.Tables.Poll` | engine/engine/phase1/hack_jobs.py:104-134 | asks after every attempt with the judge and lets each report act on it |
| `HackTable.Tables.Settle` | engine/engine/phase1/hack_jobs.py:149-204 | scores a finished attempt once, keeping the total equal to what was earned |
| `ValidationRuns.AnswersAreFinal` | engine/engine/phase1/puzzles.py:81-147 | no answer is added or changed after the step that closed Section A, however late a save began |
| `ValidationRuns.ScoresAreEarned` | engine/engine/phase1/validator_jobs.py:25-141 | a recorded score is what the question pays for each distinct entry of the final answer its validator accepted, never more than for all it takes; a validator that failed leaves no score |
| `ValidationRuns.StepKeepsInv` | engine/engine/phase1/validator_jobs.py:25-141 | every step of saves, phase changes, senders and pollers keeps the scoring invariant |
| `ValidationRuns.AdvanceMovesOnce` | engine/engine/contest/phases.py:110-136 | of any presses of Advance made on one phase only one moves the contest, and to the next phase |
| `AnswerEffects.SaveBeginsIff` | engine/engine/phase1/puzzles.py:131-147 | a save may begin exactly while the section is open, before its deadline, by somebody allowed to, for a published question |
| `AnswerEffects.SaveDoes` | engine/engine/phase1/puzzles.py:81-128 | a save writes the answer given, scored at once if the question scores itself and not at all otherwise, and no other row |
| `AnswerEffects.SelfScoresAreRight` | engine/engine/phase1/puzzles.py:81-128 | in every run an answer that scores itself has the question's score for the answer as it now stands |
| `AnswerEffects.AdvanceDoes` | engine/engine/contest/phases.py:110-151 | a press that finds the contest in its phase moves it to the one after; leaving Section A every answer a validator has yet to score is pending, and no other changes |
| `AnswerEffects.ExtendDoes` | engine/engine/contest/phases.py:169-189 | more time runs from the deadline, or from now once that is past |
| `AnswerEffects.SendingDoes` | engine/engine/phase1/validator_jobs.py:50-86 | an answer goes to the judge with its entries if and only if there are any and a validator to check them; otherwise it is scored at nothing |
| `AnswerEffects.CollectDoes` | engine/engine/phase1/validator_jobs.py:109-141 | a result is taken if and only if the answer is queued on that job; it pays the rate for each entry that passed, or is marked failed |
| `AnswerEffects.LoseSendsBackIff` | engine/engine/phase1/validator_jobs.py:89-106 | a lost job's answer is pending again if and only if it was queued on that job |
| `AnswerTable.Tables.SaveAnswer` | engine/engine/phase1/puzzles.py:81-146 | saves only while the section is open, for somebody allowed to, and scores auto-graded kinds at once |
| `AnswerTable.Tables.Advance` | engine/engine/contest/phases.py:110-151 | moves one phase on unless the phase has moved, queueing the scoring when Section A closes |
| `AnswerTable.Tables.QueueValidatorScoring` | engine/engine/phase1/validator_jobs.py:25-40 | marks every validator-graded answer not yet scored, and no other |
| `AnswerTable.Tables.SendOne` | engine/engine/phase1/validator_jobs.py:50-86 | scores zero when there is nothing to check, else sends the distinct entries |
| `AnswerTable.Tables.Collect` | engine/engine/phase1/validator_jobs.py:109-141 | records a score or a failure only while the answer waits on that job |
| `AnswerTable.Tables.Resend` | engine/engine/phase1/validator_jobs.py:112-114 | a lost job's answer is pending again |
| `Answers.KeptIsExactlyTheEntries` | engine/engine/phase1/answers.py:166-180 | each kept entry is the first spelling of what it says, no two say the same, and every entry that says anything is represented |
| `Answers.SameEntryIff` | engine/engine/phase1/answers.py:102-104 | when case matters two entries are the same exactly when they hold the same words |
| `Answers.NormIsItsWords` | engine/engine/phase1/answers.py:95-104 | an entry is known by its words joined by single spaces, in lower case unless case matters |
| `Answers.DistinctEntries` | engine/engine/phase1/answers.py:166-180 | the loop over an insertion-ordered dictionary gives those entries, cut at the limit |
| `Text.CollapsedAlikeIff` | engine/engine/phase1/answers.py:102-104 | two texts collapse alike exactly when they hold the same words |
| `Phase1Board.AnswerPoints` | engine/engine/phase1/standings.py:61-76 | each participant's answer points, and whether any is provisional |
| `Phase1Board.NumberRows` | engine/engine/phase1/standings.py:56-57 | ranks 1 to n, in place |
| `Phase1Board.Standings` | engine/engine/phase1/standings.py:27-58 | the whole board: the ranked, then the disqualified |
| `Phase1Board.RanksFollowTheRule` | engine/engine/phase1/standings.py:27-58 | ranks are 1 to n, and nobody is ranked below somebody they beat on points or on the finish |
| `Phase1Board.KeyMeans` | engine/engine/phase1/standings.py:48-55 | the sort key puts more points first, then the earlier finish, never pressed last |
| `Phase1Board.OrderShowsOnlyInTies` | engine/engine/phase1/standings.py:48-57 | the ranking is the same whatever order rows are read in if and only if no two tie on points, finish and name |
| `Phase2Board.BetterMeans` | engine/engine/coding/scoring.py:39-46 | better is a higher score, then less time, then a better Phase 1 rank |
| `Phase2Board.LineIsOrderFree` | engine/engine/coding/scoring.py:51-102 | nobody's line depends on the order their acceptances were read in |
| `Phase2Board.AssignRanks` | engine/engine/coding/scoring.py:105-113 | the loop over neighbours gives each row one more than the number of rows strictly better |
| `Phase2Board.RanksAreOneToNIff` | engine/engine/coding/scoring.py:105-113 | the ranks are exactly 1 to n if and only if no two lines are equal in everything that breaks ties |
| `BothBoards.Phase2RanksAreOneToNIff` | engine/engine/coding/scoring.py:25-48 | with the Phase 1 board read after the people: ranks are exactly 1 to n if and only if no two people of the board, disqualified by then, are level on score and time |
| `BothBoards.DisqualifiedRankIsZero` | engine/engine/phase1/standings.py:41-58 | somebody disqualified by the time the Phase 1 board is read has rank 0 on it |
| `BothBoards.RankedNamesEachOnce` | engine/engine/phase1/standings.py:48-57 | sorting and numbering lose nobody and repeat nobody |
| `BoardLines.FirstLineStarts` | engine/engine/phase1/standings.py:101-118 | with no answers a Phase 1 line has the points of the hacks, is final, and finished at the later press |
| `BoardLines.FirstLineGains` | engine/engine/phase1/standings.py:61-86 | one more answer adds the points of all its parts, and makes the line provisional if some part is not final |
| `BoardLines.NamesSettleFirst` | engine/engine/phase1/standings.py:48-57 | people level on points and finish are ranked by name, in dictionary order |
| `BoardLines.DisqualifiedComeLast` | engine/engine/phase1/standings.py:48-58 | somebody disqualified has no rank and stands below everybody who has one |
| `BoardLines.SecondLineGains` | engine/engine/coding/scoring.py:51-102 | a first acceptance adds what the question is worth, one to the count, and the time from its award to the acceptance; a further one adds nothing and takes off what it is quicker by |
| `BoardLines.OthersSolveNothing` | engine/engine/coding/scoring.py:51-102 | somebody else's acceptance changes nothing of a line |
| `BoardLines.NamesSettleSecond` | engine/engine/coding/scoring.py:39-46 | lines level in everything that ranks them stand in the order of their names |
| `ReadOrder.BoardIsOrderFreeIff` | engine/engine/coding/scoring.py:25-48 | with the Phase 1 ranks of the same read, the whole board is the same for every read order of people, answers and acceptances if and only if no two people not disqualified tie on Phase 1 points, finish and name |
| `ReadOrder.ShownIsOrderFreeIff` | engine/engine/coding/scoring.py:25-48 | the same board with its Phase 1 column covered (places, scores, times and ranks) is so if and only if no two of them tie on those and on Phase 2 score and time as well |
| `ReadOrder.LevelGoesByRank` | engine/engine/coding/scoring.py:39-46 | people level on score and time stand in the order of their Phase 1 ranks |
| `ReadOrder.FirstReadFirstRanked` | engine/engine/phase1/standings.py:48-57 | of two people level on points, finish and name, the one read first is ranked ahead |
| `ReadOrder.FirstLineIsOrderFree` | engine/engine/phase1/standings.py:61-76 | nobody's Phase 1 line depends on the order the answers were read in |
| `ReadOrder.TwinsSwapPlaces` | engine/engine/coding/scoring.py:25-48 | two idle participants of one name swap places on the Phase 2 board when they are read the other way round: a concrete read |
| `Phase2Fold.EarliestSolves` | engine/engine/coding/scoring.py:81-86 | the dictionary holds the earliest solve of every (participant, question) |
| `Phase2Fold.FirstSolves` | engine/engine/coding/scoring.py:51-90 | each participant's list holds one solve for each question they solved, at its earliest time |
| `Phase2Fold.LineAgrees` | engine/engine/coding/scoring.py:93-102 | summing such a list gives the line the rules ask for |
| `Phase2Fold.Standings` | engine/engine/coding/scoring.py:25-48 | the whole board, as the rules ask for it |
| `Sorting.SortAlikeIff` | engine/engine/coding/scoring.py:39-46 | a stable sort tells two lists apart exactly when, key by key, they hold different elements or another order |
| `CheckerReader.Reader.constructor` | judge/app/sandbox/runtime/checker_runtime.py:63-66 | everything is still to read |
| `CheckerReader.Reader.Word` | judge/app/sandbox/runtime/checker_runtime.py:70-79 | the next token; an error exactly when none is left |
| `CheckerReader.Reader.Int` | judge/app/sandbox/runtime/checker_runtime.py:81-88 | the next token as a number in range; an error exactly when it is missing or will not do |
| `CheckerReader.Reader.Ints` | judge/app/sandbox/runtime/checker_runtime.py:101-102 | the next count tokens as numbers; an error exactly when one is missing or will not do |
| `CheckerReader.Reader.Line` | judge/app/sandbox/runtime/checker_runtime.py:109-118 | the rest of the line without its newline; the tokens on it are the next ones |
| `CheckerReader.Reader.Rest` | judge/app/sandbox/runtime/checker_runtime.py:120-124 | everything not yet read |
| `CheckerReader.Reader.Eof` | judge/app/sandbox/runtime/checker_runtime.py:126-133 | accepts exactly when no token is left |
| `CheckerReader.Reader.AtEof` | judge/app/sandbox/runtime/checker_runtime.py:135-137 | true exactly when no token is left |
| `CheckerReader.ReadAll` | judge/app/sandbox/runtime/checker_runtime.py:70-137 | reading words until the end gives the tokens of the text, all, once, in order |
| `Text.SplitJoins` | judge/app/sandbox/runtime/checker_runtime.py:70-79 | tokens of two texts laid end to end are the tokens of each, when none runs across |
| `Text.SplitStripped` | judge/app/sandbox/runtime/checker_runtime.py:126-137 | stripping takes whitespace and no token |
| `Comparisons.ExactImpliesTokens` | judge/app/core/comparison.py:53-67 | what exact accepts, tokens accepts |
| `Comparisons.TokensImpliesTokenwise` | judge/app/core/comparison.py:70-112 | what tokens accepts, float and yes/no accept, whatever the tolerance |
| `Comparisons.TokenwiseAcceptsIff` | judge/app/core/comparison.py:76-84 | a token-by-token mode accepts exactly when there are as many tokens and each matches its own |
| `Comparisons.MoreToleranceIsKinder` | judge/app/core/comparison.py:87-105 | more tolerance never turns an acceptance into a rejection |
| `Comparisons.ModesAreOrdered` | judge/app/core/comparison.py:116-124 | whatever mode a problem names accepts all that exact accepts and, exact aside, all that tokens accepts; an unknown name is tokens |
| `Comparisons.TokenRejectionIsTruthful` | judge/app/core/comparison.py:149-158 | a token rejection names the real first difference or the output that ran short, never only that they differ |
| `Comparisons.ExactRejectionIsTruthful` | judge/app/core/comparison.py:61-67 | an exact rejection says only that the outputs differ exactly when it is whitespace that differs |
| `Comparisons.TokenwiseRejectionIsTruthful` | judge/app/core/comparison.py:76-84 | a token-by-token rejection names the first pair that does not match, in full |
| `Comparisons.ShownAlikeIff` | judge/app/core/comparison.py:149-153 | two different tokens are shown alike exactly when both reach the cut and agree up to it |
| `Comparisons.YesAndNoAreApart` | judge/app/core/comparison.py:108-136 | every spelling of yes is one answer, every spelling of no another |
| `JudgeRules.ExactAcceptsIff` | judge/app/core/comparison.py:61-74 | exact accepts if and only if the two are equal but for whitespace at the very end |
| `JudgeRules.FloatMatchesIff` | judge/app/core/comparison.py:87-105 | two tokens match if and only if they are the same text, or numbers apart by no more than the tolerance, absolute or times the size of the expected one |
| `JudgeRules.YesNoMatchesIff` | judge/app/core/comparison.py:108-112 | two tokens match if and only if both say yes, both say no, or both are the same once lower-cased |
| `JudgeRules.ModesMean` | judge/app/core/comparison.py:116-124 | which of these each mode asks for; an unknown name asks for the same tokens |
| `Tallying.FoldedIsSummary` | judge/app/judging/judge.py:203-216 | folding outcomes in one at a time gives the judgement of them all |
| `Tallying.Tally.Add` | judge/app/judging/judge.py:203-216 | folds one outcome in and says whether it is the first failure |
| `Tallying.Tally.CompileError` | judge/app/judging/judge.py:199-201 | a submission that does not compile has passed nothing and failed no test |
| `Tallying.RunTestcases` | judge/app/judging/judge.py:128-143 | the loop, stopping early or not, gives the judgement specified; no result exactly when the job was cancelled before a test it needed |
| `Tallying.EarlyExitAgrees` | judge/app/judging/judge.py:128-143 | stopping at the first failure changes neither verdict, message, jury detail nor first failure |
| `Tallying.EarlyExitPassedIsFirstFail` | judge/app/judging/judge.py:128-143 | stopped early, the tests passed are as many as the number of the first that failed |
| `Tallying.AcceptedIff` | judge/app/judging/judge.py:128-143 | accepted exactly when there are testcases and all pass; with none it is an internal error |
| `Tallying.MaximaAreReached` | judge/app/judging/judge.py:203-206 | the time and memory reported are those of the worst run |
| `JudgeRules.FailureIsReported` | judge/app/judging/judge.py:128-185 | a judgement reports the verdict, detail and number of the first test that failed, and counts the tests that passed among those run |
| `JudgeRules.SuccessIsReported` | judge/app/judging/judge.py:128-145 | when no test that was run failed, the submission is accepted with every test counted, unless there are no tests, and then the problem is at fault |
| `JudgeRules.WorstIsReported` | judge/app/judging/judge.py:203-206 | no test that was run took more time or memory than is reported |

## Left out

- SQL and Postgres: row locks, SKIP LOCKED, the partial unique indexes, the advisory lock and rollback are taken as given, as what may and may not come between two steps.
- Two clock readings inside one transaction: each transaction reads the clock once, after it has its locks. When it began is kept apart where a row's `created_at` is compared with a clock: attacks and the event feed.
- The ledger's `ref` column, audit rows, announcements, notifications and the payloads of events: written beside the modelled changes and never read by them.
- Offline sales, voids, transfers, manual grading, score overrides, disqualification, settings edits and contest reset: organiser overrides, or single-branch updates; settings are fixed within a run.
- Solvency.EveryRunIsSolvent: covers one online round in which every lot is offered once and money otherwise only comes in; `Solvency.SettlementRefusedIff` and `Solvency.SpendingBreaksSettlement` say what happens outside it.
- AttackRuns.EveryRunKeepsTheRules: shields, blackouts and breaks are kept per person in one map, so row locks taken in a fixed order on two people at once appear as one step.
- The blackout gate's exception once the contest has ended, and the marketplace's phase gate: a parameter says whether a request is allowed.
- JudgingRuns.CooldownCoversEveryEnd: the round, ownership, blackout, language and source-size checks in front of a submission are not modelled; each only refuses more.
- Judge results beyond the verdict (counts, times, messages), retry counters and the progress numbers: copied from the job into the row under the same condition as the verdict.
- HackTicks.SendingCrashesIff: one sender at work; with others a send passes over the rows they hold at that moment (`HackTable.Tables.SendOne`). A poll asks after attempts in id order; the source names no order.
- ReadOrder.BoardIsOrderFreeIff: like `ReadOrder.ShownIsOrderFreeIff` it takes the people and the Phase 1 board from one state; `BothBoards.Phase2RanksAreOneToNIff` has what a disqualification between the two queries does to the ranks.
- HackRuns.ScoreIsWhatWasEarned: a question's points and penalty stay fixed, and the judge's results keep their contract that an input that broke the constraints was not run.
- ValidationRuns.ScoresAreEarned: questions and their validators stay fixed once published, nothing is scored by hand, and a validator that ran answered for every entry it was sent.
- The advance checks (blockers and warnings) and the lots created on entering an auction phase: the phase step takes its deadline as given.
- Answer normalising and auto scoring by kind: string and number conversion that follows JavaScript; the score of an auto-graded answer is a function of the answer.
- Lower-casing, number parsing and floating-point rounding: functions given to the model; tolerances are compared over the reals.
- Reader.float and floats: `CheckerReader.Reader.Int` and `Ints` with another parser.
- The sandbox, compilers, the setter's checker and validator programs, and HTTP: the judge may answer late, lose jobs, refuse or repeat itself.
- The rest of the pages, the state snapshot's contents and the displayed connection status: a page is its cursor, its failures, what its state held and what it applied.
- Powerup ids: a powerup is known by its place in the catalogue, the order the shield queue picks from.
