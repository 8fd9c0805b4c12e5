# Hold'em services: a verified model

This project models the parts of the hold'em services that move chips and money, and proves what
they must never get wrong.

* **The engine hand.** A fixed-limit hand from its start through any accepted actions to its first
  finish: betting, the turn round the table, side pots, streets, rake, winners and the award.
  `Betting`, `StartHand`, `Payout` and `FinishHand` hold the step functions; `Engine.GameState` is
  the object the engine updates in place, each method proved against those functions;
  `HandInvariant`, `HandSteps` and `HandRun` hold the invariant, its preservation and the theorems
  about whole hands; `Showdown` says who wins and what everyone is paid in terms of the cards held;
  `HandExceptions` holds the exact cases in which the code does less, `HandReplay` what a finished hand
  does with further requests, and `HandEntitlement` what each player can win of the pots over a whole hand.
* **The evaluator and the shuffle.** `Combinations`, `Evaluator`, `HandRanks`, `Order` and `Shuffle`.
* **The wallet.** `Ledger` is the ledger and its transaction run alone;
  `Wallet`, `WalletRun` and `WalletStore` are the repository calls and the chain runner; `WalletTx`
  interleaves whole repository transactions, rows and ledger together, and `RunnerTx` puts the runner
  over them; `Scan` is the deposit scanner,
  and `ChainRun` composes scanner, runner and wallet over one chain.
* **The table.** `Table` is the seats and the button; `TableRun` composes joins, leaves and actions
  with engine hands, `TableService.Service` is the service that updates the row in place, and
  `TableTerms` says seat by seat what each request does and on which terms a hand is opened, and
  `TableExceptions` holds a run on which a finished hand is never copied back.

`dafny verify dfyconfig.toml` checks everything.

Two modelling choices are used throughout. Go map iteration has no fixed order, so a pot keeps its
eligible players as a set, and the order in which they are gone through is an arbitrary listing
chosen when the pot is paid; every theorem holds for every such order. A request that the source
refuses, or that fails before its state is stored, leaves the stored state as it was.

What the proofs found in the code:

* Chips are conserved by every hand with distinct players unless two things meet: of three or more
  players the start leaves only the big blind with chips, and the pre-flop rake on the two blinds is
  less than the small blind. Then, and only then, the big blind's fold loses the small blind less that
  rake (`HandExceptions.ConservationIff`, `HandExceptions.OrphanPotLosesChips`). The table never starts
  such a hand, because it seats only players with chips (`TableRun`).
* A started hand accepts no action at all exactly when the blinds take everybody's last chip. Later a
  hand can stop only where a street begins, and stops there exactly when the first live seat after the
  button is all in (`HandExceptions.StartStuckIff`, `HandExceptions.MidStreetNeverStuck`,
  `HandExceptions.StreetStuckIff`; `HandExceptions.StartStuckArises` and `HandExceptions.HandCanStop` are
  such hands).
* Over a whole hand a player can win of the pots what everybody paid against the player, chip for chip,
  and more if and only if some street closed on which others bet, the player did not, and the player was
  still eligible for the last pot: the first layer of that street is added to it
  (`HandEntitlement.SidePotLawIff`). A button all in with 2 chips can win 10, where the smaller of both
  payments adds up to 6 (`HandEntitlement.LateLayerArises`).
* A hand that finishes before the flop is split evenly among the live eligible players, because no
  board is run out and no hand has five cards (`FinishHand.ShortBoardSplits`).
* A finished hand keeps its pots and does not refuse requests. Further requests can make it pay again
  exactly when the player to act in it can act and the rake has not taken all of the pots
  (`HandReplay.PaidOnceIff`, for every finish of every reachable hand). After a showdown on the river one
  check is enough; where a bet stood when the hand ended, a call is, with the others folding after it if
  several can act (`HandReplay.PaysAgain`). Two players with 100 chips each who call and check a hand
  through have 204 after one more check (`HandReplay.SecondPayoutArises`).
* When anything fails after the engine's finish, its publication or the saving of the table, or the next
  hand must start and the deck is short or a blind seat cannot pay, the finished hand is not copied back to the seats and the table stays saved as being in it
  (`TableRun.UnopenableNextHand`; `TableExceptions.UnsettledHandArises` is such a run). Only such a
  table can send requests to a finished hand; until one is accepted the seats' books balance, and the
  seating itself stays right even then (`TableRun.TableInvariant`).
* The balance equation survives a buy-in or cash-out exactly when its key is none of the wallet's own
  or nothing is posted (`Wallet.PostKeepsInv`, `WalletRun.RunInvariantIff`). An entry posted under a
  pending deposit's key makes the later confirmation of that deposit credit nothing
  (`WalletRun.StolenKeyLosesDeposit`, `WalletRun.StolenKeyArises`); keys of the table service cannot do
  that (`Wallet.TableKeysAreExternal`).
* A transfer that is passed over, for instance because its receipt was not yet there, gets no row as
  long as the cursor is not saved below its block again (`Scan.MissedStaysMissed`). A chain head that
  lags behind the cursor is saved all the same, so the cursor can go back and the block be read again
  (`Scan.LaggingHeadRevisits`). A transfer has a row exactly when some cycle read its block, counted it
  and recorded it (`Scan.HasRowIff`).

## Model

| member | source | states |
|---|---|---|
| HandRun.ChipConservation | services/engine/internal/application/apply_action.go:44-147 | over every run of accepted actions from a sound start, stacks, street bets and pots equal the starting total in every unfinished state, and final stacks plus rake equal it after the finish, for every payout order |
| HandExceptions.ConservationIff | services/engine/internal/application/start_hand.go:162-189 | for every rake configuration, every finish of every run accounts for every chip if and only if it is not the case that, of three or more players, the big blind alone has chips after the blinds and the pre-flop rake on the two blinds is below the small blind |
| HandExceptions.OrphanPotLosesChips | services/engine/internal/application/finish_hand.go:169-193 | in that start the big blind's fold ends the hand with exactly the small blind less the rake unpaid, or nothing if the rake is as large |
| HandExceptions.OrphanPotArises | services/engine/internal/application/start_hand.go:107-189 | stacks 0, 1 and 3 with blinds 1 and 2 are such a start, and without pre-flop rake it strands one chip |
| HandRun.RunHasNoOrphanPot | services/engine/internal/application/finish_hand.go:98-159 | a run that ends with two or more live players has a live player eligible for every collected pot |
| HandRun.HandTerminates | services/engine/internal/application/apply_action.go:82-102 | a hand of n players takes at most 4 n (maxRaises + 1) accepted actions |
| HandRun.RunInvariant | services/engine/internal/application/apply_action.go:44-147 | every reachable unfinished state satisfies the whole hand invariant, the turn-order interval included |
| HandRun.RunBetLevels | services/engine/internal/domain/betting.go:40-93 | in every reachable state the bet to match is the opening bet plus, per raise, the small bet before the turn and the big bet from it on; no bet exceeds it, pots are nested, and whoever can act is eligible for all of them |
| HandRun.CommitmentBound | services/engine/internal/domain/game.go:31-40 | no player commits more than the big blind plus two small and two big streets of capped raises, the action that ends the hand included, and no stack goes negative |
| HandRun.RunCards | services/engine/internal/application/start_hand.go:147-160 | hole cards, board and stub hold each of the 52 cards exactly once in every reachable state, and the street fixes the board size |
| HandRun.DealNeverFails | services/engine/internal/domain/deck.go:32-46 | with at most 23 players a valid action is never refused for want of cards |
| HandRun.EventsNumbered | services/engine/internal/domain/game.go:79-82 | over every run the events of a hand are numbered 1, 2, 3 and so on, the finish included |
| HandSteps.DealFailsIff | services/engine/internal/application/apply_action.go:117-141 | dealing the next street fails exactly when the shuffled deck was too short for it |
| HandSteps.StepKeepsInv | services/engine/internal/application/apply_action.go:60-102 | every accepted action that does not end the hand keeps the invariant |
| HandSteps.EndHasHeir | services/engine/internal/application/apply_action.go:82-99 | every accepted action that ends the hand leaves balanced books and a live top bettor eligible for every pot, or a single live player |
| HandSteps.MeasureDecreases | services/engine/internal/application/apply_action.go:82-102 | every accepted action ends the hand or strictly decreases streets, raises and owing players, in that order |
| HandSteps.CollectConserves | services/engine/internal/domain/betting.go:133-161 | collecting a street moves every bet into the pots and makes or loses no chip |
| HandSteps.CollectKeepsChain | services/engine/internal/domain/betting.go:133-161 | layering and merging keep the eligible sets nested across streets |
| HandSteps.TopBettorInEveryPot | services/engine/internal/domain/betting.go:133-161 | whoever holds the top bet and all older pots is eligible for every collected pot |
| HandSteps.CollectWinnable | services/engine/internal/domain/betting.go:133-161 | collecting a street adds to what a bettor can win the smaller of both bets over all; to others nothing, unless still eligible for the last older pot, and then the smallest bet from everyone who bet |
| HandInvariant.TurnPasses | services/engine/internal/domain/betting.go:111-120 | the turn moves to someone who can act, with the last bettor still ahead and everyone in between still owing |
| HandInvariant.HeirAfterAction | services/engine/internal/domain/betting.go:66-97 | after any accepted action some live player matches the top bet and is eligible for every older pot, or one live player is left |
| HandInvariant.ActionEffect | services/engine/internal/domain/betting.go:18-97 | an accepted action moves chips of the acting player only and keeps raise cap and bet level; a call matches the bet or takes the last chip, and all-in means exactly no chips left |
| HandSteps.ActionAcceptedIff | services/engine/internal/domain/betting.go:18-64 | of a hand in play exactly these actions are accepted: of the player to act a fold, a check with the bet matched, a call without, a raise below the cap by the street bet that the chips cover |
| HandSteps.StepOutcome | services/engine/internal/application/apply_action.go:82-102 | an accepted action ends the hand if and only if no two players can act any more or the river bets are settled, and is refused if and only if a settled street needs more cards than are left |
| HandSteps.StreetGoesOn | services/engine/internal/domain/betting.go:99-120 | while someone owes chips street, board and pots stay and the turn passes to the next seat that can act |
| HandSteps.StreetCloses | services/engine/internal/application/apply_action.go:111-147 | when nobody does, bets are collected, the next street is dealt from the top of the deck and nothing is to match |
| HandSteps.StreetOpensAfterButton | services/engine/internal/domain/betting.go:122-131 | a new street opens with the first live player after the button |
| StartHand.StartedPlayers | services/engine/internal/application/start_hand.go:147-178 | after a start every seat is active with its two cards, its blind if any, and the rest of its stack |
| StartHand.BlindsPosted | services/engine/internal/application/start_hand.go:162-197 | heads-up the button has bet the small blind and the other player the big one; with more players the next seat the small blind, the one after it the big blind and nobody else anything |
| StartHand.FirstToAct | services/engine/internal/application/start_hand.go:180-197 | the first to act is the next seat after the big blind that can act, or the big blind if none can |
| StartHand.StartAcceptedIff | services/engine/internal/application/start_hand.go:107-189 | a start is accepted if and only if players, cards, structure, sizes and button fit and both blinds are payable where they sit |
| StartHand.StartEstablishesInv | services/engine/internal/application/start_hand.go:38-72 | every accepted start outside the excluded case satisfies the hand invariant |
| StartHand.PositiveStacksSuffice | services/engine/internal/application/start_hand.go:162-197 | with positive starting stacks the excluded case cannot arise |
| StartHand.DealHoleCards | services/engine/internal/application/start_hand.go:147-160 | two cards a seat from the top of the deck; fails exactly when the deck is too short, with the matching error |
| HandExceptions.StuckIff | services/engine/internal/domain/betting.go:18-64 | a state accepts some action exactly when the player to act can act |
| HandExceptions.MidStreetNeverStuck | services/engine/internal/domain/betting.go:111-131 | within a street the turn always reaches someone who can act |
| HandExceptions.StreetStuckIff | services/engine/internal/domain/betting.go:122-131 | after a street closes the next state accepts some action if and only if the first live seat after the button can act |
| HandExceptions.HandCanStop | services/engine/internal/application/apply_action.go:111-147 | a two-action run that stops on the flop with chips left in two stacks |
| HandReplay.PaidOnceIff | services/engine/internal/application/finish_hand.go:46-96 | for every finish of every reachable hand, no sequence of further requests gets more out of it if and only if the player to act cannot act or the net pots are empty |
| HandReplay.PaysAgain | services/engine/internal/domain/betting.go:18-64 | a finished hand whose player to act can act has a sequence of accepted requests that ends it again and pays all its pots, whatever the rake and order |
| HandReplay.SecondPayout | services/engine/internal/application/finish_hand.go:46-96 | where no bet is to match, one check by a player who can act pays every chip of the pots once more |
| HandReplay.SecondPayoutArises | services/engine/internal/application/apply_action.go:44-109 | a heads-up run of a call and three checks with 200 chips, after which one more check pays 204 |
| HandEntitlement.SidePotLawIff | services/engine/internal/domain/betting.go:133-161 | over every run, what a player can win of the pots is the smaller of both payments added up over all, plus the first layers of the streets that closed with bets of others only and the player still eligible for the last pot; it is more than the payments allow if and only if there was such a street |
| HandEntitlement.SidePotLawAtEnd | services/engine/internal/application/finish_hand.go:46-57 | the same law for the pots a hand is finished with |
| HandEntitlement.LateLayerArises | services/engine/internal/domain/betting.go:151-161 | a four-action run after which a player who paid 2 can win a pot of 10, where the smaller of both payments adds up to 6 |
| HandExceptions.StartStuckIff | services/engine/internal/application/start_hand.go:180-189 | a started hand accepts no action exactly when the blinds leave nobody any chips |
| HandExceptions.StartStuckArises | services/engine/internal/application/start_hand.go:162-189 | positive stacks of 1 and 2 with blinds 1 and 2 start a hand that accepts nothing |
| Betting.FirstAfter | services/engine/internal/domain/betting.go:111-131 | the first wanted seat round the table, or the starting one |
| Betting.IsBettingRoundOver | services/engine/internal/domain/betting.go:99-109 | over exactly when everyone who can act has matched the bet |
| Betting.BetsSum | services/engine/internal/domain/betting.go:134-140 | with distinct ids the contributions add up to the street bets |
| Betting.MergeTotal | services/engine/internal/domain/betting.go:151-161 | a later street adds its first layer to the last of the older pots, lists its other layers after it and touches no other pot; totals add |
| SidePots.Calculate | services/engine/internal/domain/pot.go:8-49 | the loop computes one layer per level, whatever order the map is gone through in |
| SidePots.ClosedForm | services/engine/internal/domain/pot.go:22-46 | pot k is the k-th step between sorted distinct contributions times the players who reached it |
| SidePots.SidePotLaw | services/engine/internal/domain/pot.go:8-49 | the pots a player can win add up to the sum over all of the smaller of both contributions |
| SidePots.LayersConserve | services/engine/internal/domain/pot.go:8-57 | layers add up to the contributions |
| SidePots.LayersDescend | services/engine/internal/domain/pot.go:30-45 | eligible sets strictly narrow, amounts are positive |
| Payout.RakeBounded | services/engine/internal/domain/rake.go:9-25 | the rake is between zero and the smaller of total and cap, and nothing before the flop where no flop means no drop |
| Payout.RakeIsLargest | services/engine/internal/domain/rake.go:14-24 | the rake is the largest whole number of chips within the percentage and the cap |
| Payout.RakeExact | services/engine/internal/domain/rake.go:27-46 | exactly the rake is removed, no pot goes negative, eligibility is untouched |
| Payout.RakeFromLastPots | services/engine/internal/domain/rake.go:27-46 | the last pots bear the rake first: any first pots together keep all they held, or all that is left after the rake if that is less |
| Payout.ApplyRake | services/engine/internal/domain/rake.go:27-46 | the backward loop takes the rake from the last pots first |
| Payout.BestHandsInPot | services/engine/internal/application/finish_hand.go:131-159 | the loop returns the leaders in listing order |
| Payout.PotWinnersExact | services/engine/internal/application/finish_hand.go:131-159 | a pot is won by exactly the eligible live players whose hand no other such player beats |
| Payout.WinnersToMap | services/engine/internal/application/finish_hand.go:169-193 | the nested loops credit each winner of each pot in turn |
| Payout.WinMapSum | services/engine/internal/application/finish_hand.go:169-193 | what is paid is exactly the chips of the pots that have a winner |
| Payout.SharesEven | services/engine/internal/application/finish_hand.go:181-190 | co-winners of a pot differ by at most one chip and nobody else is paid |
| Payout.OthersUnpaid | services/engine/internal/application/finish_hand.go:172-192 | whoever wins no pot is paid nothing |
| Payout.Award | services/engine/internal/application/finish_hand.go:161-167 | winnings are added to the winners' stacks only |
| FinishHand.FinishConserves | services/engine/internal/application/finish_hand.go:46-129 | final stacks plus rake equal the starting chips for any state with balanced books and an heir |
| FinishHand.PayoutExact | services/engine/internal/application/finish_hand.go:98-129 | the whole net pot is paid out, by the single-winner path or the showdown |
| FinishHand.SoleSurvivorTakesAll | services/engine/internal/application/finish_hand.go:98-113 | a single live player gets the whole net pot and nobody else's stack changes |
| FinishHand.ShortBoardSplits | services/engine/internal/application/finish_hand.go:115-129 | with fewer than three board cards every live eligible player wins a share of the pot |
| Showdown.ShowdownExact | services/engine/internal/application/finish_hand.go:115-159 | a pot is won by exactly the live eligible players holding five cards, of their own two and the board, that no five cards of any live eligible player beat; by all of them while the board is short |
| Showdown.WinnersListed | services/engine/internal/application/finish_hand.go:131-159 | the winners of a pot stand in the order in which its eligible players are gone through |
| Showdown.FinishPays | services/engine/internal/application/finish_hand.go:115-193 | a showdown adds to each stack, pot by pot, the even share of the pots the player wins and a chip more where the player is among the first of the winners, and nothing else |
| Engine.GameState.Execute | services/engine/internal/application/apply_action.go:44-109 | one request, on a hand in play or a finished one, is refused, stored as the step says, or finished and paid out in some order |
| Engine.AnswersKeepHand | services/engine/internal/application/apply_action.go:44-109 | on a reachable hand, what is stored is reachable again and what is finished has paid out every chip but the rake |
| Engine.GameState.AdvanceStreet | services/engine/internal/application/apply_action.go:111-147 | collects, resets the betting, deals and moves to the next street, or reports the failed deal |
| Engine.GameState.ApplyAction | services/engine/internal/domain/betting.go:66-97 | the new state after each kind of action |
| Engine.GameState.CollectBets | services/engine/internal/domain/betting.go:133-149 | bets are zeroed and layered into the pots |
| Engine.GameState.FinishHand | services/engine/internal/application/finish_hand.go:46-96 | collects, rakes, determines winners in some order and awards |
| Engine.GameState.StartHand | services/engine/internal/application/start_hand.go:38-105 | builds, shuffles and deals the deck, posts the blinds and finds the first player, or returns the matching error |
| Combinations.FiveCardHands | services/engine/internal/infrastructure/evaluator/combinations.go:5-25 | the five nested loops list exactly the increasing index tuples, for any number of cards |
| Combinations.ChooseComplete | services/engine/internal/infrastructure/evaluator/combinations.go:10-22 | every increasing tuple is listed |
| Combinations.ChooseOrdered | services/engine/internal/infrastructure/evaluator/combinations.go:10-22 | the listing is strictly lexicographic, so nothing is listed twice |
| Combinations.HandCount | services/engine/internal/infrastructure/evaluator/combinations.go:6-8 | there are n(n-1)(n-2)(n-3)(n-4)/120 hands |
| Evaluator.Best | services/engine/internal/infrastructure/evaluator/evaluator.go:11-38 | the loop keeps the running best of all five-card hands |
| Evaluator.BestIsMaximum | services/engine/internal/infrastructure/evaluator/evaluator.go:11-38 | no five-card sub-hand beats the result |
| Evaluator.BestIsListed | services/engine/internal/infrastructure/evaluator/evaluator.go:11-38 | with five or more cards the result is one of the sub-hands |
| Evaluator.MoreCardsNeverHurt | services/engine/internal/infrastructure/evaluator/evaluator.go:11-38 | holding more cards never gives a worse best hand |
| Evaluator.BestIgnoresOrder | services/engine/internal/infrastructure/evaluator/evaluator.go:11-38 | rank and sorted ranks of the best hand do not depend on the order of the cards |
| Evaluator.CompareIsPreorder | services/engine/internal/infrastructure/evaluator/evaluator.go:40-48 | Compare is antisymmetric in sign and transitive |
| Evaluator.CompareTies | services/engine/internal/infrastructure/evaluator/rank.go:156-168 | a tie is equal rank and equal sorted ranks |
| HandRanks.RankHandMeaning | services/engine/internal/infrastructure/evaluator/rank.go:9-154 | the cascade gives the category read off the sorted ranks: number of ties, longest run of equals, five in a row, one suit; the ten categories ascend from high card to royal flush |
| Evaluator.HandValueOfPermutation | services/engine/internal/infrastructure/evaluator/rank.go:9-154 | rank and sorted ranks depend only on which five cards are held |
| Evaluator.CompareCards | services/engine/internal/infrastructure/evaluator/rank.go:156-168 | positive exactly when the descending ranks first differ where the first hand has the higher one, negative exactly when the second has |
| Evaluator.CompareMeaning | services/engine/internal/infrastructure/evaluator/evaluator.go:40-48 | the higher category wins; within one, with both hands laid out from the highest card down, the one with the higher card where they first differ |
| Evaluator.LayOut | services/engine/internal/infrastructure/evaluator/rank.go:170-176 | any cards can be laid out from the highest rank down |
| Evaluator.RankCounts | services/engine/internal/infrastructure/evaluator/rank.go:131-137 | the counts are the multiplicities of the ranks |
| Evaluator.IsTwoPair | services/engine/internal/infrastructure/evaluator/rank.go:110-119 | true exactly when two ranks occur twice |
| Evaluator.ReverseRanks | services/engine/internal/infrastructure/evaluator/rank.go:170-176 | the in-place swaps reverse the ranks |
| Shuffle.ShuffleCards | services/engine/internal/infrastructure/shuffle/shuffle.go:10-23 | the in-place loop applies the draws from the last position down |
| Shuffle.ShuffleIsPermutation | services/engine/internal/infrastructure/shuffle/shuffle.go:10-23 | a shuffle is a permutation of the cards |
| Shuffle.ShuffleBijection | services/engine/internal/infrastructure/shuffle/shuffle.go:14-20 | for distinct cards every permutation comes from exactly one sequence of draws |
| Shuffle.BuildDeck | services/engine/internal/domain/deck.go:12-20 | the nested loops build the deck suit by suit, two to ace |
| Shuffle.FreshDeck | services/engine/internal/domain/deck.go:12-20 | the 52 cards are distinct and are all the valid ones |
| Ledger.NoHarmfulWrap | services/wallet-service/internal/infrastructure/repository/postgres/repository.go:375-378 | a wrapped 64-bit sum passes the check exactly when the true sum is in range, and then equals it |
| Ledger.ApplyExact | services/wallet-service/internal/infrastructure/repository/postgres/repository.go:342-408 | an entry is posted if and only if its key and id are new, its user has an account and the balance it leaves is neither negative nor too large; then it is appended and the balance moved by it |
| Wallet.ConfirmKeepsInv | services/wallet-service/internal/infrastructure/repository/postgres/repository_chain.go:107-130 | confirming a deposit credits it once and keeps the balance equation |
| Wallet.FailKeepsInv | services/wallet-service/internal/infrastructure/repository/postgres/repository_chain.go:316-338 | failing a withdrawal refunds it once and keeps the balance equation |
| Wallet.WithdrawKeepsInv | services/wallet-service/internal/infrastructure/repository/postgres/repository.go:289-307 | a withdrawal request debits and records together and keeps the balance equation |
| Wallet.WithdrawExact | services/wallet-service/internal/infrastructure/repository/postgres/repository.go:289-307 | a withdrawal is debited and recorded pending if and only if it asks for something, its ids are new and the balance covers it; otherwise nothing happens |
| Wallet.ConfirmExact | services/wallet-service/internal/infrastructure/repository/postgres/repository_chain.go:107-130 | an unconfirmed deposit is confirmed and credited, both or neither, both if and only if the credit fits |
| Wallet.FailExact | services/wallet-service/internal/infrastructure/repository/postgres/repository_chain.go:316-338 | a withdrawal that has not failed fails and is refunded, both or neither, both if and only if the refund fits |
| Wallet.PostKeepsInv | services/wallet-service/internal/application/service.go:234-271 | a buy-in or cash-out keeps the balance equation and the one-entry-per-event links if and only if its key is external or nothing is posted |
| Wallet.RenderInjective | services/wallet-service/internal/chain/runner.go:214-320 | deposits, withdrawals and refunds never share an idempotency key |
| Wallet.ExternalIff | services/wallet-service/internal/chain/runner.go:214-320 | a key is external exactly when it starts with none of the three prefixes the wallet uses |
| Wallet.TableKeysAreExternal | services/table-manager/internal/application/service.go:276-301 | keys with the table service's prefixes are none of the wallet's own |
| WalletRun.BalanceEquation | services/wallet-service/internal/chain/runner.go:194-327 | over every run without such a request, each balance is confirmed deposits less withdrawals not failed plus the cash-outs less the buy-ins posted; credits and refunds happen exactly once |
| WalletRun.RunInvariantIff | services/wallet-service/internal/application/service.go:234-271 | over every run, the invariant holds in every state up to a point if and only if no request up to there posted under a key of the wallet's own |
| WalletRun.FlowIsExternal | services/wallet-service/internal/application/service.go:234-271 | the ledger entries under callers' keys add up to the cash-outs less the buy-ins posted so far |
| WalletRun.PostedOnce | services/wallet-service/internal/infrastructure/repository/postgres/repository.go:342-408 | of all requests under one key at most one is ever posted |
| WalletRun.StolenKeyLosesDeposit | services/wallet-service/internal/infrastructure/repository/postgres/repository_chain.go:107-130 | after a request posted under a pending deposit's key its confirmation credits nothing, ever, and each balance is off by exactly what was posted or deposited |
| WalletRun.StolenKeyArises | services/wallet-service/internal/infrastructure/repository/postgres/repository_chain.go:107-130 | a five-step run in which a deposit of 5 is confirmed and the user has 1 |
| WalletRun.StepKeepsMachineInv | services/wallet-service/internal/chain/runner.go:194-327 | every runner step, failing or not, keeps the invariant, and a request does if and only if it posts nothing under a key of the wallet's own |
| WalletRun.FailedIsFinal | services/wallet-service/internal/chain/runner.go:274-327 | a failed withdrawal is never submitted, confirmed or refunded again |
| WalletRun.StatusFollowsReceipts | services/wallet-service/internal/chain/runner.go:274-327 | over every run a withdrawal is confirmed if and only if the runner has acted on a successful receipt of it, failed and refunded if and only if on a reverted one with room for the refund, and pending if and only if it was not sent |
| WalletRun.StatusStep | services/wallet-service/internal/chain/runner.go:292-327 | a step changes the status of a withdrawal exactly as its receipt or its submission says, with the refund in the ledger |
| WalletRun.CreditFollowsConfirmation | services/wallet-service/internal/chain/runner.go:194-221 | over every run a deposit is credited if and only if the runner has confirmed it at the configured depth with room for the credit |
| WalletStore.Store.ApplyLedgerEntryTx | services/wallet-service/internal/infrastructure/repository/postgres/repository.go:342-408 | the statements of the transaction give the sequential result |
| WalletStore.Store.CreateWithdrawal | services/wallet-service/internal/infrastructure/repository/postgres/repository.go:289-307 | debit and row commit together or roll back together |
| WalletStore.Store.Confirm | services/wallet-service/internal/infrastructure/repository/postgres/repository_chain.go:107-130 | status and credit commit together or roll back together |
| WalletStore.Store.Fail | services/wallet-service/internal/infrastructure/repository/postgres/repository_chain.go:316-338 | status and refund commit together or roll back together |
| WalletStore.Store.UpsertObservedDeposit | services/wallet-service/internal/infrastructure/repository/postgres/repository_chain.go:75-101 | a new row, or only the observed block of a known one |
| WalletStore.ConfirmPendingDeposits | services/wallet-service/internal/chain/runner.go:194-221 | the loop, with requests arriving and calls failing, is a trace of the wallet machine; of the rows it gets to exactly those deep enough whose credit the ledger takes are confirmed |
| WalletStore.SubmitWithdrawals | services/wallet-service/internal/chain/runner.go:274-290 | the loop is a trace of the wallet machine; of the rows it gets to exactly those sent are submitted |
| WalletStore.ConfirmWithdrawalReceipts | services/wallet-service/internal/chain/runner.go:292-327 | the loop is a trace of the wallet machine; each row it gets to ends confirmed on a successful receipt, failed on a reverted one if the ledger takes the refund, submitted without one |
| WalletStore.TraceKeepsInv | services/wallet-service/internal/chain/runner.go:194-327 | every such trace keeps the wallet invariant as long as no request posts under a key of the wallet's own |
| WalletTx.StepRefinesCall | services/wallet-service/internal/infrastructure/repository/postgres/repository.go:289-441 | every interleaved statement of withdrawals, confirmations, refunds and postings leaves the committed tables alone or does what one whole call would do |
| WalletTx.CommitOrder | services/wallet-service/internal/infrastructure/repository/postgres/repository.go:342-441 | what any interleaving has committed is what the same calls, whole and in commit order, would have left |
| WalletTx.LedgerSafety | services/wallet-service/internal/infrastructure/repository/postgres/repository.go:342-408 | in every interleaving every committed balance is the sum of its entries, is not negative, and no key or entry id occurs twice |
| WalletTx.EntriesGrow | services/wallet-service/internal/infrastructure/repository/postgres/repository.go:380-393 | committed entries are only ever appended to |
| WalletTx.InterleavedEquation | services/wallet-service/internal/infrastructure/repository/postgres/repository_chain.go:107-130 | in every interleaving of calls that are proper when they commit, every committed state satisfies the balance equation, with credits and refunds exactly once |
| RunnerTx.RunnerEquation | services/wallet-service/internal/chain/runner.go:194-327 | with the runner's confirmations and refunds as transactions among those of any number of requests, every committed state satisfies the balance equation; that the runner's calls are proper is proved |
| RunnerTx.DatabaseStep | services/wallet-service/internal/infrastructure/repository/postgres/repository_chain.go:107-338 | whatever commits while the runner waits, the rows it listed still stand |
| Scan.ScanCoverage | services/wallet-service/internal/chain/runner.go:99-168 | wherever cycles fail, every block after the initial one and up to the saved cursor was scanned by some cycle, and each successful transfer in it to an address that cycle listed has a row |
| Scan.InitialBlockIs | services/wallet-service/internal/chain/runner.go:376-384 | the blocks before the initial one are those before the configured start block; without one, block 0 and those with at least the configured number of blocks after them at the head the first cycle saw |
| Scan.NextKeepsRows | services/wallet-service/internal/infrastructure/repository/postgres/repository_chain.go:75-101 | no step loses or renames a row, and re-scanning changes no row's user, amount or status |
| Scan.ScanFinds | services/wallet-service/internal/chain/ethereum.go:142-196 | a scan finds every successful transfer to a listed address |
| Scan.ScanDeposits | services/wallet-service/internal/chain/ethereum.go:142-196 | the nested loops collect the transfers block by block |
| Scan.HasRowIff | services/wallet-service/internal/chain/runner.go:99-164 | over every run a transfer in block b has a row if and only if some earlier cycle whose range contained b counted it and recorded it |
| Scan.SavedPicksUp | services/wallet-service/internal/chain/runner.go:128-164 | a cycle that saves the cursor records exactly what it reads and counts |
| Scan.MissedStaysMissed | services/wallet-service/internal/chain/runner.go:128-164 | a transfer without a row gets none as long as the cursor is at or past its block |
| Scan.LaggingHeadRevisits | services/wallet-service/internal/chain/runner.go:158-164 | a run in which a lagging head moves the cursor back and a passed-over transfer gets its row |
| Scan.Scanner.ScanCycle | services/wallet-service/internal/chain/runner.go:99-164 | one cycle records a prefix of what it found and moves the cursor only after recording all |
| ChainRun.CreditIsEarned | services/wallet-service/internal/chain/runner.go:99-221 | over every run of scanner, runner and requests, each confirmed deposit is a successful transfer in some block b to an address listed for that user, with that amount, credited by a cycle whose saved head is at least b + confirmations - 1 |
| ChainRun.StepKeepsNode | services/wallet-service/internal/chain/runner.go:99-221 | every step keeps: rows come from the chain, the runner confirms at the head the cycle saw and saved |
| ChainRun.RunIsWalletRun | services/wallet-service/internal/chain/runner.go:99-327 | every run of the whole is a run of the wallet machine |
| ChainRun.RunIsScanRun | services/wallet-service/internal/chain/runner.go:99-168 | every run of the whole is a run of the scanner, one cycle at each save of the cursor |
| ChainRun.ChainCoverage | services/wallet-service/internal/chain/runner.go:99-168 | scan coverage holds in the whole, with requests, confirmations and failures in between |
| ChainRun.DepositArrives | services/wallet-service/internal/chain/runner.go:99-221 | a seven-step run that takes a transfer from its block through scan, cursor and confirmation to the balance |
| Table.ButtonFairness | services/table-manager/internal/domain/domain.go:76-105 | with k playable seats, k advances return to the button and visit each playable seat exactly once |
| Table.AdvanceIsCyclic | services/table-manager/internal/domain/domain.go:91-105 | the button goes to the next playable seat round the table |
| Table.PlayableExact | services/table-manager/internal/domain/domain.go:44-52 | the playable players are the occupied seats with chips, in seat order |
| Table.Seating.AdvanceButton | services/table-manager/internal/domain/domain.go:91-105 | the loop sets the button to the next playable seat |
| Table.Seating.ApplyStacksFromState | services/table-manager/internal/application/service.go:258-266 | each player's stack is written to the player's seat |
| Table.Seating.UnseatBustedPlayers | services/table-manager/internal/application/service.go:268-274 | exactly the seated players without chips lose their seat |
| TableRun.TableInvariant | services/table-manager/internal/application/service.go:44-207 | over every run, requests on finished hands included, seated players are distinct, a table is in a hand exactly when it has an active hand id and is never idle with two playable players; until a finished hand accepts a request the seats hold the buy-ins less cash-outs and rakes |
| TableRun.SeatStackComposition | services/table-manager/internal/application/service.go:86-207 | from a hand's start to its showdown, no finished hand having accepted a request, the seats change by mid-hand buy-ins less the rake and by nothing else |
| TableRun.ShowdownTakesRake | services/table-manager/internal/application/service.go:189-195 | settling a finished hand lowers the seats' total by exactly the engine's rake |
| TableRun.FinishedStays | services/table-manager/internal/application/service.go:161-207 | a request on a finished hand is refused or shows a finished hand of the same players again |
| TableRun.NoCashoutInHand | services/table-manager/internal/application/service.go:133-159 | nothing is cashed out while a hand is on |
| TableRun.OpenedHand | services/table-manager/internal/application/service.go:220-256 | a hand opened by the table satisfies the engine invariant and its players sit with the stacks they brought |
| TableTerms.OpenedTerms | services/table-manager/internal/application/service.go:220-256 | an opened hand is played by exactly the playable seats, in seat order with their stacks, the button at its own seat or the first playable one, with the table blinds as limits and, as the engine's server sets them (services/engine/internal/delivery/grpc/server.go:45-52), a small bet of one big blind, a big bet of two and four raises |
| TableTerms.JoinExact | services/table-manager/internal/application/service.go:86-131 | a join is accepted if and only if it is a new player with a positive buy-in for an empty seat, debited and saved, and no hand that would have to start cannot; it changes the seat, the books and, if two can play, the hand |
| TableTerms.LeaveExact | services/table-manager/internal/application/service.go:133-159 | between hands, when nothing fails, leaving empties the seat and pays out its stack; otherwise nothing happens |
| TableTerms.ActExact | services/table-manager/internal/application/service.go:161-207 | a refused or spectating request does nothing, an action that goes on moves only the hand, one that ends it settles the table and takes the rake, or leaves only the hand over if the next cannot be opened or saving fails |
| TableTerms.SettledSeat | services/table-manager/internal/application/service.go:258-274 | settling gives each seat of the hand its final stack, frees exactly the seats left without chips and changes no other |
| TableTerms.SettledButton | services/table-manager/internal/domain/domain.go:76-105 | after settling the button is at the next playable seat, counted over the seats as they are then |
| TableRun.UnopenableNextHand | services/table-manager/internal/application/service.go:189-207 | a finished hand is left unsettled if and only if saving fails or two players are waiting and the deck is short or a blind seat cannot pay its blind |
| TableExceptions.UnsettledHandArises | services/table-manager/internal/application/service.go:86-207 | a run of two joins and a fold, every call succeeding, that leaves a finished hand unsettled |
| TableService.Service.JoinTable | services/table-manager/internal/application/service.go:86-131 | the checks in order, the seat taken, and the row saved with a hand opened if one can start; a failed debit, opening or save leaves the row as it was |
| TableService.Service.LeaveTable | services/table-manager/internal/application/service.go:133-159 | refused during a hand; otherwise the seat is emptied and its stack cashed out; a failed credit or save leaves the row as it was |
| TableService.Service.Act | services/table-manager/internal/application/service.go:161-207 | one action, on a hand in play or a finished one, through the engine to the saved row, is a step of the table machine and keeps its invariant |
| TableService.Service.StartHand | services/table-manager/internal/application/service.go:220-256 | opens an engine hand for the playable seats or reports the engine's error |

## Left out

- gRPC, HTTP, WebSocket, Kafka, event publishing, metrics, authentication and configuration: plumbing around the modelled steps.
- Sweeps and faucet transfers: they touch no ledger entry and would only add easy members.
- Address linking, link challenges and the trimming and lower-casing of inputs: a withdrawal request is modelled from the point where its address is accepted.
- Payout.RakeIsLargest: the floor is that of the exact product, where float64 can round across a whole chip.
- Payout.RakeBounded: the percentage is a real number and the product is exact; the rounding of float64 is not modelled.
- Engine integers are unbounded: chip amounts near the limits of a 64-bit integer are not modelled in the engine and the table, only in the ledger.
- HandRun.ChipConservation: a run ends at the first finish; what a finished hand does with further requests is in HandReplay.PaidOnceIff and TableRun.FinishedStays.
- TableRun.TableInvariant: requests on one table come one after another, so the unlocked read-modify-write of two requests at once is not captured.
- Conservation between wallet and seats: a join that is debited and then not saved, and a cash-out that is credited and then not saved, are outside the seat books.
- RunnerTx.RunnerEquation: a call of the runner returns only when its transaction has ended; requests post under external keys, the exact guard being WalletRun.RunInvariantIff.
- On-chain effects of submissions: the model keeps to what the ledger and the rows say.
- Reorganisations of the chain: a block's transfers are fixed, a transaction hash occurs once, and a value too large for 64 bits of gwei fails the scan.
- Conformance of tie-breaks to the usual ranking of hands: the claims are about the code's own order.
- The saved copy of an engine hand: reading a stored hand back is taken to return what was stored, up to the order of eligible players.
