# A verified model of the llm-poker engine

This project models the poker engine `PokerGame` of `backend/models/poker_game.py`
(Texas Hold'em among N seats whose moves come from outside) and proves properties of
that model in Dafny.

| module (file) | what it models |
|---|---|
| `Util` (util.dfy) | `Option`, `Result`, `NoDuplicates` |
| `Cards` (cards.dfy) | suits, ranks 2..14, the card text `"<rank> of <suit>"`, its parse by `get_best_hand`, `create_deck`, what a shuffle may return |
| `Moves` (moves.dfy) | the `Move` record and the checks in `__post_init__` |
| `HandEval` (hand_eval.dfy) | `get_best_hand`: the parse, the scans from straight flush down to high card, and an independent statement of what they find |
| `Winners` (winners.dfy) | `get_winner`: the category ranking table, Python's lexicographic `max`, and the single or split result |
| `Betting` (betting.dfy) | the betting rules as functions on a table value: `get_active_players`, `handle_player_move`, `handle_forced_bet` |
| `Game` (game.dfy) | class `PokerGame`: the seats, deck, pot, community cards, call amount and statistics, updated in place by `reset_game`, `deal_cards`, `deal_community_cards`, the forced bet and move handlers, `betting_round`, `showdown`, `play_round` and `play_game` |

The pure parts of the engine (`Move` validation, `create_deck`, `get_active_players`,
`get_best_hand`, `get_winner`) are functions, and lemmas state what they compute. The
parts that change state are methods of `Game.PokerGame` with `modifies this`. Most of them
are tied in their `ensures` to the pure rule they apply (`ApplyMove`, `ForcedBet`,
`ActiveSeats`, `ShowdownResult`, `ShowdownWinner`, `ResetPlay`), or to a function that
replays the source's code on values (`ShownHands`, `PlayedTurn`, `TurnStep`, `RoundFrom`,
`RecordedGains`, `DealThenBet`, `BettingToRiver`, `RoundResult`, `RoundAndReset`, `GameFrom`,
`GameResult`), so the lemmas about those functions hold for the object. The constructor,
`ResetGame`, `DealCards` and `DealCommunityCards` state their new state field by field instead.
Where Python raises an exception, the model returns `Failed(...)`. It names the exception
and keeps any state changes the source has already made by then.

Behaviour the model keeps as the code has it:

- **The showdown pays a position.** `showdown` pays the winner's position in the
  active-seat list and uses it as a seat id. So when seat 0 has folded and the first
  active seat wins, seat 0 is paid (`Game.ShowdownPaysPosition`).
- **A tie fails.** On a tie `get_winner` returns the list of tied positions. `showdown`
  then indexes `player_names` with that list, which raises TypeError. The model returns
  `Failed(TiedWinnerIndex)`: a tie pays nobody and records no winner.
- **Every showdown fails.** `GameStatistics.money_gained` starts empty and nothing ever
  adds a key. So the first `money_gained[winner_id].append` raises KeyError, after the pot
  has been paid and the winner recorded (`Game.PokerGame.PayPot`). As a consequence
  `play_game` on a fresh game never counts a round (`Game.PokerGame.PlayGame`).
- **The match loop uses AND.** It runs while fewer than `num_rounds` rounds have been
  played AND fewer than `num_eliminations` seats are out, so it stops as soon as either
  threshold is reached, not only once both are. With the default `num_eliminations = 0`
  the loop body never runs, so a default match plays no round.
- **Retries get no feedback.** The `errors` text handed to the player is reset before
  every attempt. The move source therefore sees only the request number and the seat.
- **A raise re-queues the raiser.** After an accepted raise every active seat that is not
  queued is queued again, the raiser included, in seat order from the seat after the raiser.
- **Undefined `valid`.** With `tries_per_move <= 0` the loop body never runs, and
  `if not valid` reads an unassigned name. The model returns `Failed(NoMoveMade(seat))`.

## Model

| member | source | states |
|---|---|---|
| Moves.ParseAction | backend/models/poker_game.py:19 | an action text is accepted exactly when it is the name of one of call, raise, fold, check |
| Moves.MakeMove | backend/models/poker_game.py:18-23 | a Move is built iff the action is one of the four names and the amount is non-negative; a bad action is reported before a negative amount, with the source's two error reports |
| Moves.MakeMoveComplete | backend/models/poker_game.py:8-23 | every Move value is one the checked constructor accepts |
| Cards.CardName | backend/models/poker_game.py:138 | a card's text is its rank name, " of ", its suit name: str.partition on " of " splits it back into the two names |
| Cards.ParseSuit | backend/models/poker_game.py:270-271 | a parsed suit is the one whose name is the text |
| Cards.ParseRank | backend/models/poker_game.py:254-263 | the face names map to 11..14 and numerals to their value; a parsed rank's name is the text |
| Cards.FindFrom | backend/models/poker_game.py:252 | the first index at or after `from` where the separator occurs, or none when it occurs nowhere after it |
| Cards.Partition | backend/models/poker_game.py:252 | str.partition: the three parts concatenate to the input; when the separator occurs the split is at its first occurrence, and when it does not the whole text comes first with two empty parts |
| Cards.ParseCard | backend/models/poker_game.py:251-264 | a parsed card's text form is the input string (only card names parse; see Left out) |
| Cards.ParseCardName | backend/models/poker_game.py:251-264 | parsing the text form of any card gives the card back |
| Cards.SuitCards | backend/models/poker_game.py:138 | the inner comprehension yields the 13 cards of one suit, ranks 2..14 in order |
| Cards.CreateDeck | backend/models/poker_game.py:131-138 | the deck has 52 cards, holds every card, and holds none twice |
| Cards.ShuffleHoldsEachCardOnce | backend/models/poker_game.py:87-88 | any permutation of the deck also has 52 cards, each card exactly once |
| HandEval.Count | backend/models/poker_game.py:280 | the count of a rank never exceeds the number of cards |
| HandEval.SortDesc | backend/models/poker_game.py:273 | the descending sort keeps the length; SortDescIsSorting states the rest |
| HandEval.Insert | backend/models/poker_game.py:273 | insertion adds exactly one copy of the value to the sequence's multiset |
| HandEval.InsertKeepsOrder | backend/models/poker_game.py:273 | inserting into a non-increasing sequence keeps it non-increasing |
| HandEval.InsertKeepsStrictOrder | backend/models/poker_game.py:273 | inserting a new value into a strictly decreasing sequence keeps it strictly decreasing |
| HandEval.SortDescOrdered | backend/models/poker_game.py:273 | the descending sort's output is non-increasing |
| HandEval.SortDescPermutes | backend/models/poker_game.py:273 | the descending sort's output is a permutation of its input |
| HandEval.SortDescIsSorting | backend/models/poker_game.py:273 | `sort(reverse=True)`: the output is a non-increasing permutation of the input, the only result Python's sort can give |
| HandEval.SortDescStrict | backend/models/poker_game.py:273 | sorting ranks without repeats gives a strictly decreasing sequence |
| HandEval.DistinctFrom | backend/models/poker_game.py:298 | the distinct ranks r..2 present in the input, strictly decreasing |
| HandEval.DistinctDesc | backend/models/poker_game.py:298 | `sorted(set(ranks), reverse=True)`: strictly decreasing and holding exactly the input's ranks |
| HandEval.RanksOf | backend/models/poker_game.py:264-267 | one rank per card, in card order, each in 2..14 |
| HandEval.SuitRanks | backend/models/poker_game.py:271 | the ranks of the cards of a suit: a rank is listed iff a card of that rank and suit is present |
| HandEval.SuitRanksLength | backend/models/poker_game.py:271-272 | `len(suited_cards)` is the number of cards of the suit |
| HandEval.SuitRanksNoDuplicates | backend/models/poker_game.py:271 | distinct cards give distinct suited ranks |
| HandEval.SuitedFacts | backend/models/poker_game.py:271-273 | the sorted suited ranks: as many as cards of the suit, exactly those ranks, strictly decreasing for distinct cards |
| HandEval.FirstWindow | backend/models/poker_game.py:274-276 | the first i with `xs[i] - xs[i+4] == 4`, and none before it; none when no such i exists |
| HandEval.StraightFlushScan | backend/models/poker_game.py:270-276 | a straight-flush top found is in 6..14: the lowest run is 2 to 6 and an ace never counts low |
| HandEval.FlushScan | backend/models/poker_game.py:291-295 | a flush value is five ranks long |
| HandEval.HighestFrom | backend/models/poker_game.py:279-281 | a descending rank scan returns the highest rank in 2..r passing the test, and none when no rank passes |
| HandEval.FullHouseScan | backend/models/poker_game.py:284-288 | the highest triple that the inner scan can pair, with that inner scan's pair rank |
| HandEval.TwoPairScan | backend/models/poker_game.py:308-314 | a two-pair result holds two ranks and begins with the pair already found |
| HandEval.HighCardRank | backend/models/poker_game.py:321-322 | the high card is a rank of one of the cards |
| HandEval.BestHand | backend/models/poker_game.py:269-322 | every hand value has one to five ranks |
| HandEval.GetBestHand | backend/models/poker_game.py:244-322 | get_best_hand answers exactly when the list is non-empty and every text is a card name |
| HandEval.ParseCards | backend/models/poker_game.py:251-264 | a parsed list has one card per string |
| HandEval.ParseCardsNames | backend/models/poker_game.py:251-264 | parsing the text forms of a card list gives the list back |
| HandEval.GetBestHandOfNames | backend/models/poker_game.py:244-322 | evaluating the text of dealt cards is evaluating the cards themselves |
| HandEval.Precedence | backend/models/poker_game.py:269-322 | the first category whose condition holds, strongest first: straight flush exactly when its condition holds, high card exactly when none holds |
| HandEval.WindowIsRun | backend/models/poker_game.py:274-276 | in a strictly decreasing sequence a four-apart window is five consecutive ranks |
| HandEval.RunScan | backend/models/poker_game.py:298-301 | the window scan over distinct ranks finds a run of five iff one exists, and the one it finds has the highest top |
| HandEval.RunsOfSuit | backend/models/poker_game.py:270-276 | a run found in a suit's sorted ranks is five cards of that suit in a row |
| HandEval.SuitRunScan | backend/models/poker_game.py:270-276 | one suit's straight-flush check succeeds iff the suit holds five consecutive cards, and returns the highest top |
| HandEval.StraightFlushScanSucceeds | backend/models/poker_game.py:270-276 | for distinct cards, the scan over a list of suits succeeds iff one of those suits holds a straight flush |
| HandEval.StraightFlushScanFinds | backend/models/poker_game.py:270-276 | the scan over a list of suits returns the highest top within the first suit of the list that holds a suited run |
| HandEval.StraightFlushFinds | backend/models/poker_game.py:269-276 | the straight-flush check succeeds exactly when the cards hold a straight flush, and returns the highest top within the first suit, in Hearts, Diamonds, Clubs, Spades order, that holds one |
| HandEval.TopFiveOfSorted | backend/models/poker_game.py:293-295 | the first five of a non-increasing arrangement are the five highest values |
| HandEval.SuitFlush | backend/models/poker_game.py:291-295 | for a suit with five or more cards, `suited_cards[:5]` is that suit's five highest ranks |
| HandEval.FlushScanSucceeds | backend/models/poker_game.py:291-295 | the flush scan over a list of suits succeeds iff one of them has five cards |
| HandEval.FlushScanFinds | backend/models/poker_game.py:291-295 | the flush scan returns the top five of the first suit in the list that has five cards |
| HandEval.FlushFinds | backend/models/poker_game.py:290-295 | the flush check succeeds iff some suit has five cards, and returns the five highest ranks of the first suit, in Hearts, Diamonds, Clubs, Spades order, that has five |
| HandEval.StraightFinds | backend/models/poker_game.py:297-301 | the straight check succeeds iff the cards hold five consecutive ranks (ace high only), and returns the highest top |
| HandEval.FullHouseFinds | backend/models/poker_game.py:283-288 | the nested full-house scan succeeds iff some rank has exactly three cards and another rank has at least two |
| HandEval.TwoPairScanFinds | backend/models/poker_game.py:308-314 | the two-pair loop returns the highest exact pair and the next exact pair below it, or nothing |
| HandEval.TwoPairFinds | backend/models/poker_game.py:308-314 | the two-pair check succeeds iff two ranks have exactly two cards, and returns the two highest such, highest first |
| HandEval.HighestFinds | backend/models/poker_game.py:279-281 | a rank scan succeeds iff some rank passes, and returns the highest one |
| HandEval.CountScanFinds | backend/models/poker_game.py:278-281 | the four, three and two-of-a-kind scans succeed iff some rank has exactly that many cards |
| HandEval.BestHandTriesInOrder | backend/models/poker_game.py:269-322 | get_best_hand's category is the first scan that succeeds, straight flush first |
| HandEval.UpperScansDecide | backend/models/poker_game.py:269-295 | the straight flush, four of a kind, full house and flush scans each succeed exactly when the cards hold that category |
| HandEval.LowerScansDecide | backend/models/poker_game.py:297-319 | the straight, three of a kind, two pair and pair scans each succeed exactly when the cards hold that category |
| HandEval.BestHandCategory | backend/models/poker_game.py:244-322 | for distinct cards, get_best_hand returns the strongest category the cards contain, defined without the scans |
| HandEval.HighCardIsHighest | backend/models/poker_game.py:322 | `processed_cards[0][0]` is a rank of the cards and no card is higher |
| HandEval.StraightFlushValue | backend/models/poker_game.py:270-276 | the straight-flush value is the top of the highest run within the first suit, in Hearts, Diamonds, Clubs, Spades order, that holds a run; a higher run in a later suit is not chosen |
| HandEval.RankScanValue | backend/models/poker_game.py:279-281 | the four, three and pair values are the highest rank with that count |
| HandEval.FullHouseValue | backend/models/poker_game.py:284-288 | the full-house value is the highest pairable triple and the highest other rank with two or more cards |
| HandEval.FlushValue | backend/models/poker_game.py:291-295 | the flush value is the five highest ranks of the first suit, in Hearts, Diamonds, Clubs, Spades order, that has five or more cards |
| HandEval.StraightValue | backend/models/poker_game.py:299-301 | the straight value is the highest straight top |
| HandEval.TwoPairValue | backend/models/poker_game.py:308-314 | the two-pair value is the two highest exact pairs, highest first |
| HandEval.HighCardValue | backend/models/poker_game.py:321-322 | the high-card value is the highest rank held |
| HandEval.BestHandValue | backend/models/poker_game.py:244-322 | for distinct cards, the value get_best_hand attaches is the one its category calls for |
| Winners.Ranking | backend/models/poker_game.py:331-341 | hand_rankings maps every category into 0..8 |
| Winners.RankingFollowsPrecedence | backend/models/poker_game.py:331-341 | the table is injective and orders straight flush > four of a kind > ... > high card |
| Winners.LexIrreflexive | backend/models/poker_game.py:359-370 | Python's `<` on value sequences is irreflexive |
| Winners.LexTransitive | backend/models/poker_game.py:359-370 | ... transitive |
| Winners.LexTotal | backend/models/poker_game.py:359-370 | ... total on different sequences |
| Winners.LexAsymmetric | backend/models/poker_game.py:359-370 | ... asymmetric |
| Winners.MaxValue | backend/models/poker_game.py:359 | `max(values)` is one of the values |
| Winners.BestIndices | backend/models/poker_game.py:347-348 | every index listed is a hand position with the top ranking |
| Winners.TopValue | backend/models/poker_game.py:355-359 | the maximum is the value of one of the hands at `best_indices` |
| Winners.MaxValueIsMaximum | backend/models/poker_game.py:359 | `max(values)` is one of the values and no value is larger |
| Winners.MaxRanking | backend/models/poker_game.py:344 | `max_hand_rank` is the ranking of some hand and at least every hand's ranking |
| Winners.IndicesRanked | backend/models/poker_game.py:347-348 | `best_indices` holds exactly the positions of that ranking, in increasing order |
| Winners.KeepValue | backend/models/poker_game.py:360 | the kept positions are exactly those among the indices whose value is the maximum |
| Winners.KeepValueIncreasing | backend/models/poker_game.py:360 | the filter keeps increasing order |
| Winners.ValuesAt | backend/models/poker_game.py:355 | `values` lists the hands' values at `best_indices`, in order |
| Winners.GetWinner | backend/models/poker_game.py:325-373 | get_winner answers exactly when the hand list is non-empty (`max` of an empty list raises) |
| Winners.BestFacts | backend/models/poker_game.py:344-370 | `best_indices` is non-empty, and the maximum value is one of their values and not below any of them |
| Winners.TopHandIsBest | backend/models/poker_game.py:344-370 | a hand no other hand beats is among `best_indices` with the maximum value |
| Winners.BestIsTopHand | backend/models/poker_game.py:344-370 | a hand among `best_indices` with the maximum value is beaten by no hand |
| Winners.TopHands | backend/models/poker_game.py:344-370 | the unbeaten hands are exactly those of the top ranking with the maximum value |
| Winners.OneBestIsUniqueTop | backend/models/poker_game.py:350-351 | when one hand alone has the top ranking, it is the only unbeaten hand |
| Winners.KeptAreTopHands | backend/models/poker_game.py:354-370 | the `winners` list is non-empty, increasing, and exactly the unbeaten hands |
| Winners.GetWinnerFindsTopHands | backend/models/poker_game.py:325-373 | the single result is the only unbeaten hand; a split result lists two or more positions in order, each unbeaten, and every unbeaten hand |
| Winners.SingleWinnerIffUniqueTop | backend/models/poker_game.py:373 | get_winner returns the single index i iff hand i is the unique unbeaten hand |
| Betting.ActiveScan | backend/models/poker_game.py:169 | the active seats among the remaining steps of the wrap-around walk, each once, in walk order |
| Betting.ActiveSeats | backend/models/poker_game.py:164-169 | get_active_players(s): every listed seat is active and every active seat is listed, in wrap-around order from s, none twice |
| Betting.ActiveSeatsStartFirst | backend/models/poker_game.py:164-169 | an active start seat comes first |
| Betting.ActiveScanReadsActivity | backend/models/poker_game.py:164-169 | the active-seat list depends only on which seats are active, not on money, bets or cards |
| Betting.ApplyMove | backend/models/poker_game.py:459-512 | a move is rejected exactly for a raise that is not allowed, not above the owed amount or above the stack, and for a check below the call amount; a fold is always accepted and only marks the seat inactive; an accepted check returns the table unchanged; an accepted move changes only the mover's seat, never its hand |
| Betting.ApplyMoveRejections | backend/models/poker_game.py:487-512 | the rejection reason is the first failed test in the source's order |
| Betting.ApplyMoveConservesChips | backend/models/poker_game.py:471-500 | an accepted move leaves the stacks plus the pot unchanged |
| Betting.ApplyMoveKeepsPotIsBets | backend/models/poker_game.py:471-500 | an accepted move adds to the pot what it adds to the seat's bet |
| Betting.ApplyMoveSettlesSeat | backend/models/poker_game.py:465-509 | after an accepted move the seat has folded, is all in, or has bet the call amount |
| Betting.ApplyMoveCallAmount | backend/models/poker_game.py:491-498 | only an allowed raise changes the call amount: it rises by amount minus owed, to the raiser's new bet |
| Betting.CallAllIn | backend/models/poker_game.py:477-483 | a call the stack cannot exceed moves the whole stack to bet and pot and puts the seat all in |
| Betting.CallMatches | backend/models/poker_game.py:472-475 | a call the stack exceeds leaves the bet equal to the call amount, the stack reduced by the owed amount |
| Betting.PostBlind | backend/models/poker_game.py:441-451 | posting a blind changes only that seat and not the call amount |
| Betting.ForcedBet | backend/models/poker_game.py:426-451 | a forced bet fails exactly for a seat that is neither blind seat: with NotABlind (the ValueError) for a seat of the table, and with UnknownSeat for a seat id past the last seat, whose name lookup in the message raises KeyError first |
| Betting.PostBlindConservesChips | backend/models/poker_game.py:442-451 | a blind leaves the stacks plus the pot unchanged |
| Betting.PostBlindKeepsPotIsBets | backend/models/poker_game.py:442-451 | a blind keeps the pot equal to the bets when the seat had bet nothing (the bet is set, not added) |
| Betting.PostBlindAllIn | backend/models/poker_game.py:442-451 | a stack of at most the blind is all in with bet = stack and money 0; a larger stack pays the blind |
| Betting.ResetSeat | backend/models/poker_game.py:117-126 | reset_game on one seat: no cards, no bet, not all in, money kept, active exactly when it has money |
| Betting.CountBroke | backend/models/poker_game.py:116-124 | the eliminations counted are at most the number of seats |
| Betting.CountInactive | backend/models/poker_game.py:381 | the inactive count is at most the number of seats |
| Betting.ResetCountsInactive | backend/models/poker_game.py:115-126 | after a reset the number of seats out equals the number of broke seats; the total stack is unchanged and the total bet is zero |
| Game.ShownHands | backend/models/poker_game.py:221-225 | the shown hands are the best hand of each active seat's cards plus the board, in order, or nothing when a list is empty |
| Game.ShowdownWinner | backend/models/poker_game.py:221-228 | the winner is a position in the active-seat list, or one of the three showdown exceptions |
| Game.ShowdownPaysPosition | backend/models/poker_game.py:221-234 | the winning position p holds the unique unbeaten shown hand and names the active seat `show[p]`; but the seat paid is seat p, whose money grows by the pot, and when p differs from `show[p]` the winning seat is left unpaid; so when seat 0 has folded and position 0 wins, seat 0 is paid though seat `show[0]` won |
| Game.ShowdownWinnerReadsHands | backend/models/poker_game.py:221-228 | the showdown winner depends only on the seats' hands and which seats are active, so paying the pot does not change it |
| Game.ShowdownResult | backend/models/poker_game.py:216-241 | showdown on values keeps the number of seats; what it pays and records is stated by ShowdownResultRecords |
| Game.ShowdownResultRecords | backend/models/poker_game.py:216-241 | when the winner cannot be decided nothing changes and that exception is the outcome; otherwise the seat whose id is the winning position is paid the pot, so the total stack grows by the pot; hands and the winner decision are unchanged, and the statistics and outcome are ShowdownRecord of the paid seats |
| Game.Paid | backend/models/poker_game.py:234 | paying seat w adds the pot to seat w's money and changes nothing else: every other seat is unchanged, and the total stack grows by the pot |
| Game.ShowdownRecord | backend/models/poker_game.py:228-241 | only the winners list and the gains map of the statistics change, and the outcome is one a showdown can end in: completed, an exception of the winner decision, or a missing gains entry |
| Game.GainsStop | backend/models/poker_game.py:239-241 | the first seat from i on, other than the winner, without a gains entry: every seat before it except the winner has one |
| Game.GainsFrom | backend/models/poker_game.py:239-241 | the loop over the other seats keeps the map's keys and can fail only with a missing entry |
| Game.RecordedGains | backend/models/poker_game.py:238-241 | the gains update keeps the map's keys and can fail only with a missing entry |
| Game.GainsFromStops | backend/models/poker_game.py:239-241 | the loop from seat i fails exactly when a seat after i other than the winner has no entry, and the KeyError names the first such seat |
| Game.GainsFromAppends | backend/models/poker_game.py:239-241 | each seat from i up to that first missing seat, except the winner, has minus its bet appended; every other entry is unchanged |
| Game.RecordedGainsAppends | backend/models/poker_game.py:238-241 | succeeds iff every seat has an entry; a winner without an entry fails first with the map untouched; otherwise the winner gets pot minus its bet, each other seat below the first missing one gets minus its bet, the later entries are untouched, and the KeyError names that first missing seat |
| Game.FirstAccepted | backend/models/poker_game.py:193-201 | the accepted request, if any, is one of the tries_per_move requests of this turn and its move is accepted by the rules |
| Game.FirstAcceptedRejectsEarlier | backend/models/poker_game.py:193-201 | every request before the accepted one, or every request of the turn when none is accepted, gives a move the rules reject |
| Game.PlayedTurn | backend/models/poker_game.py:193-205 | a turn makes the requests up to the accepted one, or all tries_per_move of them before the forced fold; only the mover's seat changes, never its hand, and a raise counts only when raises are allowed |
| Game.PlayedTurnSettles | backend/models/poker_game.py:193-205 | after a turn the seat has folded, is all in or matches the call amount; only a raise lifts the call amount and keeps the seat in; chips are conserved and the pot stays the sum of the bets |
| Game.Requeued | backend/models/poker_game.py:210-213 | the appends keep the queue as a prefix, the result holds exactly the queued and the listed seats, and no seat is queued twice |
| Game.Unqueued | backend/models/poker_game.py:211-213 | the listed seats that are not yet queued |
| Game.RequeuedAppendsUnqueued | backend/models/poker_game.py:211-213 | re-queueing appends exactly the listed seats not yet queued, in the listed order |
| Game.TurnStep | backend/models/poker_game.py:186-213 | one pass of the loop: an all-in seat is skipped; with no tries NoMoveMade is raised and nothing changes; the queue changes only after a counted raise, which happens only below raises_per_round and queues an active raiser again; chips are kept, only the mover's seat changes, and the call amount never falls |
| Game.TurnStepKeepsQueue | backend/models/poker_game.py:184-213 | a pass that ends normally keeps the queue invariant: queued seats are active and queued once, and every active seat that is not all in and not queued has matched the call |
| Game.RoundFrom | backend/models/poker_game.py:184-213 | the loop from a given queue: the raises counted never pass raises_per_round, chips and pot-equals-bets are kept, it fails only with NoMoveMade when tries_per_move <= 0, and an empty queue ends at once |
| Game.RoundFromSettles | backend/models/poker_game.py:184-213 | from a queue that keeps the invariant the call amount never falls, only seats able to bet change, and a normal end leaves every active seat that is not all in matching the call |
| Game.PokerGame.constructor | backend/models/poker_game.py:43-101 | every seat starts active, not all in, with no cards or bet and its starting money (100 by default); empty pot and board, call amount the big blind, empty statistics |
| Game.PokerGame.ResetGame | backend/models/poker_game.py:104-128 | new deck, empty pot and board, call amount the big blind; each seat loses its cards and bet and is active iff it has money; returns the number of broke seats |
| Game.PokerGame.DealCards | backend/models/poker_game.py:141-147 | seat i gets deck cards 2i and 2i+1 popped from the front; a short deck fails after dealing what it could |
| Game.PokerGame.DealCommunityCards | backend/models/poker_game.py:150-161 | the first `num` deck cards move to the board in order; a short deck fails after moving all it had |
| Game.PokerGame.HandleForcedBet | backend/models/poker_game.py:426-456 | the table becomes ForcedBet of the old table, or stays unchanged with a ValueError (NotForcedToBet) for a non-blind seat of the table and a KeyError (UnknownPlayer) for a seat id with no player |
| Game.PokerGame.HandlePlayerMove | backend/models/poker_game.py:459-512 | the table becomes ApplyMove of the old table, or stays unchanged and the rejection is returned |
| Game.PokerGame.RequestMove | backend/models/poker_game.py:196-197 | one request: the move is the source's answer for the next request number, which is counted; the table is ApplyMove's result when the move is accepted and unchanged when it is not |
| Game.PokerGame.AskForMove | backend/models/poker_game.py:193-201 | asks only when tries_per_move > 0; the move is accepted iff FirstAccepted finds one; then it is the source's move for that request, the requests up to it were made, and the table is ApplyMove's result; otherwise all tries_per_move requests were made and the table is unchanged |
| Game.PokerGame.PlayTurn | backend/models/poker_game.py:193-205 | fails with NoMoveMade exactly when tries_per_move <= 0, leaving the table as it was; otherwise the table, request count and raise flag are PlayedTurn's: the first accepted move, or a fold after tries_per_move rejected requests; chips and pot-equals-bets are kept, only the mover's seat changes, and the seat ends folded, all in or matching the call |
| Game.PokerGame.Requeue | backend/models/poker_game.py:210-213 | the new queue is the old one followed by the active seats, in order from the seat after the raiser, that are not yet queued; none is queued twice |
| Game.PokerGame.TakeTurn | backend/models/poker_game.py:186-213 | the new table, raise count, request count, outcome and queue are TurnStep's: after a counted raise the queue gains the active seats from the next seat on that are not queued, the raiser included |
| Game.PokerGame.BettingRound | backend/models/poker_game.py:172-213 | the final table, raise count, request count and outcome are RoundFrom from the active seats in order from the start seat; chips are conserved, the raises stay within raises_per_round, folded and all-in seats and all hands are untouched, and at a normal end every active seat that can act has bet the call amount |
| Game.PokerGame.EvaluateShownHands | backend/models/poker_game.py:221-225 | the loop computes ShownHands over the active seats |
| Game.PokerGame.RecordGains | backend/models/poker_game.py:238-241 | the new gains map and the outcome are RecordedGains of the old map (RecordedGainsAppends says which entries grow and which seat the KeyError names); nothing else changes |
| Game.PokerGame.DecideWinner | backend/models/poker_game.py:221-228 | the result is ShowdownWinner of the current seats and board, a valid seat index when it succeeds |
| Game.PokerGame.PayPot | backend/models/poker_game.py:233-241 | the winner's seat is paid the pot and the winner appended; then the gains map and outcome are RecordedGains of the paid seats |
| Game.PokerGame.Showdown | backend/models/poker_game.py:216-241 | the seats, statistics and outcome are ShowdownResult of the old state; hands are kept; the statistics are ShowdownRecord of the new seats; the total stack grows by the pot when a winner is decided |
| Game.PokerGame.PostBlindsAndDeal | backend/models/poker_game.py:392-399 | the state is PostedAndDealt of the old one: pot, call amount and every seat apart from its hand are those Blinds leaves (small blind, then big blind); seat i gets deck cards 2i and 2i+1; it fails with IndexError exactly when the deck holds fewer than two cards per seat; chips are conserved |
| Game.PokerGame.DealAndBet | backend/models/poker_game.py:404-420 | the state and outcome are DealThenBet's, and DealsAndSettles holds: num cards move from the deck to the board exactly when the deck holds them and then a round is bet from the small blind; IndexError exactly when the deck is too short, otherwise a failure only with NoMoveMade when tries_per_move <= 0; only seats able to bet change; a normal end leaves every active seat not all in matching the call; chips are conserved |
| Game.PokerGame.Streets | backend/models/poker_game.py:404-420 | the state and outcome are StreetsFrom's (flop 3, turn 1, river 1 card, each followed by a round from the small blind) and DealsAndSettles holds for five cards: the next five deck cards reach the board in order when the deck holds them and tries_per_move > 0 |
| Game.PokerGame.BetToRiver | backend/models/poker_game.py:401-420 | the state and outcome are BettingToRiver's: a round from seat (BIG_BLIND_ID + 1) mod n, then rounds from the small blind after the flop, turn and river; DealsAndSettles holds for five cards |
| Game.PokerGame.BetAndShowdown | backend/models/poker_game.py:401-423 | the state, statistics and outcome are BetThenShow's, and ShowsDown holds: showdown is reached when the deck holds five cards and tries_per_move > 0, otherwise the failure says which and nothing is recorded; at showdown hands are unchanged, the board gains the next five deck cards, the record is ShowdownRecord's and a decided winner leaves the total stack equal to the chips on the table before the betting |
| Game.PokerGame.PlayRound | backend/models/poker_game.py:376-423 | the state, statistics and outcome are RoundResult's, and RoundShows holds: showdown is reached when the deck holds two cards per seat plus five and tries_per_move > 0; then seat i holds deck cards 2i and 2i+1, the board gains the next five, the record is ShowdownRecord's and a decided winner leaves the total stack equal to the stacks plus pot at the start; otherwise the failure is IndexError or NoMoveMade and the statistics are unchanged; a completed round found a gains entry for every seat |
| Game.PokerGame.PlayRoundAndReset | backend/models/poker_game.py:520-523 | the new state, statistics, outcome and eliminations are RoundAndReset's; RoundShows holds for the round played; a completed round is counted, needed a gains entry for seat 0, and is followed by reset_game: the new deck, empty pot and board, call amount the big blind, each seat ResetSeat of the seat the round left, eliminations the inactive seats; a failed round is not counted |
| Game.PokerGame.CountAndReset | backend/models/poker_game.py:522-523 | the round counter goes up by one and the state becomes ResetPlay of the old one with the new deck; every seat is ResetSeat of its old self and the eliminations returned are the broke seats, which are now the inactive ones |
| Game.PokerGame.PlayPass | backend/models/poker_game.py:520-523 | one pass of the loop is one step of GameFrom: a failed pass ends the game with GameFrom's result, a completed one counts a round and leaves GameFrom from the new state equal to GameFrom from the old |
| Game.PokerGame.PlayRounds | backend/models/poker_game.py:520-525 | the loop's final state and outcome are GameFrom of the state it starts from |
| Game.PokerGame.PlayGame | backend/models/poker_game.py:514-525 | the final state, statistics and outcome are GameResult's, and GameStops holds: the rounds counted never fall and never pass num_rounds; a completed game has reached num_rounds or num_eliminations inactive seats; a failure happens only while fewer than num_rounds rounds are counted and num_eliminations > 0; with num_eliminations <= 0 the game is just the first reset_game; with no gains entries no round is ever counted |
| Game.BetFrom | backend/models/poker_game.py:172-213 | betting_round from a start seat on a play: deck and board kept, chips conserved, and a failure only with NoMoveMade when tries_per_move <= 0 |
| Game.BetFromSettles | backend/models/poker_game.py:172-213 | a betting round changes only seats able to bet, never lowers the call amount, and a normal end leaves every active seat not all in matching the call |
| Game.DealThenBet | backend/models/poker_game.py:150-161 | deal_community_cards(num) then a round from the small blind: IndexError exactly when num exceeds the deck, which then goes whole to the board; otherwise the deck loses its first num cards to the board, and a failure is NoMoveMade with tries_per_move <= 0 |
| Game.DealThenBetSettles | backend/models/poker_game.py:404-420 | a deal and the round after it satisfy DealsAndSettles |
| Game.DealsAndSettlesChains | backend/models/poker_game.py:404-420 | two steps that each deal and settle, the first ending normally, together deal the sum of their cards and settle |
| Game.BetFromDeals | backend/models/poker_game.py:402 | a betting round alone deals no card and settles |
| Game.StreetsFrom | backend/models/poker_game.py:404-420 | the flop, turn and river keep the seat count and conserve chips |
| Game.StreetsFromDeals | backend/models/poker_game.py:404-420 | flop, turn and river deal the deck's next five cards to the board in order, fail only for a deck short of them or tries_per_move <= 0, and settle the table |
| Game.BettingToRiver | backend/models/poker_game.py:401-420 | the four betting rounds keep the seat count and conserve chips |
| Game.BettingToRiverDeals | backend/models/poker_game.py:401-420 | the pre-flop round from the seat after the big blind and the three streets together deal five cards and settle |
| Game.DealtSeats | backend/models/poker_game.py:141-147 | deal_cards: seat i takes deck cards 2i and 2i+1 when the deck holds them, and nothing else about a seat changes |
| Game.Blinds | backend/models/poker_game.py:392-396 | the small blind, then the big blind: chips conserved and the call amount unchanged |
| Game.PostedAndDealt | backend/models/poker_game.py:392-399 | the blinds and the deal: the pot and every seat apart from its hand are those Blinds leaves, hands are deck cards 2i and 2i+1 and the deck loses 2n cards, or is emptied when it holds fewer |
| Game.ShowAfter | backend/models/poker_game.py:423 | showdown after a betting phase that ended normally, nothing after one that failed; only the winners and gains of the statistics can change |
| Game.ShowAfterShows | backend/models/poker_game.py:401-423 | after betting that dealt five cards and settled, showdown is reached exactly when that betting ended normally; then hands are unchanged, the board gains five cards and the round is ShowdownRecord's, and otherwise nothing is recorded |
| Game.BetThenShow | backend/models/poker_game.py:401-423 | the betting and showdown keep the seat count and change only the winners and gains of the statistics |
| Game.BetThenShowShows | backend/models/poker_game.py:401-423 | the betting and showdown satisfy ShowsDown |
| Game.RoundResult | backend/models/poker_game.py:376-423 | play_round on values: the seat count is kept and only the winners and gains of the statistics change |
| Game.RoundResultShows | backend/models/poker_game.py:376-423 | play_round on values satisfies RoundShows |
| Game.DealtRoundShows | backend/models/poker_game.py:392-423 | what the betting and showdown do from the dealt state, restated from the state before the deal: hands are deck cards 2i and 2i+1 and the board the next five |
| Game.ShowdownDoneHasGains | backend/models/poker_game.py:238-241 | a showdown that completes found a gains entry for every seat |
| Game.RoundDoneHasGains | backend/models/poker_game.py:376-423 | a round that completes found a gains entry for every seat |
| Game.ResetPlay | backend/models/poker_game.py:104-128 | reset_game on values: seat count and total stack kept, and the inactive seats afterwards are the broke seats before |
| Game.ResetPlayIs | backend/models/poker_game.py:104-128 | a state that is reset_game's field by field is ResetPlay |
| Game.ResetAfterRound | backend/models/poker_game.py:520-523 | a failed round stops the game as it is; a completed one counts a round, deals the new deck with empty pot and board, and returns the inactive seats |
| Game.RoundAndReset | backend/models/poker_game.py:520-523 | a failed pass counts no round; a completed one counts one, returns the inactive seats, and needed a gains entry for seat 0 |
| Game.GameFrom | backend/models/poker_game.py:520-525 | the loop keeps the seat count |
| Game.GameFromStep | backend/models/poker_game.py:520-523 | while the condition holds, the loop is one pass followed by the loop |
| Game.GameFromDone | backend/models/poker_game.py:520 | once either threshold is reached the loop ends with the game complete and nothing changed |
| Game.GameResult | backend/models/poker_game.py:514-525 | play_game on values keeps the seat count |
| Game.GameFromStops | backend/models/poker_game.py:520-525 | the loop never lowers the round count or plays past num_rounds, stops normally only at a threshold, fails only below num_rounds with num_eliminations > 0, does nothing once eliminations reach num_eliminations, and counts no round without gains entries |
| Game.GameResultStops | backend/models/poker_game.py:514-525 | play_game on values satisfies GameStops |

## Left out

- Money and amounts are integers; the source's floats and their rounding are not modelled.
- The `game_state_description` narrative, and with it the `river` parameter of `deal_community_cards`, which only selects a word of that text.
- The error message texts of `handle_player_move`: a rejection carries its reason and the numbers involved, not the sentence.
- `random.shuffle` becomes a parameter: any permutation of the fresh deck (`Cards.IsShuffle`), one per reset.
- `Player.make_move` and the language-model call behind it become a function from (request number, seat) to a move. The game description passed to it is not modelled; the error text is always empty because it is reset before every attempt.
- `get_game_statistics` and `get_game_description` are plain getters; `PlayGame` returns the statistics.
- `players_dict` holds Player objects; only their names are kept.
- Cards.ParseRank: accepts exactly the thirteen rank names `create_deck` writes. Python's `int()` also accepts texts such as "07" or " 9", which no dealt card carries.
- Betting.ActiveSeats: requires the start seat to be below the number of seats; Python would reduce a larger start modulo the seat count. Every call site passes a seat below it.
- Cards.ParseCard: only the names of the 52 cards parse. A text without " of " (a bare numeral such as "7") or with a suit part that is not a suit name (such as "2 of hearts") gives None, where Python keeps the rank with that suit text and the suit scans ignore the card. Dealt cards never carry such text.
- HandEval.BestHandCategory and HandEval.BestHandValue: proved for card lists without repeats, which is what a dealt hand is; get_best_hand itself accepts any list.
- The assertions in `__init__` (at least two players; one money entry per player) are preconditions of the constructor rather than failures.
