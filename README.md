# Texas hold'em engine: a verified model

This project models the game engine of a multiplayer Texas hold'em server: the `Poker` class of
`services/poker.js`. One engine object holds a table's nine fields: the players, the deck, the
community cards, the current seat, the pot, the two blind seats, the betting-round counter and the
winner. Its methods change those fields in place:

- build and shuffle the deck;
- seat players;
- take the 10/20 blinds;
- deal hole and community cards by popping from the end of the deck;
- apply fold, call and raise;
- decide whether a betting round is complete;
- pass the turn cyclically to the next seat still in game;
- settle the pot;
- reset the table between hands, rotating the blinds.

The model has two layers.

- `PokerEngine.Poker` (poker.dfy) is a class with the same nine fields and one method per engine
  method, written with the engine's own loops. Each method's contract says that the new state is
  a given function of the old one. `State()` is the snapshot of the fields.
- Those functions, and the laws about them, live in pure modules:
  - `Cards`: the deck, the shuffle, pops;
  - `Table`: players, snapshots, chip and card totals, active seats;
  - `Dealing`;
  - `Settlement`;
  - `Betting`: bets, actions, round completion, turn order, end of round;
  - `Lifecycle`: seating, start, reset.

The laws proved about these functions:

- **Chips on the table** (every player's chips plus the pot) are conserved by bets, blinds and
  actions. Settlement pays out without emptying the pot.
- **Cards in play** (deck, board and hands as one multiset) are conserved by every deal. After a
  reset they are exactly the 52 standard cards.
- The initial deck holds each suit–rank pair exactly once. The shuffle is a permutation whatever
  the random draws are.
- The round-completion test holds exactly when everyone in game has called or raised at one
  common bet.
- The turn passes to the first seat in game strictly after the current one.
- The winners are exactly the seats in game whose hands rank highest. A split pot hands out the
  floor share, losing less than one chip per winner.

Three external dependencies are parameters:

- **Random draws.** `rand: nat -> nat` gives the draw at shuffle position i, taken modulo i + 1.
- **The hand-ranking library.** `rank: seq<Card> -> int` ranks a player's hole cards together
  with the board. Winners are the seats in game with the highest rank.
- **Exceptions.** An action that makes JavaScript throw a TypeError returns
  `Outcome.TypeError`, with the state as it was at the throw. This covers a call of the undefined
  `foldPlayer` and a property read on a seat that holds no player.

Quirks of the code as written are modelled as such and stated in lemmas:

- **Two settlements.** `endBettingRound` does not return after settling early. A lone survivor
  who reaches the fourth round is paid twice (`Betting.EndBettingRoundPaysSurvivorTwice`).
- **The pot is never cleared** at settlement.
- **A tie sets no winner.**
- **Chips can go negative.** Actions never check chips, so chips are `int`.
- **Indices wrap with JavaScript's truncating `%`** (`Table.JsRem`).

The code as written also does the following, and the model follows it:

- **A blind a player cannot cover throws.** The code calls the missing `foldPlayer`; it does not
  fold the player.
- **The blinds come from `smallBlindIndex` and the seat after it.**
- **`startGame` does not reset the round counter.**
- **Early settlement does not end `endBettingRound`.**
- **The engine does not check who sends an action.** Ignoring actions from a seat other than the
  current one is left to the caller.

## Model

| member | source | states |
|---|---|---|
| PokerEngine.Poker.constructor | services/poker.js:17-28 | a new engine has no players, blinds at seats 0 and 1, round 0, pot 0, no winner, and a shuffled standard deck (`Lifecycle.Initial`) |
| PokerEngine.Poker.RecreateInstance | services/poker.js:3-15 | the rebuilt engine is fresh and its nine fields are exactly the serialized ones, whatever deck its own construction shuffled |
| PokerEngine.Poker.InitializeDeck | services/poker.js:30-54 | the nested suit/rank loops append the 52 standard cards in order; then the deck is shuffled; no other field changes |
| PokerEngine.Poker.ShuffleDeck | services/poker.js:56-61 | the downward swap loop leaves the deck `Shuffled(old deck, rand)` and touches nothing else |
| PokerEngine.Poker.InitializePlayers | services/poker.js:63-67 | one `AddPlayer` per user, in order, each paired with the name at the same position |
| PokerEngine.Poker.AddPlayer | services/poker.js:69-79 | one new record is appended at the end of the table |
| PokerEngine.Poker.StartGame | services/poker.js:81-88 | seat the users, mark all in game, take the blinds from the small blind's seat and, unless that threw, deal; the new state and outcome are `Lifecycle.StartGame` |
| PokerEngine.Poker.CollectBlinds | services/poker.js:90-97 | turn set to (start + 2) % n, then the small blind from `start` and, if it went through, the big blind; the first throw ends the call |
| PokerEngine.Poker.CollectBet | services/poker.js:99-109 | a missing seat or too few chips throws and changes nothing; otherwise chips -= amount, bet += amount, pot += amount, lastBet := amount |
| PokerEngine.Poker.DealInitialCards | services/poker.js:111-117 | two passes in seat order, each popping one card onto every hand (`Dealing.DealInitialCards`) |
| PokerEngine.Poker.DealCommunityCards | services/poker.js:119-124 | `count` pops from the deck pushed onto the board |
| PokerEngine.Poker.HandleActions | services/poker.js:126-146 | the move is applied to the current seat (a recognized move on a missing seat throws); then the round ends if complete, and the turn passes otherwise |
| PokerEngine.Poker.IsBettingRoundCompleted | services/poker.js:148-170 | true exactly when every player in game has called or raised and all players in game have the same bet; changes nothing |
| PokerEngine.Poker.EndBettingRound | services/poker.js:172-194 | clears bets and last actions, settles if fewer than two are in game, counts the round up, deals 3 or 1 cards or settles again, and gives the turn to the small blind |
| PokerEngine.Poker.NextPlayer | services/poker.js:196-208 | settles first if fewer than two are in game; a negative start throws; otherwise the turn goes to the seat the cyclic search finds |
| PokerEngine.Poker.FindActive | services/poker.js:203-206 | the search loop stops at `Betting.NextActive(players, start)`, a seat in range that is in game |
| PokerEngine.Poker.EvaluateWinner | services/poker.js:210-260 | the new state is `Settlement.EvaluateWinner` of the old |
| PokerEngine.Poker.Showdown | services/poker.js:218-259 | with zero or several players in game: rank the hands, then pay one winner the pot or each tied winner the floor share |
| PokerEngine.Poker.Award | services/poker.js:214-217 | the seat's chips rise by the pot and `winner` names the seat |
| PokerEngine.Poker.RankHands | services/poker.js:220-232 | every player in game stores the rank of hole cards plus board; nothing else changes |
| PokerEngine.Poker.PayWinners | services/poker.js:248-257 | each listed winner in turn receives the share |
| PokerEngine.Poker.ResetGame | services/poker.js:262-284 | reset the table, then with n > 1 take the blinds from the new small blind and, unless that threw, deal |
| PokerEngine.Poker.ResetTable | services/poker.js:263-279 | blinds rotated, table cleared, fresh shuffled deck, every player reset (`Lifecycle.ResetTable`) |
| PokerEngine.Poker.ResetPlayers | services/poker.js:274-279 | every hand emptied, bet 0, in game, last action cleared; chips kept |
| Cards.StandardDeckAt | services/poker.js:31-52 | card k of the unshuffled deck has suit k / 13 and rank k % 13 (suits in the outer loop, ranks in the inner one) |
| Cards.StandardDeckPair | services/poker.js:48-51 | the card pushed at suit si, rank ri lands at position 13 * si + ri |
| Cards.StandardDeckIsComplete | services/poker.js:31-52 | every suit–rank card is in the deck, the 52 positions are pairwise distinct, and each card occurs exactly once |
| Cards.DistinctOccursOnce | services/poker.js:48-52 | in a sequence without repeats, every element has multiplicity one |
| Cards.ShuffledPermutes | services/poker.js:56-61 | the shuffle keeps the length and the multiset, for every sequence of draws |
| Cards.ShuffledFromPermutes | services/poker.js:57-60 | the remaining swaps from any position keep the length and the multiset |
| Cards.Swap | services/poker.js:59 | the destructuring swap exchanges positions i and j, leaves the rest alone, and keeps the multiset |
| Cards.ShuffleStep | services/poker.js:58-59 | the draw is at most i, and one swap written as two element assignments continues the shuffle exactly |
| Cards.PoppedAt | services/poker.js:121 | the t-th of k successive pops returns the card t places from the end |
| Cards.PoppedSplits | services/poker.js:121 | what is left after k pops, plus what was popped, is the old deck as a multiset |
| Table.NewPlayer | services/poker.js:70-78 | the pushed record has 1000 chips, bet 0, an empty hand, is not in game and has no last action |
| Table.JsRem | services/poker.js:93-94 | JavaScript's `%`: |r| < n, a = q * n + r with truncating q, and r has the sign of a |
| Table.ActiveFrom | services/poker.js:150 | the filter over players in game: exactly the in-game seats, in increasing seat order |
| Table.ActiveCountPositive | services/poker.js:211-213 | the active count is positive exactly when some seat is in game |
| Table.ChipsSumUpdate | services/poker.js:101 | replacing one player changes the chip total by the difference of that seat's chips |
| Table.HeldUpdate | services/poker.js:114 | replacing one player's hand swaps that hand's cards in the multiset of held cards |
| Dealing.InitializeDeckAddsStandardDeck | services/poker.js:30-54 | the deck grows by 52, its multiset by the standard deck, the cards in play likewise; nothing else changes |
| Dealing.DealPassHands | services/poker.js:113-115 | after one pass over the first k seats, seat p < k has gained the card p places from the end, other seats nothing, and the deck lost k cards |
| Dealing.DealInitialCardsHands | services/poker.js:111-117 | seat p gains exactly the cards 1 + p and 1 + n + p places from the end of the deck; the deck shrinks by 2n; nothing else changes |
| Dealing.DealOneKeepsCards | services/poker.js:114 | one pop-and-push moves a card from the deck to a hand |
| Dealing.DealPassKeepsCards | services/poker.js:113-115 | one dealing pass neither creates nor loses a card |
| Dealing.DealInitialCardsKeepsCards | services/poker.js:111-117 | dealing the hole cards keeps the cards in play |
| Dealing.DealCommunityCardsMoves | services/poker.js:119-122 | the board gains the last `count` deck cards in pop order, the deck keeps its prefix, nothing else changes |
| Dealing.BurnKeepsCards | services/poker.js:121 | one pop onto the board keeps the cards in play |
| Dealing.DealCommunityCardsKeepsCards | services/poker.js:119-122 | dealing to the board keeps the cards in play |
| Settlement.WithHandInfo | services/poker.js:220-232 | each player in game gets handInfo = rank of hole cards plus board; players out of game and every other field stay |
| Settlement.WinnerIsBestActive | services/poker.js:234-235 | every winner is a seat in game whose rank is at least every in-game rank |
| Settlement.BestActiveIsWinner | services/poker.js:234-235 | every seat in game with a maximal rank is among the winners |
| Settlement.WinnerIffBestActive | services/poker.js:234-235 | a seat is a winner exactly when it is in game with a maximal rank |
| Settlement.WinnersAreBestActive | services/poker.js:234-235 | the same equivalence, for all seats at once |
| Settlement.WinnersShape | services/poker.js:234-235 | the winners are increasing seats in game, non-empty exactly when someone is in game |
| Settlement.WinnersSameHands | services/poker.js:220-235 | the winners depend only on who is in game and on the hands |
| Settlement.TopSeatsSorted | services/poker.js:235 | the seats kept at the best value are increasing and all have that value |
| Settlement.PayEachAt | services/poker.js:249-257 | paying distinct winners one share each gives every winner exactly one share and nobody else anything |
| Settlement.PayEachSum | services/poker.js:249-257 | paying k winners adds k shares to the chip total |
| Settlement.SoleSurvivorWins | services/poker.js:211-214 | with one player in game, the winners are exactly that seat |
| Settlement.EvaluateWinnerPlayers | services/poker.js:210-260 | every seat ends as its ranked record plus the share for winners: the pot for a sole or single winner, floor(pot / k) for k tied ones |
| Settlement.EvaluateWinnerKeepsSeats | services/poker.js:210-260 | settling changes only chips, hand rankings and `winner`: flags, hands, bets, last actions, deck, board and pot stay |
| Settlement.EvaluateWinnerPays | services/poker.js:210-260 | the chip total rises by winners × share; `winner` is set exactly when there is one winner; the pot is not cleared |
| Settlement.EvaluateWinnerBounds | services/poker.js:246-258 | with someone in game there is at least one winner, and the payout is at most the pot and short of it by less than the number of winners |
| Settlement.FloorShareBounds | services/poker.js:248 | 0 <= pot - k * floor(pot / k) < k |
| Settlement.SoleSurvivorTakesPot | services/poker.js:213-217 | the lone player gains the pot, `winner` names them, the pot stays |
| Betting.CollectBetEffect | services/poker.js:99-109 | succeeds exactly when the seat exists and covers the amount; a failure changes nothing; chips plus pot are conserved; only that seat and the pot change |
| Betting.CollectBlindsEffect | services/poker.js:90-97 | the turn goes to (start + 2) % n; blinds conserve chips plus pot; and the exact condition for both blinds to go through |
| Betting.CollectBlindsCharges | services/poker.js:90-97 | with two or more seats and enough chips: seat `start` pays 10, seat (start + 1) % n pays 20, the pot gains 30, no other seat changes |
| Betting.CollectBlindsAlone | services/poker.js:90-97 | a lone player pays both blinds (30), last bet 20 |
| Betting.ApplyActionEffect | services/poker.js:127-139 | fold only clears `inGame`; call moves callBet and raise callBet + 10 from chips into bet and pot; other seats and fields untouched; chips plus pot conserved; throws exactly on a recognized move at a missing seat |
| Betting.ApplyActionKeepsCards | services/poker.js:127-139 | a move keeps the cards in play |
| Betting.RoundCompletedIff | services/poker.js:148-170 | complete exactly when every player in game has acted and all players in game have equal bets (vacuously true with nobody in game) |
| Betting.CompletedActedLevel | services/poker.js:152-166 | a completed round has everyone in game acted, at the first active player's bet |
| Betting.ActedLevelCompleted | services/poker.js:152-166 | everyone in game acted at one common bet completes the round |
| Betting.NotCompletedHasActive | services/poker.js:141-144 | an incomplete round has a player in game, so the turn search ends |
| Betting.FirstActiveOffset | services/poker.js:204-206 | the search's offset is the least one whose seat is in game |
| Betting.Gap | services/poker.js:203-205 | the cyclic distance from one seat to another is in 1..n, reaches it, and is n only for the seat itself |
| Betting.SuccSeat | services/poker.js:205 | one `(i + 1) % n` step moves one seat further round the table |
| Betting.NextActiveAfter | services/poker.js:203-207 | the seat found is the first in game strictly after the current one: none between is in game, none in game is nearer, and it is another seat when two or more are in game |
| Betting.NextPlayerSteps | services/poker.js:197-207 | settling before the search keeps every seat's flag and the turn; a negative start throws; otherwise the turn goes to the search's seat |
| Betting.FirstActiveOffsetSameInGame | services/poker.js:204-206 | the search depends only on who is in game |
| Betting.NextPlayerTurn | services/poker.js:196-208 | from a valid seat: completes; the new seat is in game and the first one after the old; with two or more in game only the turn changes; otherwise the settled state with that turn |
| Betting.ClearBetsEffect | services/poker.js:174-177 | every bet 0 and last action cleared; flags, hands, chips and cards unchanged |
| Betting.SettleIfFewEffect | services/poker.js:178-183 | an early settlement keeps seats and cards and adds one payout exactly when fewer than two are in game |
| Betting.AdvanceRoundEffect | services/poker.js:184-191 | round + 1; 3 cards at round 1, 1 at rounds 2–3, from the end of the deck onto the board; settlement (one payout) from round 4 on; seats, pot and cards kept |
| Betting.EndBettingRoundResets | services/poker.js:172-194 | after the call: bets 0, last actions cleared, round + 1, board + popped cards, deck prefix, turn at the small blind, pot and blinds as before, cards conserved |
| Betting.EndBettingRoundChips | services/poker.js:172-194 | the chip total grows by one payout per settlement, for the early one and the fourth-round one |
| Betting.EndBettingRoundPaysSurvivorTwice | services/poker.js:181-191 | a lone survivor reaching round 4 collects the pot twice; the pot stays and `winner` names them |
| Betting.HandleActionsKeepsCards | services/poker.js:126-146 | a whole turn keeps the cards in play |
| Betting.HandleActionsPassesTurn | services/poker.js:126-146 | a move that leaves the round open with two or more in game conserves chips plus pot and hands the turn to the next seat in game after the mover |
| Lifecycle.InitialDeck | services/poker.js:17-28 | a new engine holds a permutation of the 52 standard cards and nothing else |
| Lifecycle.AddPlayerAppends | services/poker.js:69-79 | the newcomer is appended with 1000 chips and no cards; earlier seats and other fields unchanged; chips on the table + 1000 |
| Lifecycle.InitializePlayersAppends | services/poker.js:63-67 | seating appends one record per user, in order, and changes nothing else |
| Lifecycle.StartGameSeats | services/poker.js:82-85 | after seating and marking in game: all seats in game, chips on the table + 1000 per user, cards unchanged |
| Lifecycle.StartGameEffect | services/poker.js:81-88 | everyone in game; chips + 1000 per newcomer; cards conserved; if the blinds go through, pot + 30, deck − 2n, two more cards per hand |
| Lifecycle.CollectBlindsKeepsCards | services/poker.js:90-97 | blinds touch no card, flag or hand, and no field but players, pot and turn |
| Lifecycle.BlindsThenDealEffect | services/poker.js:86-87 | flags and last actions kept, chips and cards conserved; when the blinds go through, pot + 30, turn two seats on, deck − 2n, two more cards each |
| Lifecycle.ResetTableEffect | services/poker.js:263-279 | blinds rotated with JavaScript's `%`; pot, round, winner and board cleared; a fresh 52-card permutation is the only cards in play; players reset with chips kept |
| Lifecycle.ResetGameEffect | services/poker.js:262-284 | after a reset the cards in play are the 52 standard cards, everyone is in game, chips on the table are the old chips; a lone player is only reset; with blinds through, pot 30, deck 52 − 2n, two cards each |
| Lifecycle.DealsFromResetTable | services/poker.js:280-283 | blinds and deal on a freshly reset table: pot 30, deck 52 − 2n, every hand two cards, everyone still in game |

## Left out

- `console.log` output is not modelled (output only).
- services/socket.js, models/, and index.js are not part of this model: transport, persistence and server start-up.
- Concurrency and per-room serialization are not modelled. The engine is single-threaded.
- Which seat may act is not checked here. That check belongs to the caller, and the engine never makes it.
- The `pokersolver` library is an oracle `rank: seq<Card> -> int`.
  - The card strings it is given (rank plus lower-case suit initial) are not modelled.
  - `Hand.winners` is the set of in-game seats of maximal rank, in seat order. With nobody in game it is empty.
  - `handInfo` holds the rank value, not the library's hand object.
- `winner` holds the seat index of the winning player, not an alias of the player object. The `find` by object identity becomes that seat.
- `Math.random` is the parameter `rand`, and the draw at position i is `rand(i) % (i + 1)`. Every draw in 0..i is possible; uniformity is not modelled.
- Chip amounts, bets and the pot are modelled as unbounded `int`. JavaScript numbers are IEEE-754 doubles, so rounding above 2^53, fractional amounts (a fractional `callBet`) and string concatenation from a string `callBet` are not modelled.
- Action strings other than "fold", "call" and "raise" are `Move.Unrecognized`.
- Player counts the code would turn into NaN or an endless loop are excluded by preconditions, not modelled:
  - `Betting.CollectBlinds` and `PokerEngine.Poker.CollectBlinds` require at least one player, because `% 0` is NaN.
  - `Lifecycle.ResetGame` and `PokerEngine.Poker.ResetGame` require 1 to 26 players, because `% 0` is NaN and more than 26 players overdraw the deck. services/socket.js:61-62 does call `resetGame` once the last player is kicked out, leaving zero players; the resulting NaN blind indices are not modelled. `Lifecycle.ResetTable` and `PokerEngine.Poker.ResetTable` likewise require at least one player.
  - `Betting.NextPlayer` and `PokerEngine.Poker.NextPlayer` require a player in game, because with nobody in game its search never ends.
  - `Lifecycle.StartGame` and `PokerEngine.Poker.StartGame` require at least one player after seating, because its blinds take `% n`.
- Popping an empty deck is excluded by preconditions. JavaScript would push `undefined` there.
  - `Dealing.DealInitialCards` and `PokerEngine.Poker.DealInitialCards`: the deck has at least 2n cards.
  - `Dealing.DealCommunityCards` and `PokerEngine.Poker.DealCommunityCards`: the deck has at least `count` cards.
  - `Betting.EndBettingRound`, `Betting.HandleActions`, `PokerEngine.Poker.EndBettingRound` and `PokerEngine.Poker.HandleActions`: the deck has at least `NeededCards` cards.
  - `Lifecycle.StartGame` and `PokerEngine.Poker.StartGame`: the deck covers 2n hole cards.
- `Lifecycle.InitializePlayers`, `PokerEngine.Poker.InitializePlayers` and `PokerEngine.Poker.StartGame` require at least as many names as users, because a missing name would be `undefined`.
- `Betting.NextPlayerTurn` is stated for a current seat in range (the cyclic "strictly after" needs one). The function itself covers every index, including the throw on a negative start.
- Deep copies and aliasing between the serialized state and the rebuilt engine are not modelled. The model copies values.
